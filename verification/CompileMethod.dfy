/**
 The compiler as the loops of `CompileUltraLow`: one pass for labels, one running offset
 through variables, struct temporaries and stack allocations, one pass that emits code.
 */
module CompileMethod {
  import opened Words
  import opened Types
  import opened Ir
  import opened VmMachine
  import opened VmCompiler
  import FrameLayout

  // ---------- prefixes of a function's code ----------

  lemma {:induction false} FlattenSnoc(blocks: seq<Block>, b: nat)
    requires b < |blocks|
    ensures Flatten(blocks[..b + 1]) == Flatten(blocks[..b]) + blocks[b].instrs
    decreases |blocks|
  {
    if b == 0 {
      assert blocks[..1] == [blocks[0]];
      assert Flatten([blocks[0]]) == blocks[0].instrs + Flatten([blocks[0]][1..]);
    } else {
      assert blocks[..b + 1][1..] == blocks[1..][..b] && blocks[..b][1..] == blocks[1..][..b - 1];
      FlattenSnoc(blocks[1..], b - 1);
    }
  }

  /** The instructions before instruction `j` of block `b`. */
  function Before(blocks: seq<Block>, b: nat, j: nat): seq<Instr>
    requires b < |blocks| && j <= |blocks[b].instrs|
  {
    Flatten(blocks[..b]) + blocks[b].instrs[..j]
  }

  lemma BeforeNext(blocks: seq<Block>, b: nat, j: nat)
    requires b < |blocks| && j < |blocks[b].instrs|
    ensures Before(blocks, b, j + 1) == Before(blocks, b, j) + [blocks[b].instrs[j]]
  {
  }

  lemma BeforeEnds(blocks: seq<Block>, b: nat)
    requires b < |blocks|
    ensures Before(blocks, b, 0) == Flatten(blocks[..b])
    ensures Before(blocks, b, |blocks[b].instrs|) == Flatten(blocks[..b + 1])
  {
    FlattenSnoc(blocks, b);
  }

  // ---------- labels and the highest register ----------

  lemma MaxDestSnoc(code: seq<Instr>, ins: Instr)
    ensures MaxDest(code + [ins]) == if ins.dest > MaxDest(code) then ins.dest else MaxDest(code)
  {
    assert (code + [ins])[..|code + [ins]| - 1] == code;
  }

  method LayOutLabels(blocks: seq<Block>) returns (labels: map<int, nat>, maxTmp: nat)
    ensures labels == LabelPcs(blocks, |blocks|)
    ensures maxTmp == MaxDest(Flatten(blocks))
  {
    labels, maxTmp := map[], 0;
    var size := 0;
    for b := 0 to |blocks|
      invariant size == CodeStart(blocks, b)
      invariant labels == LabelPcs(blocks, b)
      invariant maxTmp == MaxDest(Flatten(blocks[..b]))
    {
      labels := labels[blocks[b].lab := size];
      BeforeEnds(blocks, b);
      for j := 0 to |blocks[b].instrs|
        invariant size == CodeStart(blocks, b) + j
        invariant maxTmp == MaxDest(Before(blocks, b, j))
      {
        BeforeNext(blocks, b, j);
        MaxDestSnoc(Before(blocks, b, j), blocks[b].instrs[j]);
        if blocks[b].instrs[j].dest > maxTmp { maxTmp := blocks[b].instrs[j].dest; }
        size := size + 1;
      }
    }
    assert blocks[..|blocks|] == blocks;
  }

  // ---------- offsets ----------

  /** The state of the layout once the first `n` slots have their offsets. */
  ghost predicate LaidOut(fn: Function, n: nat, offset: nat, tmpOffsets: seq<int>) {
    && n <= |Slots(fn)|
    && offset == ObjectsEnd(Objects(fn), |fn.localTypes| + n)
    && tmpOffsets == SlotOffsets(fn, n)
  }

  method LayOutLocals(fn: Function) returns (offset: nat, localOffsets: seq<nat>)
    ensures LaidOut(fn, 0, offset, seq(|fn.tmpTypes|, _ => -1))
    ensures localOffsets == LocalOffsets(fn)
  {
    offset, localOffsets := 0, [];
    for k := 0 to |fn.localTypes|
      invariant offset == ObjectsEnd(Objects(fn), k)
      invariant localOffsets == LocalOffsets(fn)[..k]
    {
      offset := AlignUp(offset, 8);
      localOffsets := localOffsets + [offset];
      offset := offset + SizeInBytes(fn.localTypes[k]);
    }
  }

  lemma NextSlot(fn: Function, n: nat, offset: nat, tmpOffsets: seq<int>, t: nat, size: nat)
    requires LaidOut(fn, n, offset, tmpOffsets) && n < |Slots(fn)| && Slots(fn)[n] == (t, size)
    ensures LaidOut(fn, n + 1, AlignUp(offset, 8) + size, SetSlot(tmpOffsets, t, AlignUp(offset, 8)))
  {
  }

  /** Struct temporaries come first among the slots. */
  lemma StructSlot(fn: Function, t: nat, n: nat)
    requires t < |fn.tmpTypes| && fn.tmpTypes[t].Struct?
    requires n <= |StructTmps(fn.tmpTypes, 0)| && StructTmps(fn.tmpTypes, 0)[n..] == StructTmps(fn.tmpTypes, t)
    ensures n < |StructTmps(fn.tmpTypes, 0)| <= |Slots(fn)| && Slots(fn)[n] == (t, SizeInBytes(fn.tmpTypes[t]))
    ensures StructTmps(fn.tmpTypes, 0)[n + 1..] == StructTmps(fn.tmpTypes, t + 1)
  {
    hide SAllocs;
    assert StructTmps(fn.tmpTypes, t)[1..] == StructTmps(fn.tmpTypes, t + 1);
    assert StructTmps(fn.tmpTypes, 0)[n] == StructTmps(fn.tmpTypes, t)[0];
  }

  /** Then the stack allocations in code order; `ahead` is the code from the next instruction on. */
  lemma AllocationSlot(fn: Function, ahead: seq<Instr>, n: nat)
    requires ahead != [] && n <= |Slots(fn)| && Slots(fn)[n..] == SAllocs(ahead)
    ensures IsSAlloc(ahead[0]) ==> n < |Slots(fn)| && Slots(fn)[n] == (ahead[0].dest, SAllocSize(ahead[0])) &&
                                   Slots(fn)[n + 1..] == SAllocs(ahead[1..])
    ensures !IsSAlloc(ahead[0]) ==> Slots(fn)[n..] == SAllocs(ahead[1..])
  {
    hide Slots;
    if IsSAlloc(ahead[0]) {
      assert SAllocs(ahead)[1..] == SAllocs(ahead[1..]);
      assert Slots(fn)[n] == SAllocs(ahead)[0];
    }
  }

  method LayOutStructTmps(fn: Function, end: nat) returns (offset: nat, tmpOffsets: seq<int>, maxWide: int)
    requires LaidOut(fn, 0, end, seq(|fn.tmpTypes|, _ => -1))
    ensures LaidOut(fn, |StructTmps(fn.tmpTypes, 0)|, offset, tmpOffsets)
    ensures maxWide == MaxWide(fn.tmpTypes, |fn.tmpTypes|)
  {
    hide SizeInBytes, LaidOut, Slots;
    offset, tmpOffsets, maxWide := end, seq(|fn.tmpTypes|, _ => -1), -1;
    ghost var n: nat := 0;
    for t := 0 to |fn.tmpTypes|
      invariant n <= |StructTmps(fn.tmpTypes, 0)| && StructTmps(fn.tmpTypes, 0)[n..] == StructTmps(fn.tmpTypes, t)
      invariant LaidOut(fn, n, offset, tmpOffsets) && |tmpOffsets| == |fn.tmpTypes|
      invariant maxWide == MaxWide(fn.tmpTypes, t)
    {
      if Is128(fn.tmpTypes[t]) { maxWide := t; }
      if fn.tmpTypes[t].Struct? {
        StructSlot(fn, t, n);
        NextSlot(fn, n, offset, tmpOffsets, t, SizeInBytes(fn.tmpTypes[t]));
        offset := AlignUp(offset, 8);
        tmpOffsets := SetSlot(tmpOffsets, t, offset);
        offset := offset + SizeInBytes(fn.tmpTypes[t]);
        n := n + 1;
      }
    }
  }

  /** Behind the slots of the struct temporaries are those of the allocations. */
  lemma SlotsAhead(fn: Function)
    ensures var n := |StructTmps(fn.tmpTypes, 0)|;
            n <= |Slots(fn)| && Slots(fn)[n..] == SAllocs(Flatten(fn.blocks))
  {
  }

  method LayOutAllocations(fn: Function, end: nat, offsets: seq<int>) returns (frameSize: nat, tmpOffsets: seq<int>)
    requires LaidOut(fn, |StructTmps(fn.tmpTypes, 0)|, end, offsets)
    ensures frameSize == FrameSize(fn) && tmpOffsets == SlotOffsets(fn, |Slots(fn)|)
  {
    hide LaidOut, Slots, SAllocs, SAllocSize, IsSAlloc, FrameSize, SlotOffsets, AlignUp, StructTmps;
    var offset := end;
    tmpOffsets := offsets;
    ghost var n: nat, ahead := |StructTmps(fn.tmpTypes, 0)|, Flatten(fn.blocks);
    SlotsAhead(fn);
    for b := 0 to |fn.blocks|
      invariant ahead == Flatten(fn.blocks[b..])
      invariant n <= |Slots(fn)| && Slots(fn)[n..] == SAllocs(ahead)
      invariant LaidOut(fn, n, offset, tmpOffsets)
    {
      var instrs := fn.blocks[b].instrs;
      ghost var later := Flatten(fn.blocks[b + 1..]);
      assert fn.blocks[b..][1..] == fn.blocks[b + 1..];
      for j := 0 to |instrs|
        invariant ahead == instrs[j..] + later
        invariant n <= |Slots(fn)| && Slots(fn)[n..] == SAllocs(ahead)
        invariant LaidOut(fn, n, offset, tmpOffsets)
      {
        AllocationSlot(fn, ahead, n);
        assert ahead[0] == instrs[j] && ahead[1..] == instrs[j + 1..] + later;
        if IsSAlloc(instrs[j]) {
          offset, tmpOffsets := AddAllocation(fn, instrs[j], n, offset, tmpOffsets);
          n := n + 1;
        }
        ahead := ahead[1..];
      }
    }
    frameSize := AlignUp(offset, 8);
    EndOfLayout(fn, n, offset, tmpOffsets);
  }

  method AddAllocation(fn: Function, ins: Instr, ghost n: nat, end: nat, offsets: seq<int>) returns (offset: nat, tmpOffsets: seq<int>)
    requires IsSAlloc(ins) && LaidOut(fn, n, end, offsets)
    requires n < |Slots(fn)| && Slots(fn)[n] == (ins.dest, SAllocSize(ins))
    ensures LaidOut(fn, n + 1, offset, tmpOffsets)
  {
    NextSlot(fn, n, end, offsets, ins.dest, SAllocSize(ins));
    offset := AlignUp(end, 8);
    tmpOffsets := SetSlot(offsets, ins.dest, offset);
    offset := offset + SAllocSize(ins);
  }

  lemma EndOfLayout(fn: Function, n: nat, offset: nat, tmpOffsets: seq<int>)
    requires LaidOut(fn, n, offset, tmpOffsets) && n <= |Slots(fn)| && Slots(fn)[n..] == SAllocs([])
    ensures AlignUp(offset, 8) == FrameSize(fn) && tmpOffsets == SlotOffsets(fn, |Slots(fn)|)
  {
    hide Slots;
    assert |Slots(fn)[n..]| == |Slots(fn)| - n;
  }

  method CollectArgs(fn: Function, localOffsets: seq<nat>) returns (argOffsets: seq<nat>, argTypes: seq<Type>)
    requires ValidArgs(fn) && localOffsets == LocalOffsets(fn)
    ensures argOffsets == ArgOffsets(fn) && argTypes == ArgTypes(fn)
  {
    argOffsets, argTypes := [], [];
    for i := 0 to |fn.argLocals|
      invariant argOffsets == ArgOffsets(fn)[..i] && argTypes == ArgTypes(fn)[..i]
    {
      argOffsets := argOffsets + [localOffsets[fn.argLocals[i]]];
      argTypes := argTypes + [fn.localTypes[fn.argLocals[i]]];
    }
  }

  // ---------- code ----------

  lemma CompileSnoc(p: Program, fn: Function, lay: Layout, code: seq<Instr>, ins: Instr)
    ensures CompileCode(p, fn, lay, code + [ins]) ==
            if CompileCode(p, fn, lay, code).Some? && InstrToVm(p, fn, lay, ins).Some?
            then Some(CompileCode(p, fn, lay, code).value + [InstrToVm(p, fn, lay, ins).value]) else None
  {
    hide InstrToVm;
    assert (code + [ins])[..|code + [ins]| - 1] == code;
  }

  /** One instruction that cannot be translated spoils the function. */
  lemma CompileFails(p: Program, fn: Function, lay: Layout, code: seq<Instr>, k: nat)
    requires k < |code| && InstrToVm(p, fn, lay, code[k]).None?
    ensures CompileCode(p, fn, lay, code).None?
  {
    hide InstrToVm;
  }

  method EmitCode(p: Program, fn: Function, lay: Layout) returns (code: Option<seq<VmInstr>>)
    ensures code == CompileCode(p, fn, lay, Flatten(fn.blocks))
  {
    hide InstrToVm, Before;
    var vm: seq<VmInstr> := [];
    for b := 0 to |fn.blocks|
      invariant CompileCode(p, fn, lay, Flatten(fn.blocks[..b])) == Some(vm)
    {
      BeforeEnds(fn.blocks, b);
      for j := 0 to |fn.blocks[b].instrs|
        invariant CompileCode(p, fn, lay, Before(fn.blocks, b, j)) == Some(vm)
      {
        var ins := InstrToVm(p, fn, lay, fn.blocks[b].instrs[j]);
        if ins.None? {
          FrameLayout.FlattenAt(fn.blocks, b, j);
          CompileFails(p, fn, lay, Flatten(fn.blocks), CodeStart(fn.blocks, b) + j);
          return None;
        }
        BeforeNext(fn.blocks, b, j);
        CompileSnoc(p, fn, lay, Before(fn.blocks, b, j), fn.blocks[b].instrs[j]);
        vm := vm + [ins.value];
      }
    }
    assert fn.blocks[..|fn.blocks|] == fn.blocks;
    return Some(vm);
  }

  /** The whole compiler; no result where the original throws. */
  method CompileUltraLow(p: Program, fn: Function) returns (x: Option<ExecFunc>)
    requires ValidArgs(fn)
    ensures x == CompileFunction(p, fn)
  {
    hide CompileCode, MaxDest, MaxWide, LabelPcs, SlotOffsets, ObjectsEnd;
    var labels, maxTmp := LayOutLabels(fn.blocks);
    var end, localOffsets := LayOutLocals(fn);
    var offset, structOffsets, maxWide := LayOutStructTmps(fn, end);
    var frameSize, tmpOffsets := LayOutAllocations(fn, offset, structOffsets);
    var argOffsets, argTypes := CollectArgs(fn, localOffsets);
    var code := EmitCode(p, fn, Layout(labels, localOffsets, tmpOffsets));
    if code.None? { return None; }
    return Some(ExecFunc(code.value, maxTmp, maxWide, frameSize, |fn.argLocals|, argOffsets, argTypes, fn.tmpTypes, tmpOffsets));
  }
}
