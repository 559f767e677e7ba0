/**
 Memory and control instructions: wherever the IR has an effect, the compiled
 instruction has the matching one.
 */
module SimEffects {
  import opened Words
  import opened Types
  import opened Ir
  import IM = IrMachine
  import opened VmMachine
  import opened VmCompiler
  import opened FrameLayout
  import opened OpcodeSelection
  import opened SimValues

  /** Every live byte is on the stack, at its own address. */
  ghost predicate MemOk(mem: Memory, stack: seq<Byte>) {
    forall a :: a in mem ==> a < |stack| && stack[a] == mem[a]
  }

  ghost predicate GlobalsOk(globals: seq<Word>, bytes: seq<Byte>) {
    && |bytes| == 8 * |globals|
    && forall s :: 0 <= s < |globals| ==> WordOf(bytes[s * 8..s * 8 + 8]) == globals[s]
  }

  lemma PeekSim(mem: Memory, stack: seq<Byte>, a: nat, n: nat)
    requires MemOk(mem, stack) && InMem(mem, a, n)
    ensures Peek(stack, a, n) == Some(ReadMem(mem, a, n))
  {
    if n > 0 {
      assert a + n - 1 in mem;
      assert stack[a..a + n] == ReadMem(mem, a, n);
    }
  }

  lemma PokeSim(mem: Memory, stack: seq<Byte>, a: nat, bytes: seq<Byte>)
    requires MemOk(mem, stack) && InMem(mem, a, |bytes|)
    ensures Poke(stack, a, bytes).Some?
    ensures MemOk(WriteMem(mem, a, bytes), Poke(stack, a, bytes).value)
    ensures forall i :: 0 <= i < |stack| && i !in mem ==> Poke(stack, a, bytes).value[i] == stack[i]
  {
    if |bytes| > 0 { assert a + |bytes| - 1 in mem; }
  }

  /** What one activation and the machine state must have in common for its instructions to agree. */
  ghost predicate Agree(fn: Function, f: IM.Frame, mem: Memory, globals: seq<Word>, st: VmState) {
    && DistinctSlots(fn)
    && RegsOk(f.tmps, st.regs, st.regs128)
    && f.place == PlaceAt(fn, st.top.base)
    && MemOk(mem, st.stack)
    && GlobalsOk(globals, st.globals)
    && |st.stack| == st.top.base + FrameSize(fn)
    && |st.stack| <= MAX_STACK_SIZE
  }

  predicate ArgOk(v: Val, w: Word, q: Quad) {
    match v
    case W(x) => w == x && q == QuadOfInt(Signed(W64, x))
    case Q(y) => q == y
  }

  predicate Matches(fn: Function, ie: IM.Effect, ve: VmEffect) {
    match ie
    case Assign(d, v) => ve == RegEffect(d, v)
    case Write(a, bytes) => ve == StoreBytes(a, bytes)
    case Reserve(d, a, n) => ve == ZeroAndSet(d, a, n)
    case SetGlobal(s, w) => ve == StoreSlot(s, w)
    case Goto(b) => b < |fn.blocks| && ve == Jump(CodeStart(fn.blocks, b))
    case PushArg(v) => ve.PushArgs? && ArgOk(v, ve.w, ve.q)
    case Invoke(c, d) => ve == CallFn(c, d)
    case Return(None) => ve == ReturnVoid
    case Return(Some(W(w))) => ve == ReturnVal(w)
    case Return(Some(Q(q))) => ve == ReturnVal128(q)
    case Fault => true
  }

  lemma SmallAddress(st: VmState, a: nat)
    requires a < |st.stack| <= MAX_STACK_SIZE
    ensures WordOfInt(a) == a && a < TWO64
  {
    WordOfSmall(a);
  }

  lemma WordOfSmall(a: nat)
    requires a < TWO64
    ensures WordOfInt(a) == a
  {
  }

  /** A variable's compiled operand is its address. */
  lemma LocalSim(fn: Function, f: IM.Frame, st: VmState, l: int)
    requires f.place == PlaceAt(fn, st.top.base) && 0 <= l < |fn.localTypes|
    ensures l < |f.place|
    ensures TranslateOperand(LayoutOf(fn), Local(l)).Some?
    ensures FrameAddress(st, TranslateOperand(LayoutOf(fn), Local(l)).value) == Some(f.place[l])
  {
  }

  // ---------- operand places ----------

  /** `o` are the operand places of a compiled instruction that is not a value instruction. */
  ghost predicate Placed(lay: Layout, ins: Instr, o: seq<VmOperand>) {
    && |o| == 3
    && (ins.dest >= 0 ==> o[0] == VTmp(ins.dest))
    && (ins.dest >= 0 && |ins.operands| == 1 ==> TranslateOperand(lay, ins.operands[0]) == Some(o[1]))
    && (ins.dest < 0 && |ins.operands| <= 3 ==>
          forall i :: 0 <= i < |ins.operands| ==> TranslateOperand(lay, ins.operands[i]) == Some(o[i]))
  }

  lemma PlacedOk(lay: Layout, ins: Instr)
    requires TranslateOperands(lay, ins.operands).Some?
    ensures Placed(lay, ins, PlaceOperands(ins.dest, TranslateOperands(lay, ins.operands).value))
  {
    var t := TranslateOperands(lay, ins.operands).value;
    forall i | 0 <= i < |ins.operands|
      ensures TranslateOperand(lay, ins.operands[i]) == Some(t[i])
    {
      TranslatedAt(lay, ins.operands, i);
    }
  }

  // ---------- memory instructions ----------
  // In these lemmas `o` are the operand places of the compiled instruction.

  lemma SAllocSim(fn: Function, f: IM.Frame, mem: Memory, globals: seq<Word>, st: VmState, ins: Instr, o: seq<VmOperand>, vins: VmInstr)
    requires Agree(fn, f, mem, globals, st) && |o| == 3 && o[0] == VTmp(ins.dest)
    requires SAllocInstr(LayoutOf(fn), ins, o) == Some(vins)
    ensures Matches(fn, IM.SAllocEffect(fn, f.place, mem, ins), SAllocEffect(st, vins))
    ensures vins.op == OMem(VSAlloc)
  {
    var ie := IM.SAllocEffect(fn, f.place, mem, ins);
    if ie.Reserve? {
      SlotPlace(fn, st.top.base, ins.dest, ie.addr);
      SlotInside(fn, st.top.base, ins.dest, ie.addr);
      if ie.size > 0 { assert ie.addr + ie.size - 1 in mem; }
    }
  }

  lemma SlotInside(fn: Function, base: nat, t: int, at: nat)
    requires IM.SlotAddress(fn, PlaceAt(fn, base), t) == Some(at)
    ensures at <= base + FrameSize(fn)
  {
    ObjectInside(Objects(fn), base, |fn.localTypes| + Position(Slots(fn), t).value);
  }

  lemma SteSim(e: IM.Env, fn: Function, f: IM.Frame, mem: Memory, globals: seq<Word>, st: VmState, ins: Instr, o: seq<VmOperand>, vins: VmInstr)
    requires Agree(fn, f, mem, globals, st) && WideImmsSmall(ins) && ins.op.Ste?
    requires |o| == 3 && |ins.operands| == 2
    requires TranslateOperand(LayoutOf(fn), ins.operands[0]) == Some(o[0])
    requires TranslateOperand(LayoutOf(fn), ins.operands[1]) == Some(o[1])
    requires SteInstr(e.prog, fn, ins, o) == Some(vins)
    ensures vins.op == OMem(VSte) || vins.op == OMem(Ste128)
    ensures Matches(fn, IM.StoreEffect(e, fn, f.tmps, mem, ins.operands[0], ins.operands[1]),
                    if vins.op == OMem(VSte) then SteEffect(st, vins) else Ste128Effect(st, vins))
  {
    var lay, p, v := LayoutOf(fn), ins.operands[0], ins.operands[1];
    assert v in ins.operands;
    if !IM.StoreEffect(e, fn, f.tmps, mem, p, v).Fault? {
      ReadSim64(lay, f.tmps, st.regs, st.regs128, p, o[0]);
      if vins.op == OMem(Ste128) {
        ReadSim128(lay, f.tmps, st.regs, st.regs128, v, o[1]);
      } else {
        ReadSim64(lay, f.tmps, st.regs, st.regs128, v, o[1]);
      }
    }
  }

  lemma LdeSim(fn: Function, f: IM.Frame, mem: Memory, globals: seq<Word>, st: VmState, ins: Instr, o: seq<VmOperand>, vins: VmInstr)
    requires Agree(fn, f, mem, globals, st) && |o| == 3 && o[0] == VTmp(ins.dest) && |ins.operands| == 1
    requires TranslateOperand(LayoutOf(fn), ins.operands[0]) == Some(o[1])
    requires LdeInstr(fn, ins, o) == Some(vins)
    ensures vins.op.OMem?
    ensures Matches(fn, IM.LoadEffect(TmpType(fn, ins.dest), f.tmps, mem, ins.operands[0], ins.dest),
                    MemoryEffect(st, vins.op.mem, vins))
  {
    hide SizeInBytes, PlaceAt, FrameSize, WordOf, QuadOf;
    var lay, p, t := LayoutOf(fn), ins.operands[0], TmpType(fn, ins.dest);
    if !IM.LoadEffect(t, f.tmps, mem, p, ins.dest).Fault? {
      ReadSim64(lay, f.tmps, st.regs, st.regs128, p, o[1]);
      var addr := Read64(f.tmps, p).value;
      PeekSim(mem, st.stack, addr, if Is128(t) then 16 else SizeInBytes(t));
    }
  }

  lemma LeaSim(fn: Function, f: IM.Frame, mem: Memory, globals: seq<Word>, st: VmState, x: Operand, dst: int, o: seq<VmOperand>)
    requires Agree(fn, f, mem, globals, st) && |o| == 3 && o[0] == VTmp(dst)
    requires TranslateOperand(LayoutOf(fn), x) == Some(o[1])
    ensures Matches(fn, IM.LeaEffect(fn, f.place, mem, x, dst), LeaEffect(st, VmInstr(OMem(VLea), o[0], o[1], o[2])))
  {
    if !IM.LeaEffect(fn, f.place, mem, x, dst).Fault? {
      LocalSim(fn, f, st, x.l);
      SmallAddress(st, f.place[x.l]);
    }
  }

  lemma LoadLocalSim(fn: Function, f: IM.Frame, mem: Memory, globals: seq<Word>, st: VmState, l: int, dst: int, o: seq<VmOperand>)
    requires Agree(fn, f, mem, globals, st) && |o| == 3 && o[0] == VTmp(dst)
    requires TranslateOperand(LayoutOf(fn), Local(l)) == Some(o[1])
    requires !IM.LoadVarEffect(fn, f, mem, globals, Local(l), dst).Fault?
    ensures var t := TmpType(fn, dst);
            Matches(fn, IM.LoadVarEffect(fn, f, mem, globals, Local(l), dst),
                    if t.Struct? then LeaEffect(st, VmInstr(OMem(VLea), o[0], o[1], o[2]))
                    else if Is128(t) then Load128Effect(st, VmInstr(OMem(Load128), o[0], o[1], o[2]))
                    else Load64Effect(st, VmInstr(OMem(Load64), o[0], o[1], o[2])))
  {
    var t := TmpType(fn, dst);
    LocalSim(fn, f, st, l);
    var at := f.place[l];
    if t.Struct? {
      SmallAddress(st, at);
    } else {
      PeekSim(mem, st.stack, at, if Is128(t) then 16 else 8);
    }
  }

  lemma LoadSlotSim(fn: Function, f: IM.Frame, mem: Memory, globals: seq<Word>, st: VmState, s: int, dst: int, o: seq<VmOperand>)
    requires Agree(fn, f, mem, globals, st) && |o| == 3 && o[0] == VTmp(dst)
    requires TranslateOperand(LayoutOf(fn), Slot(s)) == Some(o[1])
    requires !IM.LoadVarEffect(fn, f, mem, globals, Slot(s), dst).Fault?
    ensures !TmpType(fn, dst).Struct? && !Is128(TmpType(fn, dst))
    ensures Matches(fn, IM.LoadVarEffect(fn, f, mem, globals, Slot(s), dst),
                    Load64Effect(st, VmInstr(OMem(Load64), o[0], o[1], o[2])))
  {
    assert WordOf(st.globals[s * 8..s * 8 + 8]) == globals[s];
  }

  /** The opcode chosen by the destination type runs the effect of that type. */
  lemma LoadOpcode(fn: Function, ie: IM.Effect, st: VmState, ins: Instr, o: seq<VmOperand>, vins: VmInstr)
    requires |o| == 3 && LoadInstr(fn, ins, o) == Some(vins)
    requires var t := TmpType(fn, ins.dest);
             Matches(fn, ie, if t.Struct? then LeaEffect(st, VmInstr(OMem(VLea), o[0], o[1], o[2]))
                             else if Is128(t) then Load128Effect(st, VmInstr(OMem(Load128), o[0], o[1], o[2]))
                             else Load64Effect(st, VmInstr(OMem(Load64), o[0], o[1], o[2])))
    ensures vins.op.OMem? && Matches(fn, ie, MemoryEffect(st, vins.op.mem, vins))
  {
  }

  lemma LoadSim(fn: Function, f: IM.Frame, mem: Memory, globals: seq<Word>, st: VmState, ins: Instr, o: seq<VmOperand>, vins: VmInstr)
    requires Agree(fn, f, mem, globals, st) && |o| == 3 && o[0] == VTmp(ins.dest) && |ins.operands| == 1
    requires TranslateOperand(LayoutOf(fn), ins.operands[0]) == Some(o[1])
    requires LoadInstr(fn, ins, o) == Some(vins)
    ensures vins.op.OMem?
    ensures Matches(fn, IM.LoadVarEffect(fn, f, mem, globals, ins.operands[0], ins.dest), MemoryEffect(st, vins.op.mem, vins))
  {
    var x := ins.operands[0];
    var ie := IM.LoadVarEffect(fn, f, mem, globals, x, ins.dest);
    if !ie.Fault? {
      if x.Local? {
        LoadLocalSim(fn, f, mem, globals, st, x.l, ins.dest, o);
      } else {
        LoadSlotSim(fn, f, mem, globals, st, x.s, ins.dest, o);
      }
      LoadOpcode(fn, ie, st, ins, o, vins);
    }
  }

  lemma StreSim(e: IM.Env, fn: Function, f: IM.Frame, mem: Memory, globals: seq<Word>, st: VmState, ins: Instr, o: seq<VmOperand>, vins: VmInstr)
    requires Agree(fn, f, mem, globals, st) && WideImmsSmall(ins) && ins.op.Stre?
    requires |o| == 3 && |ins.operands| == 2
    requires TranslateOperand(LayoutOf(fn), ins.operands[0]) == Some(o[0])
    requires TranslateOperand(LayoutOf(fn), ins.operands[1]) == Some(o[1])
    requires StreInstr(e.prog, fn, ins, o) == Some(vins)
    ensures vins.op.OMem?
    ensures Matches(fn, IM.StoreVarEffect(e, fn, f, mem, ins.operands[0], ins.operands[1]), MemoryEffect(st, vins.op.mem, vins))
  {
    hide SizeInBytes, PlaceAt, FrameSize, WordOf, QuadOf;
    var lay, x, v := LayoutOf(fn), ins.operands[0], ins.operands[1];
    assert v in ins.operands;
    if !IM.StoreVarEffect(e, fn, f, mem, x, v).Fault? {
      if vins.op == OMem(Store128) {
        ReadSim128(lay, f.tmps, st.regs, st.regs128, v, o[1]);
      } else {
        ReadSim64(lay, f.tmps, st.regs, st.regs128, v, o[1]);
      }
      if x.Local? {
        LocalSim(fn, f, st, x.l);
        if vins.op == OMem(StructStore) {
          PeekSim(mem, st.stack, Read64(f.tmps, v).value, SizeInBytes(fn.localTypes[x.l]));
          LocalAddressFits(fn, f, st, x.l);
        }
      }
    }
  }

  lemma LocalAddressFits(fn: Function, f: IM.Frame, st: VmState, l: int)
    requires f.place == PlaceAt(fn, st.top.base) && 0 <= l < |fn.localTypes|
    requires |st.stack| == st.top.base + FrameSize(fn) && |st.stack| <= MAX_STACK_SIZE
    ensures f.place[l] <= |st.stack| && WordOfInt(f.place[l]) == f.place[l]
  {
    ObjectInside(Objects(fn), st.top.base, l);
    WordOfSmall(f.place[l]);
  }

  lemma CopySim(fn: Function, f: IM.Frame, mem: Memory, globals: seq<Word>, st: VmState, d: Operand, s: Operand, n: Operand, o: seq<VmOperand>)
    requires Agree(fn, f, mem, globals, st) && |o| == 3
    requires TranslateOperand(LayoutOf(fn), d) == Some(o[0])
    requires TranslateOperand(LayoutOf(fn), s) == Some(o[1])
    requires TranslateOperand(LayoutOf(fn), n) == Some(o[2])
    ensures Matches(fn, IM.CopyOpEffect(f.tmps, mem, d, s, n), CopyEffect(st, VmInstr(OMem(VCopy), o[0], o[1], o[2])))
  {
    if !IM.CopyOpEffect(f.tmps, mem, d, s, n).Fault? {
      var lay := LayoutOf(fn);
      ReadSim64(lay, f.tmps, st.regs, st.regs128, d, o[0]);
      ReadSim64(lay, f.tmps, st.regs, st.regs128, s, o[1]);
      PeekSim(mem, st.stack, Read64(f.tmps, s).value, n.v);
    }
  }

  lemma SAllocCase(e: IM.Env, fn: Function, f: IM.Frame, mem: Memory, globals: seq<Word>, st: VmState, ins: Instr, o: seq<VmOperand>, vins: VmInstr)
    requires Agree(fn, f, mem, globals, st) && ins.op.SAlloc? && WideImmsSmall(ins)
    requires Placed(LayoutOf(fn), ins, o) && MemoryInstr(e.prog, fn, LayoutOf(fn), ins, o) == Some(vins)
    ensures vins.op.OMem?
    ensures Matches(fn, IM.MemoryEffect(e, fn, f, mem, globals, ins), MemoryEffect(st, vins.op.mem, vins))
  {
    SAllocSim(fn, f, mem, globals, st, ins, o, vins);
  }

  lemma SteCase(e: IM.Env, fn: Function, f: IM.Frame, mem: Memory, globals: seq<Word>, st: VmState, ins: Instr, o: seq<VmOperand>, vins: VmInstr)
    requires Agree(fn, f, mem, globals, st) && ins.op.Ste? && WideImmsSmall(ins)
    requires Placed(LayoutOf(fn), ins, o) && MemoryInstr(e.prog, fn, LayoutOf(fn), ins, o) == Some(vins)
    ensures vins.op.OMem?
    ensures Matches(fn, IM.MemoryEffect(e, fn, f, mem, globals, ins), MemoryEffect(st, vins.op.mem, vins))
  {
    if ins.dest < 0 { SteSim(e, fn, f, mem, globals, st, ins, o, vins); }
  }

  lemma LdeCase(e: IM.Env, fn: Function, f: IM.Frame, mem: Memory, globals: seq<Word>, st: VmState, ins: Instr, o: seq<VmOperand>, vins: VmInstr)
    requires Agree(fn, f, mem, globals, st) && ins.op.Lde? && WideImmsSmall(ins)
    requires Placed(LayoutOf(fn), ins, o) && MemoryInstr(e.prog, fn, LayoutOf(fn), ins, o) == Some(vins)
    ensures vins.op.OMem?
    ensures Matches(fn, IM.MemoryEffect(e, fn, f, mem, globals, ins), MemoryEffect(st, vins.op.mem, vins))
  {
    LdeSim(fn, f, mem, globals, st, ins, o, vins);
  }

  lemma LeaCase(e: IM.Env, fn: Function, f: IM.Frame, mem: Memory, globals: seq<Word>, st: VmState, ins: Instr, o: seq<VmOperand>, vins: VmInstr)
    requires Agree(fn, f, mem, globals, st) && ins.op.Lea? && WideImmsSmall(ins)
    requires Placed(LayoutOf(fn), ins, o) && MemoryInstr(e.prog, fn, LayoutOf(fn), ins, o) == Some(vins)
    ensures vins.op.OMem?
    ensures Matches(fn, IM.MemoryEffect(e, fn, f, mem, globals, ins), MemoryEffect(st, vins.op.mem, vins))
  {
    LeaSim(fn, f, mem, globals, st, ins.operands[0], ins.dest, o);
  }

  lemma LoadCase(e: IM.Env, fn: Function, f: IM.Frame, mem: Memory, globals: seq<Word>, st: VmState, ins: Instr, o: seq<VmOperand>, vins: VmInstr)
    requires Agree(fn, f, mem, globals, st) && ins.op.Load? && WideImmsSmall(ins)
    requires Placed(LayoutOf(fn), ins, o) && MemoryInstr(e.prog, fn, LayoutOf(fn), ins, o) == Some(vins)
    ensures vins.op.OMem?
    ensures Matches(fn, IM.MemoryEffect(e, fn, f, mem, globals, ins), MemoryEffect(st, vins.op.mem, vins))
  {
    LoadSim(fn, f, mem, globals, st, ins, o, vins);
  }

  lemma StreCase(e: IM.Env, fn: Function, f: IM.Frame, mem: Memory, globals: seq<Word>, st: VmState, ins: Instr, o: seq<VmOperand>, vins: VmInstr)
    requires Agree(fn, f, mem, globals, st) && ins.op.Stre? && WideImmsSmall(ins)
    requires Placed(LayoutOf(fn), ins, o) && MemoryInstr(e.prog, fn, LayoutOf(fn), ins, o) == Some(vins)
    ensures vins.op.OMem?
    ensures Matches(fn, IM.MemoryEffect(e, fn, f, mem, globals, ins), MemoryEffect(st, vins.op.mem, vins))
  {
    if ins.dest < 0 { StreSim(e, fn, f, mem, globals, st, ins, o, vins); }
  }

  lemma CopyCase(e: IM.Env, fn: Function, f: IM.Frame, mem: Memory, globals: seq<Word>, st: VmState, ins: Instr, o: seq<VmOperand>, vins: VmInstr)
    requires Agree(fn, f, mem, globals, st) && ins.op.Copy? && WideImmsSmall(ins)
    requires Placed(LayoutOf(fn), ins, o) && MemoryInstr(e.prog, fn, LayoutOf(fn), ins, o) == Some(vins)
    ensures vins.op.OMem?
    ensures Matches(fn, IM.MemoryEffect(e, fn, f, mem, globals, ins), MemoryEffect(st, vins.op.mem, vins))
  {
    CopySim(fn, f, mem, globals, st, ins.operands[0], ins.operands[1], ins.operands[2], o);
  }

  lemma MemorySim(e: IM.Env, fn: Function, f: IM.Frame, mem: Memory, globals: seq<Word>, st: VmState, ins: Instr, vins: VmInstr)
    requires Agree(fn, f, mem, globals, st) && IM.IsMemoryOp(ins.op) && WideImmsSmall(ins)
    requires InstrToVm(e.prog, fn, LayoutOf(fn), ins) == Some(vins)
    ensures vins.op.OMem?
    ensures Matches(fn, IM.MemoryEffect(e, fn, f, mem, globals, ins), MemoryEffect(st, vins.op.mem, vins))
  {
    PlacedOk(LayoutOf(fn), ins);
    var o := PlaceOperands(ins.dest, TranslateOperands(LayoutOf(fn), ins.operands).value);
    match ins.op
    case SAlloc => SAllocCase(e, fn, f, mem, globals, st, ins, o, vins);
    case Ste => SteCase(e, fn, f, mem, globals, st, ins, o, vins);
    case Lde => LdeCase(e, fn, f, mem, globals, st, ins, o, vins);
    case Lea => LeaCase(e, fn, f, mem, globals, st, ins, o, vins);
    case Load => LoadCase(e, fn, f, mem, globals, st, ins, o, vins);
    case Stre => StreCase(e, fn, f, mem, globals, st, ins, o, vins);
    case Copy => CopyCase(e, fn, f, mem, globals, st, ins, o, vins);
  }

  // ---------- control instructions ----------

  lemma GotoSim(fn: Function, o: Operand, vo: VmOperand)
    requires DistinctLabels(fn.blocks) && TranslateOperand(LayoutOf(fn), o) == Some(vo) && o.Label?
    ensures vo.VImm? && Matches(fn, IM.GotoEffect(fn, o), Jump(vo.v))
  {
    if IM.GotoEffect(fn, o).Goto? {
      LabelPc(fn.blocks, |fn.blocks|, IM.GotoEffect(fn, o).block);
    }
  }

  lemma BranchSim(fn: Function, f: IM.Frame, mem: Memory, globals: seq<Word>, st: VmState, c: Operand, yes: Operand, no: Operand, o: seq<VmOperand>)
    requires Agree(fn, f, mem, globals, st) && DistinctLabels(fn.blocks) && |o| == 3
    requires TranslateOperand(LayoutOf(fn), c) == Some(o[0])
    requires TranslateOperand(LayoutOf(fn), yes) == Some(o[1])
    requires TranslateOperand(LayoutOf(fn), no) == Some(o[2])
    ensures Matches(fn, IM.BranchEffect(fn, f.tmps, c, yes, no), BranchEffect(st, VmInstr(OCtl(VCmp), o[0], o[1], o[2])))
  {
    if yes.Label? && no.Label? && Read64(f.tmps, c).Some? {
      ReadSim64(LayoutOf(fn), f.tmps, st.regs, st.regs128, c, o[0]);
      GotoSim(fn, yes, o[1]);
      GotoSim(fn, no, o[2]);
    }
  }

  lemma ArgSim(e: IM.Env, fn: Function, f: IM.Frame, mem: Memory, globals: seq<Word>, st: VmState, ins: Instr, o: seq<VmOperand>, vins: VmInstr)
    requires Agree(fn, f, mem, globals, st) && ins.op.Arg? && WideImmsSmall(ins)
    requires |o| == 3 && |ins.operands| == 1 && TranslateOperand(LayoutOf(fn), ins.operands[0]) == Some(o[0])
    requires ArgInstr(e.prog, fn, ins, o) == Some(vins)
    ensures vins.op == OCtl(ArgTmp) || vins.op == OCtl(ArgConst) || vins.op == OCtl(ArgTmp128)
    ensures Matches(fn, IM.ArgEffect(e, fn, f.tmps, ins.operands[0]),
                    if vins.op == OCtl(ArgTmp128) then Arg128Effect(st, vins) else ArgEffect(st, vins))
  {
    var lay, x := LayoutOf(fn), ins.operands[0];
    assert x in ins.operands;
    if x.Imm? {
      SignedOfWord(x.v);
      WideOperandExact(x.v);
    } else if !IM.ArgEffect(e, fn, f.tmps, x).Fault? {
      if vins.op == OCtl(ArgTmp128) {
        ReadSim128(lay, f.tmps, st.regs, st.regs128, x, o[0]);
      } else {
        ReadSim64(lay, f.tmps, st.regs, st.regs128, x, o[0]);
      }
    }
  }

  lemma RetSim(e: IM.Env, fn: Function, f: IM.Frame, mem: Memory, globals: seq<Word>, st: VmState, ins: Instr, o: seq<VmOperand>, vins: VmInstr)
    requires Agree(fn, f, mem, globals, st) && ins.op.Ret? && WideImmsSmall(ins)
    requires |o| == 3 && (|ins.operands| == 1 && ins.dest < 0 ==> TranslateOperand(LayoutOf(fn), ins.operands[0]) == Some(o[0]))
    requires RetInstr(e.prog, fn, ins, o) == Some(vins)
    ensures vins.op == OCtl(RetVoid) || vins.op == OCtl(Ret128) || vins.op == OCtl(VRet)
    ensures Matches(fn, IM.RetEffect(e, fn, f.tmps, ins),
                    if vins.op == OCtl(RetVoid) then ReturnVoid
                    else if vins.op == OCtl(Ret128) then Ret128Effect(st, vins) else RetEffect(st, vins))
  {
    var lay := LayoutOf(fn);
    if !IM.RetEffect(e, fn, f.tmps, ins).Fault? && |ins.operands| == 1 {
      var x := ins.operands[0];
      assert x in ins.operands;
      if vins.op == OCtl(Ret128) {
        ReadSim128(lay, f.tmps, st.regs, st.regs128, x, o[0]);
      } else {
        ReadSim64(lay, f.tmps, st.regs, st.regs128, x, o[0]);
      }
    }
  }

  lemma JmpCase(e: IM.Env, fn: Function, f: IM.Frame, mem: Memory, globals: seq<Word>, st: VmState, ins: Instr, o: seq<VmOperand>, vins: VmInstr)
    requires Agree(fn, f, mem, globals, st) && ins.op.Jmp? && WideImmsSmall(ins) && DistinctLabels(fn.blocks)
    requires Placed(LayoutOf(fn), ins, o) && ControlInstr(e.prog, fn, ins, o) == Some(vins)
    ensures vins.op.OCtl?
    ensures Matches(fn, IM.ControlEffect(e, fn, f.tmps, ins), ControlEffect(st, vins.op.ctl, vins))
  {
    if ins.operands[0].Label? { GotoSim(fn, ins.operands[0], o[0]); }
  }

  lemma CmpCase(e: IM.Env, fn: Function, f: IM.Frame, mem: Memory, globals: seq<Word>, st: VmState, ins: Instr, o: seq<VmOperand>, vins: VmInstr)
    requires Agree(fn, f, mem, globals, st) && ins.op.Cmp? && WideImmsSmall(ins) && DistinctLabels(fn.blocks)
    requires Placed(LayoutOf(fn), ins, o) && ControlInstr(e.prog, fn, ins, o) == Some(vins)
    ensures vins.op.OCtl?
    ensures Matches(fn, IM.ControlEffect(e, fn, f.tmps, ins), ControlEffect(st, vins.op.ctl, vins))
  {
    BranchSim(fn, f, mem, globals, st, ins.operands[0], ins.operands[1], ins.operands[2], o);
  }

  lemma ArgCase(e: IM.Env, fn: Function, f: IM.Frame, mem: Memory, globals: seq<Word>, st: VmState, ins: Instr, o: seq<VmOperand>, vins: VmInstr)
    requires Agree(fn, f, mem, globals, st) && ins.op.Arg? && WideImmsSmall(ins) && DistinctLabels(fn.blocks)
    requires Placed(LayoutOf(fn), ins, o) && ControlInstr(e.prog, fn, ins, o) == Some(vins)
    ensures vins.op.OCtl?
    ensures Matches(fn, IM.ControlEffect(e, fn, f.tmps, ins), ControlEffect(st, vins.op.ctl, vins))
  {
    ArgSim(e, fn, f, mem, globals, st, ins, o, vins);
  }

  lemma CallCase(e: IM.Env, fn: Function, f: IM.Frame, mem: Memory, globals: seq<Word>, st: VmState, ins: Instr, o: seq<VmOperand>, vins: VmInstr)
    requires Agree(fn, f, mem, globals, st) && ins.op.Call? && WideImmsSmall(ins) && DistinctLabels(fn.blocks)
    requires Placed(LayoutOf(fn), ins, o) && ControlInstr(e.prog, fn, ins, o) == Some(vins)
    ensures vins.op.OCtl?
    ensures Matches(fn, IM.ControlEffect(e, fn, f.tmps, ins), ControlEffect(st, vins.op.ctl, vins))
  {
  }

  lemma RetCase(e: IM.Env, fn: Function, f: IM.Frame, mem: Memory, globals: seq<Word>, st: VmState, ins: Instr, o: seq<VmOperand>, vins: VmInstr)
    requires Agree(fn, f, mem, globals, st) && ins.op.Ret? && WideImmsSmall(ins) && DistinctLabels(fn.blocks)
    requires Placed(LayoutOf(fn), ins, o) && ControlInstr(e.prog, fn, ins, o) == Some(vins)
    ensures vins.op.OCtl?
    ensures Matches(fn, IM.ControlEffect(e, fn, f.tmps, ins), ControlEffect(st, vins.op.ctl, vins))
  {
    RetSim(e, fn, f, mem, globals, st, ins, o, vins);
  }

  lemma ControlSim(e: IM.Env, fn: Function, f: IM.Frame, mem: Memory, globals: seq<Word>, st: VmState, ins: Instr, vins: VmInstr)
    requires Agree(fn, f, mem, globals, st) && IM.IsControlOp(ins.op) && WideImmsSmall(ins)
    requires DistinctLabels(fn.blocks)
    requires InstrToVm(e.prog, fn, LayoutOf(fn), ins) == Some(vins)
    ensures vins.op.OCtl?
    ensures Matches(fn, IM.ControlEffect(e, fn, f.tmps, ins), ControlEffect(st, vins.op.ctl, vins))
  {
    PlacedOk(LayoutOf(fn), ins);
    var o := PlaceOperands(ins.dest, TranslateOperands(LayoutOf(fn), ins.operands).value);
    match ins.op
    case Jmp => JmpCase(e, fn, f, mem, globals, st, ins, o, vins);
    case Cmp => CmpCase(e, fn, f, mem, globals, st, ins, o, vins);
    case Arg => ArgCase(e, fn, f, mem, globals, st, ins, o, vins);
    case Call => CallCase(e, fn, f, mem, globals, st, ins, o, vins);
    case Ret => RetCase(e, fn, f, mem, globals, st, ins, o, vins);
  }

  // ---------- every instruction ----------

  /** Wherever the IR instruction has an effect, the bytecode instruction has the same one. */
  lemma EffectSim(e: IM.Env, fn: Function, f: IM.Frame, mem: Memory, globals: seq<Word>, st: VmState, ins: Instr, vins: VmInstr)
    requires Agree(fn, f, mem, globals, st) && WideImmsSmall(ins) && DistinctLabels(fn.blocks)
    requires InstrToVm(e.prog, fn, LayoutOf(fn), ins) == Some(vins)
    ensures Matches(fn, IM.EffectOf(e, fn, f, mem, globals, ins), EffectOf(e.fpu, st, vins))
  {
    if IM.IsMemoryOp(ins.op) {
      MemorySim(e, fn, f, mem, globals, st, ins, vins);
    } else if IM.IsControlOp(ins.op) {
      ControlSim(e, fn, f, mem, globals, st, ins, vins);
    } else if IM.ValueEffect(e, fn, f.tmps, ins).Assign? {
      ValueSim(e, fn, LayoutOf(fn), f.tmps, st.regs, st.regs128, ins, vins);
    }
  }
}
