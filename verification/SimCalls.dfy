/**
 Calls and returns: spilling the register file and entering a zeroed frame on one side,
 allocating fresh objects on the other; reloading and cutting off against releasing.
 */
module SimCalls {
  import opened Words
  import opened Types
  import opened Ir
  import IM = IrMachine
  import opened VmMachine
  import opened VmCompiler
  import opened FrameLayout
  import opened SimValues
  import opened SimEffects
  import opened Simulation

  // ---------- the save area ----------

  lemma MiddleBytes(a: seq<Byte>, b: seq<Byte>, c: seq<Byte>, all: seq<Byte>, start: nat, end: nat)
    requires all == a + b + c && start == |a| && end == |a| + |b|
    ensures end <= |all| && all[start..end] == b
  {
  }

  lemma {:induction false} SpilledRegs(stack: seq<Byte>, regs: seq<Word>, tail: seq<Byte>, all: seq<Byte>)
    requires all == stack + RegBytes(regs) + tail
    ensures |stack| + 8 * |regs| <= |all|
    ensures LoadRegs(all, |stack|, |regs|) == regs
    decreases |regs|
  {
    if regs != [] {
      var first, rest := ToBytes(regs[0], 8), RegBytes(regs[1..]);
      MiddleBytes(stack, first, rest + tail, all, |stack|, |stack| + 8);
      WordRoundTrip(regs[0]);
      assert all == (stack + first) + rest + tail;
      SpilledRegs(stack + first, regs[1..], tail, all);
    }
  }

  lemma {:induction false} SpilledRegs128(stack: seq<Byte>, regs: seq<Quad>, tail: seq<Byte>, all: seq<Byte>)
    requires all == stack + Reg128Bytes(regs) + tail
    ensures |stack| + 16 * |regs| <= |all|
    ensures LoadRegs128(all, |stack|, |regs|) == regs
    decreases |regs|
  {
    if regs != [] {
      var first, rest := ToBytes(regs[0], 16), Reg128Bytes(regs[1..]);
      MiddleBytes(stack, first, rest + tail, all, |stack|, |stack| + 16);
      QuadRoundTrip(regs[0]);
      assert all == (stack + first) + rest + tail;
      SpilledRegs128(stack + first, regs[1..], tail, all);
    }
  }

  /** Spilling both register files at a call and reloading them restores every register. */
  lemma SpillReload(stack: seq<Byte>, regs: seq<Word>, regs128: seq<Quad>, frameSize: nat)
    ensures var all := CalleeStack(stack, regs, regs128, frameSize);
            LoadRegs(all, |stack|, |regs|) == regs &&
            LoadRegs128(all, |stack| + 8 * |regs|, |regs128|) == regs128
  {
    var all := CalleeStack(stack, regs, regs128, frameSize);
    var tail := Reg128Bytes(regs128) + Zeros(frameSize);
    assert all == stack + RegBytes(regs) + tail;
    SpilledRegs(stack, regs, tail, all);
    var front := stack + RegBytes(regs);
    assert all == front + Reg128Bytes(regs128) + Zeros(frameSize);
    SpilledRegs128(front, regs128, Zeros(frameSize), all);
  }

  /** The same with anything behind the save area. */
  lemma Respilled(stack: seq<Byte>, regs: seq<Word>, regs128: seq<Quad>, tail: seq<Byte>)
    ensures var all, start := CalleeStack(stack, regs, regs128, 0) + tail, |stack|;
            LoadRegs(all, start, |regs|) == regs &&
            LoadRegs128(all, start + 8 * |regs|, |regs128|) == regs128 &&
            all[..start] == stack
  {
    hide LoadRegs, LoadRegs128, RegBytes, Reg128Bytes;
    var all, front := CalleeStack(stack, regs, regs128, 0) + tail, stack + RegBytes(regs);
    ThreeParts(stack, RegBytes(regs), Reg128Bytes(regs128), Zeros(0), tail);
    SpilledRegs(stack, regs, Reg128Bytes(regs128) + tail, all);
    SpilledRegs128(front, regs128, tail, all);
  }

  lemma ThreeParts(a: seq<Byte>, b: seq<Byte>, c: seq<Byte>, none: seq<Byte>, d: seq<Byte>)
    requires none == []
    ensures a + b + c + none + d == a + b + (c + d) && a + b + c + none + d == a + b + c + d
    ensures (a + b + c + none + d)[..|a|] == a
  {
    assert a + b + c + none == a + b + c;
    assert a + b + c + d == a + (b + c + d);
  }

  lemma CalleeStackParts(stack: seq<Byte>, regs: seq<Word>, regs128: seq<Quad>, frameSize: nat)
    ensures var all := CalleeStack(stack, regs, regs128, frameSize);
            var base := |stack| + 8 * |regs| + 16 * |regs128|;
            |all| == base + frameSize &&
            (forall a :: 0 <= a < |stack| ==> all[a] == stack[a]) &&
            (forall a :: base <= a < |all| ==> all[a] == 0)
  {
  }

  // ---------- entering a function ----------

  /** The place the compiled call gives to the callee's objects. */
  function CallBase(v: VmEnv, st: VmState): nat
    requires st.top.fn < |v.execs|
  {
    |st.stack| + SaveSize(v.execs[st.top.fn])
  }

  lemma PlacementFits(e: IM.Env, v: VmEnv, s: IM.State, st: VmState, callee: nat)
    requires Compiled(e, v) && StackOk(e, v, s, st) && callee < |v.execs|
    requires CallBase(v, st) + v.execs[callee].frameSize <= MAX_STACK_SIZE
    ensures IM.Fits(s.mem, e.prog.functions[callee], PlaceAt(e.prog.functions[callee], CallBase(v, st)))
  {
    var fn, base := e.prog.functions[callee], CallBase(v, st);
    FrameSizeOf(e, v, callee);
    FrameLayoutSound(Objects(fn), base);
    forall a | a in s.mem
      ensures !Owned(Objects(fn), PlaceAt(fn, base), a)
    {
      if Owned(Objects(fn), PlaceAt(fn, base), a) { OwnedInFrame(fn, base, a); }
    }
  }

  ghost function Entered(e: IM.Env, s: IM.State, callee: nat, dst: int, base: nat): IM.State
    requires callee < |e.prog.functions|
  {
    var fn := e.prog.functions[callee];
    IM.State(IM.Frame(callee, 0, 0, map[], PlaceAt(fn, base), dst), IM.Push(s.top, s.rest),
             IM.Allocate(s.mem, Objects(fn), PlaceAt(fn, base)), s.globals, s.args)
  }

  function EnteredVm(v: VmEnv, st: VmState, callee: nat, dst: int): VmState
    requires callee < |v.execs| && st.top.fn < |v.execs|
  {
    var x := v.execs[callee];
    VmState(Resize(st.regs, UsedRegs(x), 0), Resize([], Used128Regs(x), 0),
            CalleeStack(st.stack, st.regs, st.regs128, x.frameSize), st.globals, st.args, st.args128,
            VmFrame(callee, CallBase(v, st), 0), IM.Push(st.top, st.rest), IM.Push(dst, st.links))
  }

  lemma BelowUnchanged(e: IM.Env, v: VmEnv, s: IM.State, st: VmState, stack': seq<Byte>)
    requires Compiled(e, v) && StackOk(e, v, s, st)
    requires |st.stack| <= |stack'| && forall a :: 0 <= a < |st.stack| ==> stack'[a] == st.stack[a]
    ensures Suspended(e, v, s.rest, st.rest, st.links, s.top.dst, stack', st.top.base)
  {
    forall a: nat | InSaveArea(v, st.rest, a)
      ensures a < |stack'| && a < |st.stack| && stack'[a] == st.stack[a]
    {
      LiveNotSaved(e, v, s, st, a);
    }
    assert SameSaves(v, st.rest, st.stack, stack');
    SuspendedFrame(e, v, s.rest, st.rest, st.links, s.top.dst, st.stack, stack', st.top.base);
  }

  lemma CallerSaved(v: VmEnv, s: IM.State, st: VmState, frameSize: nat)
    requires RegFileOk(v, s, st)
    ensures Saved(s.top.tmps, CalleeStack(st.stack, st.regs, st.regs128, frameSize), |st.stack|, v.execs[st.top.fn])
  {
    SpillReload(st.stack, st.regs, st.regs128, frameSize);
  }

  lemma CallerSuspended(e: IM.Env, v: VmEnv, f: IM.Frame, rest: IM.Stack<IM.Frame>, vf: VmFrame, vrest: IM.Stack<VmFrame>,
                        links: IM.Stack<int>, stack': seq<Byte>, start: nat, dst: int)
    requires FrameOk(e, f, vf) && vf.fn < |v.execs| && dst <= v.execs[vf.fn].maxTmp
    requires start == vf.base + v.execs[vf.fn].frameSize
    requires Saved(f.tmps, stack', start, v.execs[vf.fn])
    requires Suspended(e, v, rest, vrest, links, f.dst, stack', vf.base)
    ensures Suspended(e, v, IM.Push(f, rest), IM.Push(vf, vrest), IM.Push(dst, links), dst,
                      stack', start + SaveSize(v.execs[vf.fn]))
  {
  }

  lemma AllocateSim(e: IM.Env, v: VmEnv, s: IM.State, st: VmState, callee: nat)
    requires Compiled(e, v) && StackOk(e, v, s, st) && RegFileOk(v, s, st) && callee < |v.execs|
    ensures var fn := e.prog.functions[callee];
            MemOk(IM.Allocate(s.mem, Objects(fn), PlaceAt(fn, CallBase(v, st))),
                  CalleeStack(st.stack, st.regs, st.regs128, v.execs[callee].frameSize))
  {
    var fn, base := e.prog.functions[callee], CallBase(v, st);
    var mem' := IM.Allocate(s.mem, Objects(fn), PlaceAt(fn, base));
    FrameSizeOf(e, v, callee);
    CalleeStackParts(st.stack, st.regs, st.regs128, v.execs[callee].frameSize);
    forall a | a in mem'
      ensures a < |st.stack| + SaveSize(v.execs[st.top.fn]) + v.execs[callee].frameSize &&
              CalleeStack(st.stack, st.regs, st.regs128, v.execs[callee].frameSize)[a] == mem'[a]
    {
      if Owned(Objects(fn), PlaceAt(fn, base), a) { OwnedInFrame(fn, base, a); }
    }
  }

  lemma EnterSim(e: IM.Env, v: VmEnv, s: IM.State, st: VmState, callee: nat, dst: int)
    requires Compiled(e, v) && StackOk(e, v, s, st) && RegFileOk(v, s, st) && callee < |v.execs|
    requires dst <= v.execs[st.top.fn].maxTmp
    requires CallBase(v, st) + v.execs[callee].frameSize <= MAX_STACK_SIZE
    ensures StackOk(e, v, Entered(e, s, callee, dst, CallBase(v, st)), EnteredVm(v, st, callee, dst))
    ensures RegFileOk(v, Entered(e, s, callee, dst, CallBase(v, st)), EnteredVm(v, st, callee, dst))
  {
    var s', st' := Entered(e, s, callee, dst, CallBase(v, st)), EnteredVm(v, st, callee, dst);
    CalleeStackParts(st.stack, st.regs, st.regs128, v.execs[callee].frameSize);
    CallerSaved(v, s, st, v.execs[callee].frameSize);
    BelowUnchanged(e, v, s, st, st'.stack);
    CallerSuspended(e, v, s.top, s.rest, st.top, st.rest, st.links, st'.stack, |st.stack|, dst);
    AllocateSim(e, v, s, st, callee);
    assert FrameOk(e, s'.top, st'.top);
    EnteredAttributed(e, s, callee, dst, CallBase(v, st));
    hide Suspended, MemOk, Attributed, Saved, CalleeStack, RegsOk;
  }

  /** The new frame owns what is allocated for it; the rest is owned as before. */
  lemma EnteredAttributed(e: IM.Env, s: IM.State, callee: nat, dst: int, base: nat)
    requires callee < |e.prog.functions| && Attributed(e, s.top, s.rest, s.mem)
    ensures var s' := Entered(e, s, callee, dst, base);
            Attributed(e, s'.top, s'.rest, s'.mem)
  {
    var s' := Entered(e, s, callee, dst, base);
    assert forall a :: a in s'.mem ==> OwnedBy(e, s'.top, a) || a in s.mem;
  }

  // ---------- arguments ----------

  lemma WideSize(t: Type)
    ensures !t.Struct? && t != NoType ==> (SizeInBytes(t) == 16 <==> Is128(t))
  {
  }

  lemma ArgPlace(e: IM.Env, v: VmEnv, i: nat, k: nat, base: nat)
    requires Compiled(e, v) && i < |v.execs| && k < |e.prog.functions[i].argLocals|
    ensures var fn, x := e.prog.functions[i], v.execs[i];
            var l := fn.argLocals[k];
            0 <= l < |fn.localTypes| && l < |PlaceAt(fn, base)| &&
            k < |x.argOffsets| && k < |x.argTypes| && x.argCount == |fn.argLocals| &&
            base + x.argOffsets[k] == PlaceAt(fn, base)[l] && x.argTypes[k] == fn.localTypes[l]
  {
    assert CompiledAt(e, v, i);
  }

  /** Both sides copy an argument by writing the same bytes at the same address. */
  lemma BindArgWrites(mem: Memory, stack: seq<Byte>, x: ExecFunc, base: nat, k: nat, t: Type, at: nat, val: Val, w: Word, q: Quad)
    returns (bytes: seq<Byte>)
    requires MemOk(mem, stack) && ArgOk(val, w, q)
    requires k < |x.argOffsets| && k < |x.argTypes| && base + x.argOffsets[k] == at && x.argTypes[k] == t
    requires IM.BindArg(t, at, val, mem).Some?
    ensures InMem(mem, at, |bytes|) && IM.BindArg(t, at, val, mem) == Some(WriteMem(mem, at, bytes))
    ensures CopyArg(stack, base, x, k, w, Some(q)) == Poke(stack, at, bytes)
  {
    WideSize(t);
    if t.Struct? {
      var n := SizeInBytes(t);
      PeekSim(mem, stack, val.w, n);
      bytes := ReadMem(mem, val.w, n);
    } else if Is128(t) {
      bytes := ToBytes(q, 16);
    } else {
      bytes := ToBytes(w, 8);
    }
  }

  lemma BindOneSim(e: IM.Env, v: VmEnv, s: IM.State, st: VmState, k: nat)
    requires Compiled(e, v) && StackOk(e, v, s, st)
    requires ArgsOk(s.args, st.args, st.args128) && k < |s.args| <= |e.prog.functions[s.top.fn].argLocals|
    requires var fn := e.prog.functions[s.top.fn];
             0 <= fn.argLocals[k] < |fn.localTypes| && fn.argLocals[k] < |s.top.place|
    requires var fn := e.prog.functions[s.top.fn];
             IM.BindArg(fn.localTypes[fn.argLocals[k]], s.top.place[fn.argLocals[k]], s.args[k], s.mem).Some?
    ensures var fn, x := e.prog.functions[s.top.fn], v.execs[st.top.fn];
            var copied := CopyArg(st.stack, st.top.base, x, k, st.args[k], Some(st.args128[k]));
            copied.Some? &&
            SameSaves(v, st.rest, st.stack, copied.value) &&
            StackOk(e, v, s.(mem := IM.BindArg(fn.localTypes[fn.argLocals[k]], s.top.place[fn.argLocals[k]], s.args[k], s.mem).value),
                    st.(stack := copied.value))
  {
    var i, base := st.top.fn, st.top.base;
    var fn, x := e.prog.functions[i], v.execs[i];
    ArgPlace(e, v, i, k, base);
    var l := fn.argLocals[k];
    assert ArgOk(s.args[k], st.args[k], st.args128[k]);
    var bytes := BindArgWrites(s.mem, st.stack, x, base, k, fn.localTypes[l], s.top.place[l], s.args[k], st.args[k], st.args128[k]);
    WriteSim(e, v, s, st, s.top.place[l], bytes);
  }

  lemma BindUnfold(fn: Function, place: Placement, args: seq<Val>, n: nat, mem: Memory)
    requires 0 < n <= |args| <= |fn.argLocals| && IM.BindArgs(fn, place, args, n, mem).Some?
    ensures IM.BindArgs(fn, place, args, n - 1, mem).Some?
    ensures var l := fn.argLocals[n - 1];
            0 <= l < |fn.localTypes| && l < |place| &&
            IM.BindArg(fn.localTypes[l], place[l], args[n - 1], IM.BindArgs(fn, place, args, n - 1, mem).value)
              == IM.BindArgs(fn, place, args, n, mem)
  {
  }

  lemma CopyUnfold(stack: seq<Byte>, base: nat, x: ExecFunc, args: seq<Word>, args128: seq<Quad>, n: nat)
    requires 0 < n <= |args| == |args128| && CopyArgs(stack, base, x, args, args128, n - 1).Some?
    ensures CopyArgs(stack, base, x, args, args128, n) ==
            CopyArg(CopyArgs(stack, base, x, args, args128, n - 1).value, base, x, n - 1, args[n - 1], Some(args128[n - 1]))
  {
  }

  lemma TopIndices(e: IM.Env, v: VmEnv, s: IM.State, st: VmState)
    requires StackOk(e, v, s, st)
    ensures s.top.fn == st.top.fn && s.top.fn < |e.prog.functions| && st.top.fn < |v.execs|
  {
  }

  ghost predicate BoundSim(e: IM.Env, v: VmEnv, s: IM.State, st: VmState, mem: Option<Memory>, stack: Option<seq<Byte>>) {
    mem.Some? ==> stack.Some? && StackOk(e, v, s.(mem := mem.value), st.(stack := stack.value)) &&
                  SameSaves(v, st.rest, st.stack, stack.value)
  }

  lemma {:induction false} BindArgsSim(e: IM.Env, v: VmEnv, s: IM.State, st: VmState, n: nat)
    requires Compiled(e, v) && StackOk(e, v, s, st)
    requires ArgsOk(s.args, st.args, st.args128)
    requires n <= |s.args| <= |e.prog.functions[s.top.fn].argLocals|
    ensures BoundSim(e, v, s, st, IM.BindArgs(e.prog.functions[s.top.fn], s.top.place, s.args, n, s.mem),
                     CopyArgs(st.stack, st.top.base, v.execs[st.top.fn], st.args, st.args128, n))
    decreases n
  {
    hide StackOk, Compiled, CopyArg, IM.BindArg, InSaveArea;
    TopIndices(e, v, s, st);
    var fn, x := e.prog.functions[s.top.fn], v.execs[st.top.fn];
    if n > 0 && IM.BindArgs(fn, s.top.place, s.args, n, s.mem).Some? {
      BindUnfold(fn, s.top.place, s.args, n, s.mem);
      BindArgsSim(e, v, s, st, n - 1);
      CopyUnfold(st.stack, st.top.base, x, st.args, st.args128, n);
      BindOneSim(e, v, s.(mem := IM.BindArgs(fn, s.top.place, s.args, n - 1, s.mem).value),
                 st.(stack := CopyArgs(st.stack, st.top.base, x, st.args, st.args128, n - 1).value), n - 1);
    } else {
      SavesKept(e, v, s, st);
    }
  }

  // ---------- the call ----------

  lemma CallForm(v: VmEnv, st: VmState, callee: nat, dst: int)
    requires callee < |v.execs| && st.top.fn < |v.execs|
    requires |st.regs| == UsedRegs(v.execs[st.top.fn]) && |st.regs128| == Used128Regs(v.execs[st.top.fn])
    ensures var x, st1 := v.execs[callee], EnteredVm(v, st, callee, dst);
            ApplyCall(v, st, callee, dst) ==
              if |st.args| > x.argCount then VCrash
              else if |st1.stack| > MAX_STACK_SIZE then VOverflow
              else match CopyArgs(st1.stack, st1.top.base, x, st.args, st.args128, |st.args|)
                   case None => VCrash
                   case Some(s) => VNext(st1.(stack := s, args := [], args128 := []))
  {
    assert st.regs[..UsedRegs(v.execs[st.top.fn])] == st.regs;
  }

  lemma InvokeForm(e: IM.Env, s: IM.State, callee: nat, dst: int, base: nat)
    requires callee < |e.prog.functions|
    requires IM.Fits(s.mem, e.prog.functions[callee], PlaceAt(e.prog.functions[callee], base))
    ensures var fn, s1 := e.prog.functions[callee], Entered(e, s, callee, dst, base);
            IM.ApplyInvoke(e, s, callee, dst, PlaceAt(fn, base)) ==
              if |s.args| > |fn.argLocals| then IM.Stuck
              else match IM.BindArgs(fn, s1.top.place, s.args, |s.args|, s1.mem)
                   case None => IM.Stuck
                   case Some(m) => IM.Next(s1.(mem := m, args := []))
  {
  }

  lemma BoundRelated(e: IM.Env, v: VmEnv, s: IM.State, st: VmState)
    requires Compiled(e, v) && StackOk(e, v, s, st) && RegFileOk(v, s, st)
    requires GlobalsOk(s.globals, st.globals) && ArgsOk(s.args, st.args, st.args128)
    requires |s.args| <= |e.prog.functions[s.top.fn].argLocals|
    requires IM.BindArgs(e.prog.functions[s.top.fn], s.top.place, s.args, |s.args|, s.mem).Some?
    ensures var copied := CopyArgs(st.stack, st.top.base, v.execs[st.top.fn], st.args, st.args128, |st.args|);
            copied.Some? && SameSaves(v, st.rest, st.stack, copied.value) &&
            Related(e, v, s.(mem := IM.BindArgs(e.prog.functions[s.top.fn], s.top.place, s.args, |s.args|, s.mem).value, args := []),
                    st.(stack := copied.value, args := [], args128 := []))
  {
    BindArgsSim(e, v, s, st, |s.args|);
  }

  /** A call that does not overflow the stack enters the callee as the IR does, objects placed in the new frame. */
  lemma InvokeSim(e: IM.Env, v: VmEnv, s: IM.State, st: VmState, callee: nat, dst: int)
    requires Compiled(e, v) && Related(e, v, s, st) && callee < |v.execs|
    requires dst <= v.execs[st.top.fn].maxTmp
    requires |s.args| <= |e.prog.functions[callee].argLocals|
    requires ApplyCall(v, st, callee, dst) != VOverflow
    ensures IM.Fits(s.mem, e.prog.functions[callee], PlaceAt(e.prog.functions[callee], CallBase(v, st)))
    ensures var next := IM.ApplyInvoke(e, s, callee, dst, PlaceAt(e.prog.functions[callee], CallBase(v, st)));
            !next.Done? &&
            (next.Next? ==> ApplyCall(v, st, callee, dst).VNext? &&
                            SameSaves(v, IM.Push(st.top, st.rest), EnteredVm(v, st, callee, dst).stack,
                                      ApplyCall(v, st, callee, dst).state.stack) &&
                            Related(e, v, next.state, ApplyCall(v, st, callee, dst).state))
  {
    var fn, x, base := e.prog.functions[callee], v.execs[callee], CallBase(v, st);
    CallForm(v, st, callee, dst);
    FrameSizeOf(e, v, callee);
    CalleeStackParts(st.stack, st.regs, st.regs128, x.frameSize);
    PlacementFits(e, v, s, st, callee);
    InvokeForm(e, s, callee, dst, base);
    if IM.BindArgs(fn, PlaceAt(fn, base), s.args, |s.args|, Entered(e, s, callee, dst, base).mem).Some? {
      EnterSim(e, v, s, st, callee, dst);
      BoundRelated(e, v, Entered(e, s, callee, dst, base), EnteredVm(v, st, callee, dst));
    }
  }
}
