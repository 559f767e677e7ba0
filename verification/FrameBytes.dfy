/**
 What a call does to the bytes below the callee's frame: the frames of all suspended activations.
 They change through addresses that the program has taken, and nowhere else but in the slot of a
 struct result.
 */
module FrameBytes {
  import opened Words
  import opened Types
  import opened Ir
  import IM = IrMachine
  import opened VmMachine
  import opened VmCompiler
  import opened FrameLayout
  import opened SimValues
  import opened SimEffects
  import opened Simulation
  import opened SimCalls
  import opened SimReturns
  import opened CompilerCorrectness
  import opened CallingConvention

  // ---------- bytes that may change ----------

  /** The instructions that write through an address. */
  predicate ThroughAddress(op: VmOp) { op == OMem(VSte) || op == OMem(Ste128) || op == OMem(VCopy) }

  function Fetched(v: VmEnv, st: VmState): Option<VmInstr> {
    if st.top.fn < |v.execs| && st.top.pc < |v.execs[st.top.fn].code| then Some(v.execs[st.top.fn].code[st.top.pc]) else None
  }

  predicate Covers(eff: VmEffect, a: nat) { eff.StoreBytes? && eff.addr <= a < eff.addr + |eff.bytes| }

  /** The next step writes byte `a` through an address. */
  predicate StoresAt(v: VmEnv, st: VmState, a: nat) {
    && Fetched(v, st).Some? && ThroughAddress(Fetched(v, st).value.op)
    && Covers(EffectOf(v.fpu, PastVm(st), Fetched(v, st).value), a)
  }

  /** Byte `a`, which is `b` now, after the next step if that leaves its frame's bytes alone otherwise. */
  function ByteAfter(v: VmEnv, st: VmState, a: nat, b: Byte): Byte {
    if StoresAt(v, st, a)
    then var eff := EffectOf(v.fpu, PastVm(st), Fetched(v, st).value); eff.bytes[a - eff.addr]
    else b
  }

  /** What the writes through an address among the next `n` steps make of it. */
  function Traced(v: VmEnv, st: VmState, n: nat, a: nat, b: Byte): Byte
    decreases n
  {
    if n == 0 || !Step(v, st).VNext? then b else Traced(v, Step(v, st).state, n - 1, a, ByteAfter(v, st, a, b))
  }

  /** One of the next `n` steps writes byte `a` through an address. */
  predicate StoredIn(v: VmEnv, st: VmState, n: nat, a: nat)
    decreases n
  {
    n > 0 && (StoresAt(v, st, a) || (Step(v, st).VNext? && StoredIn(v, Step(v, st).state, n - 1, a)))
  }

  /** The storage of a temporary of struct type. */
  predicate InSlotOf(v: VmEnv, vf: VmFrame, dst: int, a: nat) {
    && vf.fn < |v.execs|
    && var x := v.execs[vf.fn];
    && 0 <= dst < |x.tmpTypes| && x.tmpTypes[dst].Struct? && dst < |x.tmpOffsets| && x.tmpOffsets[dst] >= 0
    && var at := vf.base + x.tmpOffsets[dst];
    && at <= a < at + SizeInBytes(x.tmpTypes[dst])
  }

  // ---------- one step ----------

  /** The first `n` bytes change through an address only. */
  predicate KeptBelow(v: VmEnv, st: VmState, t: VmState, n: nat) {
    n <= |st.stack| && n <= |t.stack| && forall a :: 0 <= a < n ==> t.stack[a] == ByteAfter(v, st, a, st.stack[a])
  }

  /** The whole of a stack that was cut, but for the slot of the result. */
  predicate KeptByReturn(v: VmEnv, st: VmState, t: VmState) {
    && |t.stack| <= |st.stack| && st.links.Push?
    && forall a :: 0 <= a < |t.stack| && !InSlotOf(v, t.top, st.links.top, a) ==> t.stack[a] == ByteAfter(v, st, a, st.stack[a])
  }

  predicate StepKeeps(v: VmEnv, st: VmState, t: VmState) {
    && (Depth(t.rest) == Depth(st.rest) ==> KeptBelow(v, st, t, st.top.base))
    && (Depth(t.rest) > Depth(st.rest) ==> KeptBelow(v, st, t, |st.stack|))
    && (Depth(t.rest) < Depth(st.rest) ==> st.rest.Push? && t.rest == st.rest.rest && KeptByReturn(v, st, t))
  }

  lemma StoreOpcodes(p: Program, fn: Function, lay: Layout, ins: Instr, vins: VmInstr)
    requires InstrToVm(p, fn, lay, ins) == Some(vins)
    ensures ThroughAddress(vins.op) <==> ins.op.Ste? || ins.op.Copy?
  {
    hide TranslateOperands, PlaceOperands, OperandType, TmpType, LocalType;
  }

  /** Other instructions write into variables and reserved areas of their own activation. */
  lemma OwnWrites(e: IM.Env, fn: Function, f: IM.Frame, mem: Memory, globals: seq<Word>, ins: Instr, base: nat)
    requires f.place == PlaceAt(fn, base)
    ensures var ie := IM.EffectOf(e, fn, f, mem, globals, ins);
            (ie.Write? && !ins.op.Ste? && !ins.op.Copy? ==> ie.addr >= base) && (ie.Reserve? ==> ie.addr >= base)
  {
    hide IM.ControlEffect, IM.ValueEffect, IM.LoadEffect, IM.LoadVarEffect, IM.LeaEffect, IM.StoreVarEffect, IM.SAllocEffect,
      IM.StoreEffect, IM.CopyOpEffect;
    if IM.IsMemoryOp(ins.op) {
      if ins.op.Stre? && |ins.operands| == 2 { OwnVariable(e, fn, f, mem, ins.operands[0], ins.operands[1], base); }
      OwnArea(fn, f.place, mem, ins, base);
      if |ins.operands| >= 2 { StoresReserveNothing(e, fn, f.tmps, mem, ins.operands); }
      if |ins.operands| == 1 { LoadsWriteNothing(fn, f, mem, globals, ins, ins.operands[0]); }
    } else {
      ValuesWriteNothing(e, fn, f.tmps, ins);
    }
  }

  lemma OwnVariable(e: IM.Env, fn: Function, f: IM.Frame, mem: Memory, x: Operand, v: Operand, base: nat)
    requires f.place == PlaceAt(fn, base)
    ensures var ie := IM.StoreVarEffect(e, fn, f, mem, x, v);
            (ie.Write? ==> ie.addr >= base) && !ie.Reserve?
  {
    hide ReadMem, InMem;
  }

  lemma OwnArea(fn: Function, place: Placement, mem: Memory, ins: Instr, base: nat)
    requires place == PlaceAt(fn, base)
    ensures var ie := IM.SAllocEffect(fn, place, mem, ins);
            !ie.Write? && (ie.Reserve? ==> ie.addr >= base)
  {
    hide InMem, Position;
  }

  lemma StoresReserveNothing(e: IM.Env, fn: Function, tmps: Tmps, mem: Memory, o: seq<Operand>)
    requires |o| >= 2
    ensures !IM.StoreEffect(e, fn, tmps, mem, o[0], o[1]).Reserve?
    ensures |o| == 3 ==> !IM.CopyOpEffect(tmps, mem, o[0], o[1], o[2]).Reserve?
  {
  }

  lemma LoadsWriteNothing(fn: Function, f: IM.Frame, mem: Memory, globals: seq<Word>, ins: Instr, x: Operand)
    ensures var ie := IM.LoadEffect(TmpType(fn, ins.dest), f.tmps, mem, x, ins.dest); !ie.Write? && !ie.Reserve?
    ensures var ie := IM.LoadVarEffect(fn, f, mem, globals, x, ins.dest); !ie.Write? && !ie.Reserve?
    ensures var ie := IM.LeaEffect(fn, f.place, mem, x, ins.dest); !ie.Write? && !ie.Reserve?
  {
  }

  lemma ValuesWriteNothing(e: IM.Env, fn: Function, tmps: Tmps, ins: Instr)
    ensures var ie := IM.ControlEffect(e, fn, tmps, ins); !ie.Write? && !ie.Reserve?
    ensures var ie := IM.ValueEffect(e, fn, tmps, ins); !ie.Write? && !ie.Reserve?
  {
  }

  /** What a store changes. */
  lemma StoreChanges(v: VmEnv, st: VmState, eff: VmEffect, t: VmState)
    requires Apply(v, st, eff) == VNext(t) && !eff.CallFn? && !eff.ReturnVal? && !eff.ReturnVal128? && !eff.ReturnVoid?
    ensures |t.stack| == |st.stack| && t.rest == st.rest && t.links == st.links && t.top.fn == st.top.fn && t.top.base == st.top.base
    ensures forall a :: 0 <= a < |st.stack| && Covers(eff, a) ==> t.stack[a] == eff.bytes[a - eff.addr]
    ensures forall a :: 0 <= a < |st.stack| && t.stack[a] != st.stack[a] ==>
              Covers(eff, a) || (eff.ZeroAndSet? && eff.addr <= a)
  {
    hide StoreGlobalBytes;
  }

  lemma LocalBytes(e: IM.Env, v: VmEnv, s: IM.State, st: VmState)
    requires Compiled(e, v) && Related(e, v, s, st) && IM.Safe(e, s, 1) && Step(v, st).VNext?
    requires var ie := IM.NextEffect(e, s); !ie.Invoke? && !ie.Return?
    ensures var t := Step(v, st).state;
            t.rest == st.rest && t.top.fn == st.top.fn && KeptBelow(v, st, t, st.top.base)
  {
    hide Compiled, EffectOf, EffectFacts, IM.EffectOf, IM.Apply, Apply, Suspended, MemOk, Attributed, InstrToVm, PlaceAt, IM.Safe;
    NoFault(e, s);
    StepForms(e, v, s, st);
    FetchedEffect(e, v, s, st);
    Fetch(e, v, s.top, st.top);
    var fn, ins := e.prog.functions[s.top.fn], InstrAt(e, s);
    var vins := v.execs[st.top.fn].code[st.top.pc];
    var ie, ve := IM.NextEffect(e, s), EffectOf(v.fpu, PastVm(st), vins);
    StoreOpcodes(e.prog, fn, LayoutOf(fn), ins, vins);
    OwnWrites(e, fn, s.top, s.mem, s.globals, ins, st.top.base);
    StoreChanges(v, PastVm(st), ve, Step(v, st).state);
    forall a | 0 <= a < st.top.base
      ensures Step(v, st).state.stack[a] == ByteAfter(v, st, a, st.stack[a])
    {
      WrittenEffect(fn, ie, ve, st.top.base, a);
    }
  }

  /** An effect that does not write through an address writes above `base`. */
  lemma WrittenEffect(fn: Function, ie: IM.Effect, ve: VmEffect, base: nat, a: nat)
    requires Matches(fn, ie, ve) && !ie.Fault? && a < base
    ensures Covers(ve, a) ==> ie.Write? && ie.addr <= a
    ensures ve.ZeroAndSet? ==> ie.Reserve? && ie.addr == ve.addr
  {
  }

  lemma {:induction false} ArgumentsAbove(stack: seq<Byte>, base: nat, x: ExecFunc, args: seq<Word>, args128: seq<Quad>, n: nat)
    requires n <= |args| && CopyArgs(stack, base, x, args, args128, n).Some?
    ensures var r := CopyArgs(stack, base, x, args, args128, n).value;
            |r| == |stack| && forall a :: 0 <= a < base && a < |stack| ==> r[a] == stack[a]
    decreases n
  {
    if n > 0 { ArgumentsAbove(stack, base, x, args, args128, n - 1); }
  }

  lemma CallBytes(e: IM.Env, v: VmEnv, s: IM.State, st: VmState)
    requires Compiled(e, v) && Related(e, v, s, st) && IM.Safe(e, s, 1) && Step(v, st).VNext?
    requires IM.NextEffect(e, s).Invoke?
    ensures var t := Step(v, st).state;
            t.rest == IM.Push(PastVm(st).top, st.rest) && t.top.fn == IM.NextEffect(e, s).callee && KeptBelow(v, st, t, |st.stack|)
  {
    hide Compiled, EffectOf, EffectFacts, IM.NextEffect, IM.Apply, Suspended, MemOk, Attributed, IM.Safe, CopyArgs, ApplyCall, StoresAt;
    NoFault(e, s);
    StepForms(e, v, s, st);
    FetchedEffect(e, v, s, st);
    EnteredKeeps(v, PastVm(st), IM.NextEffect(e, s).callee, IM.NextEffect(e, s).dst);
    NotItsOwnRest(Step(v, st).state.rest);
    JumpStoresNothing(v, st, Step(v, st).state);
  }

  /** Calls and returns write nothing through an address. */
  lemma JumpStoresNothing(v: VmEnv, st: VmState, t: VmState)
    requires Step(v, st) == VNext(t) && t.rest != st.rest
    ensures forall a :: !StoresAt(v, st, a)
  {
    hide EffectOf, StoreGlobalBytes, ThroughAddress;
    if a :| StoresAt(v, st, a) {
      StoreChanges(v, PastVm(st), EffectOf(v.fpu, PastVm(st), Fetched(v, st).value), t);
    }
  }

  lemma EnteredKeeps(v: VmEnv, st: VmState, c: int, d: int)
    requires ApplyCall(v, st, c, d).VNext?
    ensures var t := ApplyCall(v, st, c, d).state;
            t.rest == IM.Push(st.top, st.rest) && t.top.fn == c && |st.stack| <= |t.stack| &&
            forall a :: 0 <= a < |st.stack| ==> t.stack[a] == st.stack[a]
  {
    hide CopyArgs;
    var x, used := v.execs[c], UsedRegs(v.execs[st.top.fn]);
    var base := |st.stack| + 8 * used + 16 * |st.regs128|;
    ArgumentsAbove(CalleeStack(st.stack, st.regs[..used], st.regs128, x.frameSize), base, x, st.args, st.args128, |st.args|);
  }

  lemma SlotOnly(v: VmEnv, st: VmState, src: Word)
    requires st.rest.Push? && st.links.Push? && st.rest.top.fn < |v.execs|
    requires Materialize(st.stack, st.rest.top.base, v.execs[st.rest.top.fn], st.links.top, src).Some?
    ensures var (stack, _) := Materialize(st.stack, st.rest.top.base, v.execs[st.rest.top.fn], st.links.top, src).value;
            |stack| == |st.stack| &&
            forall a :: 0 <= a < |stack| && !InSlotOf(v, st.rest.top, st.links.top, a) ==> stack[a] == st.stack[a]
  {
  }

  lemma CutKeeps(v: VmEnv, st: VmState, stack: seq<Byte>)
    requires Unwind(v, st.(stack := stack)).Some?
    ensures var t := Unwind(v, st.(stack := stack)).value;
            st.rest.Push? && st.links.Push? && t.rest == st.rest.rest && t.top == st.rest.top && t.stack <= stack
  {
    hide LoadRegs, LoadRegs128;
  }

  /** Cut off, and changed in the slot of the result only. */
  predicate CutDown(v: VmEnv, st: VmState, t: VmState) {
    && |t.stack| <= |st.stack| && st.links.Push?
    && forall a :: 0 <= a < |t.stack| && !InSlotOf(v, t.top, st.links.top, a) ==> t.stack[a] == st.stack[a]
  }

  lemma ReturnKeeps(v: VmEnv, st: VmState, w: Option<Word>, wide: Option<Quad>)
    requires ApplyReturn(v, st, w, wide).VNext?
    ensures var t := ApplyReturn(v, st, w, wide).state;
            st.rest.Push? && t.rest == st.rest.rest && t.top == st.rest.top && CutDown(v, st, t)
  {
    hide Unwind, Materialize, InSlotOf;
    if w.None? {
      CutKeeps(v, st, st.stack);
      assert st.(stack := st.stack) == st;
    } else {
      SlotOnly(v, st, w.value);
      var (stack, _) := Materialize(st.stack, st.rest.top.base, v.execs[st.rest.top.fn], st.links.top, w.value).value;
      CutKeeps(v, st, stack);
    }
  }

  lemma ReturnBytes(e: IM.Env, v: VmEnv, s: IM.State, st: VmState)
    requires Compiled(e, v) && Related(e, v, s, st) && IM.Safe(e, s, 1) && Step(v, st).VNext?
    requires IM.NextEffect(e, s).Return?
    ensures var t := Step(v, st).state;
            st.rest.Push? && t.rest == st.rest.rest && t.top == st.rest.top && KeptByReturn(v, st, t)
  {
    hide Compiled, EffectOf, EffectFacts, IM.NextEffect, IM.Apply, Suspended, MemOk, Attributed, IM.Safe, ApplyReturn, StoresAt, InSlotOf;
    NoFault(e, s);
    StepForms(e, v, s, st);
    FetchedEffect(e, v, s, st);
    var ve, t := EffectOf(v.fpu, PastVm(st), v.execs[st.top.fn].code[st.top.pc]), Step(v, st).state;
    if ve.ReturnVoid? {
      ReturnKeeps(v, PastVm(st), None, None);
    } else if ve.ReturnVal? {
      ReturnKeeps(v, PastVm(st), Some(ve.w), None);
    } else {
      ReturnKeeps(v, PastVm(st), Some(ve.q % TWO64), Some(ve.q));
    }
    assert CutDown(v, PastVm(st), t);
    NotItsOwnRest(st.rest);
    JumpStoresNothing(v, st, Step(v, st).state);
  }

  lemma NotItsOwnRest<T>(s: IM.Stack<T>)
    ensures s.Push? ==> s.rest != s
  {
    assert s.Push? ==> Depth(s.rest) < Depth(s);
  }

  /** Every step keeps the bytes below its frame, unless it writes them through an address or returns a struct. */
  lemma StepBytes(e: IM.Env, v: VmEnv, s: IM.State, st: VmState)
    requires Compiled(e, v) && Related(e, v, s, st) && IM.Safe(e, s, 1) && Step(v, st).VNext?
    ensures StepKeeps(v, st, Step(v, st).state)
  {
    hide Compiled, Related, IM.NextEffect, Step, IM.Safe, KeptBelow, KeptByReturn;
    if IM.NextEffect(e, s).Invoke? {
      CallBytes(e, v, s, st);
    } else if IM.NextEffect(e, s).Return? {
      ReturnBytes(e, v, s, st);
    } else {
      LocalBytes(e, v, s, st);
    }
  }

  // ---------- from a call to its return ----------

  /** Frames lie above each other: `top` is above the frame at the top of `r0`. */
  lemma {:induction false} BaseAbove(e: IM.Env, v: VmEnv, rest: IM.Stack<IM.Frame>, vrest: IM.Stack<VmFrame>, links: IM.Stack<int>,
                                     dst: int, stack: seq<Byte>, top: nat, r0: IM.Stack<VmFrame>, l0: IM.Stack<int>)
    requires Suspended(e, v, rest, vrest, links, dst, stack, top)
    requires Under(vrest, links, r0, l0) && r0.Push? && r0.top.fn < |v.execs|
    ensures r0.top.base + v.execs[r0.top.fn].frameSize <= top
    decreases rest
  {
    if !(vrest == r0 && links == l0) {
      BaseAbove(e, v, rest.rest, vrest.rest, links.rest, rest.top.dst, stack, vrest.top.base, r0, l0);
    }
  }

  lemma WaitingBase(e: IM.Env, v: VmEnv, s: IM.State, st: VmState, st0: VmState, dst: int)
    requires Related(e, v, s, st) && Waiting(v, st0, dst, st) && Sized(v, st0)
    ensures |st0.stack| <= st.top.base <= |st.stack|
  {
    hide FrameOk, Saved, MemOk, Attributed, RegsOk, GlobalsOk, ArgsOk, SameSaves;
    BaseAbove(e, v, s.rest, st.rest, st.links, s.top.dst, st.stack, st.top.base,
              IM.Push(st0.top, st0.rest), IM.Push(dst, st0.links));
  }

  /** The bytes of the caller's stack after the rest of a call. */
  ghost predicate CallKeeps(v: VmEnv, st0: VmState, dst: int, st: VmState, n: nat, t: VmState) {
    && |t.stack| == |st0.stack| <= |st.stack|
    && forall a :: 0 <= a < |st0.stack| && !InSlotOf(v, st0.top, dst, a) ==> t.stack[a] == Traced(v, st, n, a, st.stack[a])
  }

  lemma {:induction false} BytesRun(e: IM.Env, v: VmEnv, s: IM.State, st: VmState, st0: VmState, dst: int, n: nat)
    requires Compiled(e, v) && Related(e, v, s, st) && IM.Safe(e, s, n + 1)
    requires Sized(v, st0) && Waiting(v, st0, dst, st) && ComesBack(v, st, n, Depth(st0.rest))
    ensures Run(v, st, n + 1).VNext? && CallKeeps(v, st0, dst, st, n + 1, Run(v, st, n + 1).state)
    decreases n
  {
    hide Compiled, Related, IM.Step, Step, IM.Admissible, PlaceFor, StepKind, Waiting, Restored, Sized, StepKeeps, StoresAt, InSlotOf,
      CallKeeps;
    SafeStep(e, s, n + 1);
    StepSimulation(e, v, s, st);
    StepKinds(e, v, s, st);
    StepBytes(e, v, s, st);
    WaitingBase(e, v, s, st, st0, dst);
    var t := Step(v, st).state;
    PastWaiting(v, st0, dst, st);
    NotStuck(e, s, PlaceFor(e, v, s, st));
    if n == 0 {
      WaitingBack(v, st0, dst, PastVm(st), t);
      assert Run(v, t, 0) == VNext(t);
      LastKeeps(v, st0, dst, st, t);
    } else {
      WaitingStays(v, st0, dst, PastVm(st), t);
      var s1 := IM.Step(e, s, PlaceFor(e, v, s, st)).state;
      WaitingBase(e, v, s1, t, st0, dst);
      BytesRun(e, v, s1, t, st0, dst, n - 1);
      NextKeeps(v, st0, dst, st, t, n, Run(v, t, n).state);
    }
  }

  lemma LastKeeps(v: VmEnv, st0: VmState, dst: int, st: VmState, t: VmState)
    requires Step(v, st) == VNext(t) && StepKeeps(v, st, t) && Restored(v, st0, dst, t) && Waiting(v, st0, dst, st)
    requires Depth(t.rest) == Depth(st0.rest) && |st0.stack| <= st.top.base <= |st.stack|
    ensures CallKeeps(v, st0, dst, st, 1, t)
  {
    hide Step, StoresAt, InSlotOf, SameSaves, KeptBelow;
    UnderDepth(st.rest, st.links, IM.Push(st0.top, st0.rest), IM.Push(dst, st0.links));
  }

  lemma NextKeeps(v: VmEnv, st0: VmState, dst: int, st: VmState, t: VmState, n: nat, u: VmState)
    requires Step(v, st) == VNext(t) && StepKeeps(v, st, t) && CallKeeps(v, st0, dst, t, n, u)
    requires |st0.stack| <= st.top.base <= |st.stack| && |st0.stack| <= t.top.base <= |t.stack|
    ensures CallKeeps(v, st0, dst, st, n + 1, u)
  {
    hide Step, StoresAt;
    forall a | 0 <= a < |st0.stack| && !InSlotOf(v, st0.top, dst, a)
      ensures u.stack[a] == Traced(v, st, n + 1, a, st.stack[a])
    {
      assert t.stack[a] == ByteAfter(v, st, a, st.stack[a]);
    }
  }

  /** Without such a write nothing changes. */
  lemma {:induction false} TracedSame(v: VmEnv, st: VmState, n: nat, a: nat, b: Byte)
    requires !StoredIn(v, st, n, a)
    ensures Traced(v, st, n, a, b) == b
    decreases n
  {
    hide Step, StoresAt;
    if n > 0 && Step(v, st).VNext? { TracedSame(v, Step(v, st).state, n - 1, a, b); }
  }

  /**
   The frames below a call.  From a call to its return a byte of the stack as it was at the call, so of
   the caller's frame or of any frame below, becomes what the writes through an address in between make
   of it; without one it is as before.  The one exception is the slot of a struct that the call returns.
   Registers, code position, stack size and links come back as well.
   */
  lemma CallKeepsBytes(e: IM.Env, v: VmEnv, s: IM.State, st: VmState, n: nat, a: nat)
    requires Compiled(e, v) && Related(e, v, s, st) && IM.Safe(e, s, n + 2)
    requires Step(v, st).VNext? && Depth(Step(v, st).state.rest) > Depth(st.rest)
    requires ComesBack(v, Step(v, st).state, n, Depth(st.rest))
    requires a < |st.stack|
    ensures var (callee, back) := (Step(v, st).state, Run(v, st, n + 2));
            back.VNext? && callee.links.Push? && Restored(v, PastVm(st), callee.links.top, back.state) &&
            |back.state.stack| == |st.stack| &&
            (!InSlotOf(v, st.top, callee.links.top, a) ==>
               back.state.stack[a] == Traced(v, callee, n + 1, a, st.stack[a]) &&
               (!StoredIn(v, callee, n + 1, a) ==> back.state.stack[a] == st.stack[a]))
  {
    hide Compiled, Related, IM.Step, Step, IM.Admissible, PlaceFor, StepKind, Waiting, Restored, Sized, ComesBack, StoresAt, InSlotOf,
      StoredIn, StepKeeps, Traced;
    SafeStep(e, s, n + 2);
    StepSimulation(e, v, s, st);
    StepKinds(e, v, s, st);
    StepBytes(e, v, s, st);
    NotStuck(e, s, PlaceFor(e, v, s, st));
    var t := Step(v, st).state;
    CalledWaits(v, PastVm(st), t);
    SizedOfRelated(e, v, s, st);
    BytesRun(e, v, IM.Step(e, s, PlaceFor(e, v, s, st)).state, t, PastVm(st), t.links.top, n);
    CallRestoresCaller(e, v, s, st, n);
    SameSlot(v, st, t.links.top, a);
    CallStoresNothing(v, st, t, a);
    if !StoredIn(v, t, n + 1, a) { TracedSame(v, t, n + 1, a, st.stack[a]); }
  }

  lemma SameSlot(v: VmEnv, st: VmState, dst: int, a: nat)
    ensures InSlotOf(v, PastVm(st).top, dst, a) == InSlotOf(v, st.top, dst, a)
  {
  }

  lemma CallStoresNothing(v: VmEnv, st: VmState, t: VmState, a: nat)
    requires StepKeeps(v, st, t) && Depth(t.rest) > Depth(st.rest) && a < |st.stack| && Step(v, st) == VNext(t)
    ensures a < |t.stack| && t.stack[a] == st.stack[a]
  {
    hide Step, StoresAt;
    JumpStoresNothing(v, st, t);
  }

  // ---------- callees that write through no address ----------

  /** The functions call only each other, and none of them writes through an address. */
  ghost predicate Tame(p: Program, fns: set<nat>) {
    forall i, ins :: i in fns && i < |p.functions| && ins in Flatten(p.functions[i].blocks) ==> TameInstr(p, fns, ins)
  }

  predicate TameInstr(p: Program, fns: set<nat>, ins: Instr) {
    && !ins.op.Ste? && !ins.op.Copy?
    && (ins.op.Call? && |ins.operands| == 1 && ins.operands[0].Imm? && ins.operands[0].v in p.symToFunc ==>
          p.symToFunc[ins.operands[0].v] in fns)
  }

  /** All activations above the `d` lowest are of these functions. */
  predicate AllOf(fns: set<nat>, rest: IM.Stack<VmFrame>, d: nat) {
    Depth(rest) > d ==> rest.top.fn in fns && AllOf(fns, rest.rest, d)
  }

  lemma TameStep(e: IM.Env, v: VmEnv, s: IM.State, st: VmState, fns: set<nat>)
    requires Compiled(e, v) && Related(e, v, s, st) && IM.Safe(e, s, 1) && Tame(e.prog, fns) && st.top.fn in fns
    ensures forall a :: !StoresAt(v, st, a)
    ensures IM.NextEffect(e, s).Invoke? ==> IM.NextEffect(e, s).callee in fns
  {
    hide Compiled, EffectOf, EffectFacts, Suspended, MemOk, Attributed, InstrToVm, IM.Safe, Matches, Flatten, TameInstr;
    NoFault(e, s);
    FetchedEffect(e, v, s, st);
    Fetch(e, v, s.top, st.top);
    var fn, ins := e.prog.functions[s.top.fn], InstrAt(e, s);
    FlattenAt(fn.blocks, s.top.block, s.top.idx);
    assert ins == Flatten(fn.blocks)[CodeStart(fn.blocks, s.top.block) + s.top.idx];
    assert TameInstr(e.prog, fns, ins);
    StoreOpcodes(e.prog, fn, LayoutOf(fn), ins, v.execs[st.top.fn].code[st.top.pc]);
    TameInvoke(e, fn, s.top, s.mem, s.globals, fns, ins);
  }

  lemma TameInvoke(e: IM.Env, fn: Function, f: IM.Frame, mem: Memory, globals: seq<Word>, fns: set<nat>, ins: Instr)
    requires TameInstr(e.prog, fns, ins)
    ensures !ins.op.Ste? && !ins.op.Copy?
    ensures var ie := IM.EffectOf(e, fn, f, mem, globals, ins); ie.Invoke? ==> ie.callee in fns
  {
    hide IM.StoreEffect, IM.StoreVarEffect, IM.LoadEffect, IM.LoadVarEffect, IM.LeaEffect, IM.SAllocEffect, IM.CopyOpEffect,
      IM.ValueEffect, IM.BranchEffect, IM.GotoEffect, IM.ArgEffect, IM.RetEffect;
    if IM.IsMemoryOp(ins.op) {
      MemoryInvokesNothing(e, fn, f, mem, globals, ins);
    } else if IM.IsControlOp(ins.op) {
      BranchInvokesNothing(e, fn, f.tmps, ins);
    } else {
      ValueInvokesNothing(e, fn, f.tmps, ins);
    }
  }

  lemma MemoryInvokesNothing(e: IM.Env, fn: Function, f: IM.Frame, mem: Memory, globals: seq<Word>, ins: Instr)
    ensures !IM.MemoryEffect(e, fn, f, mem, globals, ins).Invoke?
  {
  }

  lemma BranchInvokesNothing(e: IM.Env, fn: Function, tmps: Tmps, ins: Instr)
    ensures IM.ControlEffect(e, fn, tmps, ins).Invoke? ==> ins.op.Call? && IM.ControlEffect(e, fn, tmps, ins) == IM.CallEffect(e, ins)
  {
  }

  lemma ValueInvokesNothing(e: IM.Env, fn: Function, tmps: Tmps, ins: Instr)
    ensures !IM.ValueEffect(e, fn, tmps, ins).Invoke?
  {
  }

  /** Whose activations are on the stack after a step. */
  lemma StepFrames(e: IM.Env, v: VmEnv, s: IM.State, st: VmState, fns: set<nat>, d: nat)
    requires Compiled(e, v) && Related(e, v, s, st) && IM.Safe(e, s, 1) && Step(v, st).VNext?
    requires st.top.fn in fns && AllOf(fns, st.rest, d)
    requires IM.NextEffect(e, s).Invoke? ==> IM.NextEffect(e, s).callee in fns
    ensures var t := Step(v, st).state;
            AllOf(fns, t.rest, d) && (Depth(t.rest) >= d ==> t.top.fn in fns)
  {
    hide Compiled, Related, IM.NextEffect, Step, IM.Safe, KeptBelow, KeptByReturn;
    if IM.NextEffect(e, s).Invoke? {
      CallBytes(e, v, s, st);
    } else if IM.NextEffect(e, s).Return? {
      ReturnBytes(e, v, s, st);
    } else {
      LocalBytes(e, v, s, st);
    }
  }

  lemma {:induction false} TameRun(e: IM.Env, v: VmEnv, s: IM.State, st: VmState, fns: set<nat>, n: nat, d: nat, a: nat)
    requires Compiled(e, v) && Related(e, v, s, st) && IM.Safe(e, s, n + 1) && Tame(e.prog, fns)
    requires st.top.fn in fns && AllOf(fns, st.rest, d + 1) && ComesBack(v, st, n, d)
    ensures !StoredIn(v, st, n + 1, a)
    decreases n
  {
    hide Compiled, Related, IM.Step, Step, IM.Admissible, PlaceFor, IM.NextEffect, StoresAt, AllOf, Tame;
    SafeStep(e, s, n + 1);
    StepSimulation(e, v, s, st);
    TameStep(e, v, s, st, fns);
    NotStuck(e, s, PlaceFor(e, v, s, st));
    if n > 0 {
      StepFrames(e, v, s, st, fns, d + 1);
      TameRun(e, v, IM.Step(e, s, PlaceFor(e, v, s, st)).state, Step(v, st).state, fns, n - 1, d, a);
    }
  }

  /**
   A caller can tell: if the called function and all functions that it can reach write through no
   address, every byte of the stack as it was at the call is as before, but for the slot of the result.
   */
  lemma TameCallKeepsFrames(e: IM.Env, v: VmEnv, s: IM.State, st: VmState, fns: set<nat>, n: nat)
    requires Compiled(e, v) && Related(e, v, s, st) && IM.Safe(e, s, n + 2)
    requires Step(v, st).VNext? && Depth(Step(v, st).state.rest) > Depth(st.rest)
    requires ComesBack(v, Step(v, st).state, n, Depth(st.rest))
    requires Tame(e.prog, fns) && Step(v, st).state.top.fn in fns
    ensures var (callee, back) := (Step(v, st).state, Run(v, st, n + 2));
            back.VNext? && callee.links.Push? && |back.state.stack| == |st.stack| &&
            forall a :: 0 <= a < |st.stack| && !InSlotOf(v, st.top, callee.links.top, a) ==>
              back.state.stack[a] == st.stack[a]
  {
    hide Compiled, Related, IM.Step, Step, IM.Admissible, PlaceFor, StepKind, ComesBack, InSlotOf, StoredIn, Tame, Run, Returned, SameSaves,
      Spilled;
    SafeStep(e, s, n + 2);
    StepSimulation(e, v, s, st);
    StepKinds(e, v, s, st);
    NotStuck(e, s, PlaceFor(e, v, s, st));
    var t := Step(v, st).state;
    CallDepth(v, PastVm(st), t, fns);
    CallComesBack(e, v, s, st, n);
    forall a | 0 <= a < |st.stack| && !InSlotOf(v, st.top, t.links.top, a)
      ensures Run(v, st, n + 2).state.stack[a] == st.stack[a]
    {
      CallKeepsBytes(e, v, s, st, n, a);
      TameRun(e, v, IM.Step(e, s, PlaceFor(e, v, s, st)).state, t, fns, n, Depth(st.rest), a);
    }
  }

  lemma CallDepth(v: VmEnv, st: VmState, t: VmState, fns: set<nat>)
    requires StepKind(v, st, t) && Depth(t.rest) > Depth(st.rest)
    ensures t.links.Push? && Depth(t.rest) == Depth(st.rest) + 1
    ensures AllOf(fns, t.rest, Depth(st.rest) + 1)
  {
    hide SameSaves, Spilled, Reloaded;
  }

  lemma CallComesBack(e: IM.Env, v: VmEnv, s: IM.State, st: VmState, n: nat)
    requires Compiled(e, v) && Related(e, v, s, st) && IM.Safe(e, s, n + 2)
    requires Step(v, st).VNext? && Depth(Step(v, st).state.rest) > Depth(st.rest)
    requires ComesBack(v, Step(v, st).state, n, Depth(st.rest))
    ensures Run(v, st, n + 2).VNext? && |Run(v, st, n + 2).state.stack| == |st.stack|
  {
    hide Compiled, Related, Step, Run, ComesBack, IM.Safe, SameSaves;
    CallRestoresCaller(e, v, s, st, n);
  }
}
