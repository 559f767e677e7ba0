/**
 The calling convention over whole runs.  Between a call and its return the callee may run
 for any number of steps and call to any depth; the caller's registers come back from the
 byte stack unchanged, except for the destination of the call.
 */
module CallingConvention {
  import opened Words
  import opened Types
  import opened Ir
  import IM = IrMachine
  import opened VmMachine
  import opened VmCompiler
  import opened FrameLayout
  import opened SimValues
  import opened SimEffects
  import opened Simulation
  import opened SimCalls
  import opened SimReturns
  import opened CompilerCorrectness

  function Depth<T>(s: IM.Stack<T>): nat {
    if s.Empty? then 0 else 1 + Depth(s.rest)
  }

  /** The lowest `d` entries. */
  function Lowest<T>(s: IM.Stack<T>, d: nat): IM.Stack<T>
    requires d <= Depth(s)
  {
    if Depth(s) == d then s else Lowest(s.rest, d)
  }

  ghost predicate AllBut<T(!new)>(dst: int, before: seq<T>, after: seq<T>) {
    |after| == |before| && forall t :: 0 <= t < |before| && t != dst ==> after[t] == before[t]
  }

  // ---------- what one step does to the suspended activations ----------

  /** The byte stack with the registers of `st` spilled on top. */
  function Spilled(st: VmState): seq<Byte> {
    CalleeStack(st.stack, st.regs, st.regs128, 0)
  }

  ghost predicate Stayed(v: VmEnv, st: VmState, t: VmState) {
    t.rest == st.rest && t.links == st.links && SameSaves(v, st.rest, st.stack, t.stack)
  }

  ghost predicate Called(v: VmEnv, st: VmState, t: VmState, dst: int) {
    && t.rest == IM.Push(st.top, st.rest) && t.links == IM.Push(dst, st.links)
    && SameSaves(v, t.rest, Spilled(st), t.stack)
  }

  ghost predicate Reloaded(x: ExecFunc, stack: seq<Byte>, start: nat, dst: int, t: VmState) {
    && start + SaveSize(x) <= |stack|
    && AllBut(dst, LoadRegs(stack, start, UsedRegs(x)), t.regs)
    && AllBut(dst, LoadRegs128(stack, start + 8 * UsedRegs(x), Used128Regs(x)), t.regs128)
  }

  ghost predicate Returned(v: VmEnv, st: VmState, t: VmState) {
    && st.rest.Push? && st.links.Push? && st.rest.top.fn < |v.execs|
    && t.top == st.rest.top && t.rest == st.rest.rest && t.links == st.links.rest
    && SameSaves(v, t.rest, st.stack, t.stack)
    && var x := v.execs[t.top.fn];
    && |t.stack| == t.top.base + x.frameSize
    && Reloaded(x, st.stack, |t.stack|, st.links.top, t)
  }

  lemma WriteStays(e: IM.Env, v: VmEnv, s: IM.State, st: VmState, a: nat, bytes: seq<Byte>)
    requires Compiled(e, v) && Related(e, v, s, st) && InMem(s.mem, a, |bytes|)
    ensures Apply(v, st, StoreBytes(a, bytes)).VNext? && Stayed(v, st, Apply(v, st, StoreBytes(a, bytes)).state)
  {
    hide Compiled, StackOk, Suspended, GlobalsOk, ArgsOk, RegsOk, InSaveArea;
    WriteSim(e, v, s, st, a, bytes);
  }

  lemma CallCalls(e: IM.Env, v: VmEnv, s: IM.State, st: VmState, c: nat, d: int)
    requires Compiled(e, v) && Related(e, v, s, st) && c < |v.execs| && c < |e.prog.functions|
    requires d <= v.execs[st.top.fn].maxTmp && |s.args| <= |e.prog.functions[c].argLocals|
    requires ApplyCall(v, st, c, d).VNext?
    requires IM.ApplyInvoke(e, s, c, d, PlaceAt(e.prog.functions[c], CallBase(v, st))).Next?
    ensures Called(v, st, ApplyCall(v, st, c, d).state, d)
  {
    hide Compiled, Suspended, GlobalsOk, ArgsOk, RegsOk, IM.ApplyInvoke, CopyArgs, PlaceAt, Attributed, MemOk;
    InvokeSim(e, v, s, st, c, d);
    CallForm(v, st, c, d);
    SpilledPrefix(st.stack, st.regs, st.regs128, v.execs[c].frameSize);
    var t := ApplyCall(v, st, c, d).state;
    forall a: nat | InSaveArea(v, t.rest, a)
      ensures a < |Spilled(st)| && a < |t.stack| && t.stack[a] == Spilled(st)[a]
    {
      if InSaveArea(v, st.rest, a) { LiveNotSaved(e, v, s, st, a); }
    }
  }

  lemma SpilledPrefix(stack: seq<Byte>, regs: seq<Word>, regs128: seq<Quad>, frameSize: nat)
    ensures var low, all := CalleeStack(stack, regs, regs128, 0), CalleeStack(stack, regs, regs128, frameSize);
            |low| <= |all| && forall a :: 0 <= a < |low| ==> all[a] == low[a]
  {
  }

  /** Reloading from a stack whose save area is the same gives the same registers. */
  lemma ReloadSame(x: ExecFunc, start: nat, stack: seq<Byte>, stack': seq<Byte>)
    requires start + SaveSize(x) <= |stack| && start + SaveSize(x) <= |stack'|
    requires forall a: nat :: start <= a < start + SaveSize(x) ==> stack'[a] == stack[a]
    ensures LoadRegs(stack', start, UsedRegs(x)) == LoadRegs(stack, start, UsedRegs(x))
    ensures LoadRegs128(stack', start + 8 * UsedRegs(x), Used128Regs(x)) ==
            LoadRegs128(stack, start + 8 * UsedRegs(x), Used128Regs(x))
  {
    hide LoadRegs, LoadRegs128;
    SameWords(stack, stack', start, UsedRegs(x));
    SameQuads(stack, stack', start + 8 * UsedRegs(x), Used128Regs(x));
  }

  lemma CallerSaveArea(v: VmEnv, vrest: IM.Stack<VmFrame>, stack: seq<Byte>, stack': seq<Byte>)
    requires vrest.Push? && vrest.top.fn < |v.execs| && SameSaves(v, vrest, stack, stack')
    requires var end := vrest.top.base + v.execs[vrest.top.fn].frameSize + SaveSize(v.execs[vrest.top.fn]);
             end <= |stack| && end <= |stack'|
    ensures var start := vrest.top.base + v.execs[vrest.top.fn].frameSize;
            forall a: nat :: start <= a < start + SaveSize(v.execs[vrest.top.fn]) ==> stack'[a] == stack[a]
    ensures SameSaves(v, vrest.rest, stack, stack')
  {
    var start := vrest.top.base + v.execs[vrest.top.fn].frameSize;
    assert forall a: nat :: start <= a < start + SaveSize(v.execs[vrest.top.fn]) ==> InSaveArea(v, vrest, a);
    assert forall a: nat :: InSaveArea(v, vrest.rest, a) ==> InSaveArea(v, vrest, a);
  }

  /** The save areas further down survive cutting the caller's off. */
  lemma CutSaves(e: IM.Env, v: VmEnv, s: IM.State, st: VmState, stack: seq<Byte>, start: nat)
    requires Compiled(e, v) && StackOk(e, v, s, st) && s.rest.Push?
    requires st.rest.Push? && st.rest.top.fn < |v.execs|
    requires SameSaves(v, st.rest.rest, st.stack, stack)
    requires start == st.rest.top.base + v.execs[st.rest.top.fn].frameSize && start <= |stack|
    ensures SameSaves(v, st.rest.rest, st.stack, stack[..start])
  {
    hide Compiled, MemOk, Attributed;
    CallerFacts(e, v, s, st);
    forall a: nat | InSaveArea(v, st.rest.rest, a)
      ensures a < start && a < |st.stack| && stack[..start][a] == st.stack[a]
    {
      BelowTop(e, v, s.rest.rest, st.rest.rest, st.links.rest, s.rest.top.dst, st.stack, st.rest.top.base, a);
    }
  }

  lemma UnwoundForm(v: VmEnv, st: VmState, stack: seq<Byte>)
    requires st.rest.Push? && st.links.Push? && st.rest.top.fn < |v.execs|
    requires |stack| == |st.stack| && st.top.base <= |stack|
    requires var vf, x := st.rest.top, v.execs[st.rest.top.fn];
             var start := vf.base + x.frameSize;
             st.top.base == start + SaveSize(x) &&
             SameSaves(v, st.rest.rest, st.stack, stack[..start]) &&
             LoadRegs(stack, start, UsedRegs(x)) == LoadRegs(st.stack, start, UsedRegs(x)) &&
             LoadRegs128(stack, start + 8 * UsedRegs(x), Used128Regs(x)) ==
             LoadRegs128(st.stack, start + 8 * UsedRegs(x), Used128Regs(x))
    ensures Unwind(v, st.(stack := stack)).Some? && Returned(v, st, Unwind(v, st.(stack := stack)).value)
  {
    hide Unwind, SameSaves, LoadRegs, LoadRegs128;
    UnwindForm(v, st.(stack := stack), st.rest.top.base + v.execs[st.rest.top.fn].frameSize);
  }

  /** Unwinding a stack that only differs from `st`'s outside the save areas. */
  lemma UnwindReturns(e: IM.Env, v: VmEnv, s: IM.State, st: VmState, stack: seq<Byte>)
    requires Compiled(e, v) && StackOk(e, v, s, st) && s.rest.Push?
    requires |stack| == |st.stack| && SameSaves(v, st.rest, st.stack, stack)
    ensures Unwind(v, st.(stack := stack)).Some? && Returned(v, st, Unwind(v, st.(stack := stack)).value)
  {
    hide Compiled, Suspended, MemOk, Attributed, RegsOk, Unwind, SameSaves, Returned, LoadRegs, LoadRegs128, FrameOk, Saved;
    CallerFacts(e, v, s, st);
    var x := v.execs[st.rest.top.fn];
    var start := st.rest.top.base + x.frameSize;
    CallerSaveArea(v, st.rest, st.stack, stack);
    ReloadSame(x, start, st.stack, stack);
    CutSaves(e, v, s, st, stack, start);
    UnwoundForm(v, st, stack);
  }

  lemma SetStillReturned(v: VmEnv, st: VmState, t: VmState, w: Word, q: Quad)
    requires Returned(v, st, t)
    ensures SetWord(t, st.links.top, w).VNext? ==> Returned(v, st, SetWord(t, st.links.top, w).state)
    ensures SetQuad(t, st.links.top, q).VNext? ==> Returned(v, st, SetQuad(t, st.links.top, q).state)
  {
    hide SameSaves, LoadRegs, LoadRegs128;
  }

  lemma ReturnReturns(e: IM.Env, v: VmEnv, s: IM.State, st: VmState, val: Val)
    requires Compiled(e, v) && Related(e, v, s, st) && s.rest.Push?
    requires IM.ApplyReturn(e, s, Some(val)).Next?
    requires ApplyReturn(v, st, Some(LowWord(val)), WidePart(val)).VNext?
    ensures Returned(v, st, ApplyReturn(v, st, Some(LowWord(val)), WidePart(val)).state)
  {
    hide IM.ApplyReturn, IM.Deliver, Compiled, Materialize, Unwind, StackOk, Suspended, RegsOk, Returned, InSaveArea, ResultState;
    assert StackOk(e, v, s, st);
    ReturnValueForm(e, s, val);
    CallerFacts(e, v, s, st);
    var stack := st.stack;
    if TmpType(e.prog.functions[s.rest.top.fn], s.top.dst).Struct? {
      DeliverStruct(e, v, s, st, val);
      stack := Materialize(st.stack, st.rest.top.base, v.execs[st.rest.top.fn], st.links.top, LowWord(val)).value.0;
      SameLength(e, v, s, st, stack, IM.Deliver(e.prog.functions[s.rest.top.fn], s.rest.top, s.top.dst, val, s.mem).value.0);
    } else {
      DeliverScalar(e, v, s, st, LowWord(val));
      SavesKept(e, v, s, st);
    }
    UnwindReturns(e, v, s, st, stack);
    var t := Unwind(v, st.(stack := stack)).value;
    var (_, slot) := Materialize(st.stack, st.rest.top.base, v.execs[st.rest.top.fn], st.links.top, LowWord(val)).value;
    SetStillReturned(v, st, t, if slot.Some? then slot.value else LowWord(val), if val.Q? then val.q else 0);
  }

  lemma SameLength(e: IM.Env, v: VmEnv, s: IM.State, st: VmState, stack: seq<Byte>, mem: Memory)
    requires StackOk(e, v, s, st) && StackOk(e, v, s.(mem := mem), st.(stack := stack))
    ensures |stack| == |st.stack|
  {
  }

  lemma ReturnVoidReturns(e: IM.Env, v: VmEnv, s: IM.State, st: VmState)
    requires Compiled(e, v) && Related(e, v, s, st) && s.rest.Push?
    requires ApplyReturn(v, st, None, None).VNext?
    ensures Returned(v, st, ApplyReturn(v, st, None, None).state)
  {
    hide Compiled, Unwind, Suspended, RegsOk, Returned, InSaveArea;
    SavesKept(e, v, s, st);
    UnwindReturns(e, v, s, st, st.stack);
    CallerFacts(e, v, s, st);
  }

  // ---------- one step ----------

  ghost predicate StepKind(v: VmEnv, st: VmState, t: VmState) {
    Stayed(v, st, t) || Returned(v, st, t) || (t.links.Push? && Called(v, st, t, t.links.top))
  }

  lemma SameStackStays(e: IM.Env, v: VmEnv, s: IM.State, st: VmState, t: VmState)
    requires Compiled(e, v) && Related(e, v, s, st)
    requires t.stack == st.stack && t.rest == st.rest && t.links == st.links
    ensures Stayed(v, st, t)
  {
    SavesKept(e, v, s, st);
  }

  /** Effects without calls and returns never touch a save area. */
  lemma LocalKind(e: IM.Env, v: VmEnv, s: IM.State, st: VmState, fn: Function, ie: IM.Effect, ve: VmEffect, ins: Instr)
    requires Compiled(e, v) && Related(e, v, s, st)
    requires !ie.Fault? && !ie.Invoke? && !ie.Return? && EffectFacts(e, fn, s.mem, ins, ie) && Matches(fn, ie, ve)
    requires Apply(v, st, ve).VNext?
    ensures Stayed(v, st, Apply(v, st, ve).state)
  {
    hide Compiled, Related, Stayed, StoreGlobalBytes, Poke;
    if ie.Write? {
      WriteStays(e, v, s, st, ie.addr, ie.bytes);
    } else if ie.Reserve? {
      WriteStays(e, v, s, st, ie.addr, Zeros(ie.size));
      SetKeepsStack(v, st, Apply(v, st, StoreBytes(ie.addr, Zeros(ie.size))).state, ie.dst, WordOfInt(ie.addr));
    } else {
      SameStackStays(e, v, s, st, Apply(v, st, ve).state);
    }
  }

  lemma SetKeepsStack(v: VmEnv, st: VmState, t: VmState, d: int, w: Word)
    requires Stayed(v, st, t) && SetWord(t, d, w).VNext?
    ensures Stayed(v, st, SetWord(t, d, w).state)
  {
  }

  /** Whatever a step does to the byte stack, it leaves the save areas of those that stay suspended alone. */
  lemma StepKinds(e: IM.Env, v: VmEnv, s: IM.State, st: VmState)
    requires Compiled(e, v) && Related(e, v, s, st) && IM.Safe(e, s, 1) && Step(v, st).VNext?
    ensures StepKind(v, PastVm(st), Step(v, st).state)
  {
    hide Compiled, Related, EffectOf, EffectFacts, Matches, IM.NextEffect, IM.Apply, Apply, IM.Fits, PlaceAt,
      Stayed, Returned, Called;
    NoFault(e, s);
    FetchedEffect(e, v, s, st);
    PastRelated(e, v, s, st);
    StepSimulation(e, v, s, st);
    NotStuck(e, s, PlaceFor(e, v, s, st));
    StackOfRelated(e, v, s, st);
    var ie := IM.NextEffect(e, s);
    var ve := EffectOf(v.fpu, PastVm(st), v.execs[st.top.fn].code[st.top.pc]);
    var fn := e.prog.functions[s.top.fn];
    if ie.Invoke? {
      CallKind(e, v, s, st, ie, ve);
    } else if ie.Return? {
      ReturnKind(e, v, s, st, ie, ve);
    } else {
      LocalKind(e, v, Past(s), PastVm(st), fn, ie, ve, InstrAt(e, s));
    }
  }

  lemma CallKind(e: IM.Env, v: VmEnv, s: IM.State, st: VmState, ie: IM.Effect, ve: VmEffect)
    requires Compiled(e, v) && Related(e, v, s, st) && IM.Safe(e, s, 1)
    requires ie == IM.NextEffect(e, s) && ie.Invoke? && HasInstr(e, s) && st.top.fn < |v.execs|
    requires EffectFacts(e, e.prog.functions[s.top.fn], s.mem, InstrAt(e, s), ie)
    requires InstrAt(e, s).dest <= v.execs[st.top.fn].maxTmp
    requires Matches(e.prog.functions[s.top.fn], ie, ve)
    requires Apply(v, PastVm(st), ve).VNext? && IM.Step(e, s, PlaceFor(e, v, s, st)).Next?
    ensures StepKind(v, PastVm(st), Apply(v, PastVm(st), ve).state)
  {
    hide Compiled, Related, IM.NextEffect, IM.ApplyInvoke, ApplyCall, IM.Fits, PlaceAt, Called, Stayed, Returned, SaveSize;
    ArgsFit(e, s, ie);
    PastRelated(e, v, s, st);
    SameCount(e, v);
    CallCalls(e, v, Past(s), PastVm(st), ie.callee, ie.dst);
    assert Called(v, PastVm(st), Apply(v, PastVm(st), ve).state, ie.dst);
    CalledLink(v, PastVm(st), Apply(v, PastVm(st), ve).state, ie.dst);
  }

  lemma CalledLink(v: VmEnv, st: VmState, t: VmState, d: int)
    requires Called(v, st, t, d)
    ensures t.links.Push? && t.links.top == d
  {
  }

  lemma ReturnKind(e: IM.Env, v: VmEnv, s: IM.State, st: VmState, ie: IM.Effect, ve: VmEffect)
    requires Compiled(e, v) && Related(e, v, s, st) && IM.Safe(e, s, 1)
    requires ie == IM.NextEffect(e, s) && ie.Return? && HasInstr(e, s) && st.top.fn < |v.execs|
    requires Matches(e.prog.functions[s.top.fn], ie, ve)
    requires Apply(v, PastVm(st), ve).VNext? && IM.Step(e, s, PlaceFor(e, v, s, st)).Next?
    ensures StepKind(v, PastVm(st), Apply(v, PastVm(st), ve).state)
  {
    hide Compiled, Related, IM.NextEffect, IM.ApplyReturn, ApplyReturn, Called, Stayed, Returned, PlaceFor;
    PastRelated(e, v, s, st);
    EmptyReturns(e, v, Past(s), PastVm(st), ie.result);
    match ie.result
    case None => ReturnVoidReturns(e, v, Past(s), PastVm(st));
    case Some(val) => ReturnReturns(e, v, Past(s), PastVm(st), val);
  }

  /** The outermost return ends the run. */
  lemma EmptyReturns(e: IM.Env, v: VmEnv, s: IM.State, st: VmState, result: Option<Val>)
    requires Related(e, v, s, st) && IM.ApplyReturn(e, s, result).Next?
    ensures s.rest.Push?
  {
  }

  // ---------- from a call to its return ----------

  /** The activations and links `r0`, `l0` lie under the others, at the same height. */
  predicate Under(rest: IM.Stack<VmFrame>, links: IM.Stack<int>, r0: IM.Stack<VmFrame>, l0: IM.Stack<int>) {
    (rest == r0 && links == l0) || (rest.Push? && links.Push? && Under(rest.rest, links.rest, r0, l0))
  }

  lemma {:induction false} UnderDepth(rest: IM.Stack<VmFrame>, links: IM.Stack<int>, r0: IM.Stack<VmFrame>, l0: IM.Stack<int>)
    requires Under(rest, links, r0, l0)
    ensures Depth(r0) <= Depth(rest) && (Depth(rest) == Depth(r0) ==> rest == r0 && links == l0)
  {
    if !(rest == r0 && links == l0) { UnderDepth(rest.rest, links.rest, r0, l0); }
  }

  lemma {:induction false} UnderSaved(v: VmEnv, rest: IM.Stack<VmFrame>, links: IM.Stack<int>, r0: IM.Stack<VmFrame>, l0: IM.Stack<int>, a: nat)
    requires Under(rest, links, r0, l0) && InSaveArea(v, r0, a)
    ensures InSaveArea(v, rest, a)
  {
    if !(rest == r0 && links == l0) { UnderSaved(v, rest.rest, links.rest, r0, l0, a); }
  }

  lemma SavesBelow(v: VmEnv, rest: IM.Stack<VmFrame>, links: IM.Stack<int>, r0: IM.Stack<VmFrame>, l0: IM.Stack<int>,
                   stack: seq<Byte>, stack': seq<Byte>)
    requires Under(rest, links, r0, l0) && SameSaves(v, rest, stack, stack')
    ensures SameSaves(v, r0, stack, stack')
  {
    forall a: nat | InSaveArea(v, r0, a)
      ensures a < |stack'| && a < |stack| && stack'[a] == stack[a]
    {
      UnderSaved(v, rest, links, r0, l0, a);
    }
  }

  lemma SavesTrans(v: VmEnv, rest: IM.Stack<VmFrame>, a: seq<Byte>, b: seq<Byte>, c: seq<Byte>)
    requires SameSaves(v, rest, a, b) && SameSaves(v, rest, b, c)
    ensures SameSaves(v, rest, a, c)
  {
    hide InSaveArea;
  }

  /** `st0`, just past its call instruction, is suspended in `st` and its registers are still in its save area. */
  ghost predicate Waiting(v: VmEnv, st0: VmState, dst: int, st: VmState) {
    && Under(st.rest, st.links, IM.Push(st0.top, st0.rest), IM.Push(dst, st0.links))
    && SameSaves(v, IM.Push(st0.top, st0.rest), Spilled(st0), st.stack)
  }

  lemma WaitingStays(v: VmEnv, st0: VmState, dst: int, st: VmState, t: VmState)
    requires Waiting(v, st0, dst, st) && StepKind(v, st, t) && Depth(t.rest) > Depth(st0.rest)
    ensures Waiting(v, st0, dst, t)
  {
    hide SameSaves, Spilled, Reloaded;
    var r0, l0 := IM.Push(st0.top, st0.rest), IM.Push(dst, st0.links);
    if Stayed(v, st, t) {
      SavesBelow(v, st.rest, st.links, r0, l0, st.stack, t.stack);
      SavesTrans(v, r0, Spilled(st0), st.stack, t.stack);
    } else if Returned(v, st, t) {
      SavesBelow(v, t.rest, t.links, r0, l0, st.stack, t.stack);
      SavesTrans(v, r0, Spilled(st0), st.stack, t.stack);
    } else {
      SavesBelow(v, t.rest, t.links, r0, l0, Spilled(st), t.stack);
      SpilledKeeps(v, r0, st0, st);
      SavesTrans(v, r0, Spilled(st0), Spilled(st), t.stack);
    }
  }

  lemma SpilledKeeps(v: VmEnv, r0: IM.Stack<VmFrame>, st0: VmState, st: VmState)
    requires SameSaves(v, r0, Spilled(st0), st.stack)
    ensures SameSaves(v, r0, Spilled(st0), Spilled(st))
  {
    hide InSaveArea;
    CalleeStackParts(st.stack, st.regs, st.regs128, 0);
  }

  /** The caller is as it was, up to the destination register. */
  ghost predicate Restored(v: VmEnv, st0: VmState, dst: int, t: VmState) {
    && t.top == st0.top && t.rest == st0.rest && t.links == st0.links
    && |t.stack| == |st0.stack|
    && SameSaves(v, st0.rest, st0.stack, t.stack)
    && AllBut(dst, st0.regs, t.regs)
    && AllBut(dst, st0.regs128, t.regs128)
  }

  /** A register file and a stack of the size the running function wants. */
  ghost predicate Sized(v: VmEnv, st: VmState) {
    && st.top.fn < |v.execs|
    && var x := v.execs[st.top.fn];
    && |st.stack| == st.top.base + x.frameSize
    && |st.regs| == UsedRegs(x) && |st.regs128| == Used128Regs(x)
    && SameSaves(v, st.rest, st.stack, st.stack)
  }

  lemma SizedOfRelated(e: IM.Env, v: VmEnv, s: IM.State, st: VmState)
    requires Compiled(e, v) && Related(e, v, s, st)
    ensures Sized(v, PastVm(st))
  {
    SavesKept(e, v, s, st);
  }

  lemma SpilledSaves(v: VmEnv, st0: VmState, stack: seq<Byte>)
    requires Sized(v, st0) && SameSaves(v, st0.rest, Spilled(st0), stack)
    ensures SameSaves(v, st0.rest, st0.stack, stack)
  {
    hide InSaveArea;
    CalleeStackParts(st0.stack, st0.regs, st0.regs128, 0);
  }

  lemma SpilledFile(v: VmEnv, st: VmState)
    requires Sized(v, st)
    ensures var x, start := v.execs[st.top.fn], |st.stack|;
            |Spilled(st)| == start + SaveSize(x) &&
            LoadRegs(Spilled(st), start, UsedRegs(x)) == st.regs &&
            LoadRegs128(Spilled(st), start + 8 * UsedRegs(x), Used128Regs(x)) == st.regs128
  {
    CalleeStackParts(st.stack, st.regs, st.regs128, 0);
    SpillReload(st.stack, st.regs, st.regs128, 0);
  }

  lemma WaitingBack(v: VmEnv, st0: VmState, dst: int, st: VmState, t: VmState)
    requires Sized(v, st0) && Waiting(v, st0, dst, st) && StepKind(v, st, t) && Depth(t.rest) == Depth(st0.rest)
    ensures Restored(v, st0, dst, t)
  {
    hide SameSaves, Spilled, LoadRegs, LoadRegs128;
    var r0, l0 := IM.Push(st0.top, st0.rest), IM.Push(dst, st0.links);
    UnderDepth(st.rest, st.links, r0, l0);
    assert Returned(v, st, t);
    var x := v.execs[st0.top.fn];
    SpilledFile(v, st0);
    CallerSaveArea(v, r0, Spilled(st0), st.stack);
    ReloadSame(x, |st0.stack|, Spilled(st0), st.stack);
    SavesTrans(v, st0.rest, Spilled(st0), st.stack, t.stack);
    SpilledSaves(v, st0, t.stack);
  }

  /** `n` more states deeper than `d`, then the first one back at `d`. */
  ghost predicate ComesBack(v: VmEnv, st: VmState, n: nat, d: nat)
    decreases n
  {
    && Step(v, st).VNext?
    && var t := Step(v, st).state;
    if n == 0 then Depth(t.rest) == d else Depth(t.rest) > d && ComesBack(v, t, n - 1, d)
  }

  lemma {:induction false} WaitingRun(e: IM.Env, v: VmEnv, s: IM.State, st: VmState, st0: VmState, dst: int, n: nat)
    requires Compiled(e, v) && Related(e, v, s, st) && IM.Safe(e, s, n + 1)
    requires Sized(v, st0) && Waiting(v, st0, dst, st) && ComesBack(v, st, n, Depth(st0.rest))
    ensures Run(v, st, n + 1).VNext? && Restored(v, st0, dst, Run(v, st, n + 1).state)
    decreases n
  {
    hide Compiled, Related, IM.Step, Step, IM.Admissible, PlaceFor, StepKind, Waiting, Restored, Sized;
    SafeStep(e, s, n + 1);
    StepSimulation(e, v, s, st);
    StepKinds(e, v, s, st);
    var t := Step(v, st).state;
    assert Waiting(v, st0, dst, PastVm(st)) by { PastWaiting(v, st0, dst, st); }
    if n == 0 {
      WaitingBack(v, st0, dst, PastVm(st), t);
      assert Run(v, t, 0) == VNext(t);
    } else {
      WaitingStays(v, st0, dst, PastVm(st), t);
      NotStuck(e, s, PlaceFor(e, v, s, st));
      WaitingRun(e, v, IM.Step(e, s, PlaceFor(e, v, s, st)).state, t, st0, dst, n - 1);
    }
  }

  lemma PastWaiting(v: VmEnv, st0: VmState, dst: int, st: VmState)
    requires Waiting(v, st0, dst, st)
    ensures Waiting(v, st0, dst, PastVm(st))
  {
  }

  lemma CalledWaits(v: VmEnv, st: VmState, t: VmState)
    requires StepKind(v, st, t) && Depth(t.rest) > Depth(st.rest)
    ensures t.links.Push? && Waiting(v, st, t.links.top, t)
  {
    hide SameSaves, Spilled, Reloaded;
  }

  /**
   The calling convention.  A step that enters a callee, any number of steps above the caller,
   and the step that comes back: code position after the call, registers of both files, stack
   size, return links and the save areas of everybody below are as before the call; only the
   destination register of the call may differ.
   */
  lemma CallRestoresCaller(e: IM.Env, v: VmEnv, s: IM.State, st: VmState, n: nat)
    requires Compiled(e, v) && Related(e, v, s, st) && IM.Safe(e, s, n + 2)
    requires Step(v, st).VNext? && Depth(Step(v, st).state.rest) > Depth(st.rest)
    requires ComesBack(v, Step(v, st).state, n, Depth(st.rest))
    ensures Run(v, st, n + 2).VNext? && Step(v, st).state.links.Push?
    ensures Restored(v, PastVm(st), Step(v, st).state.links.top, Run(v, st, n + 2).state)
  {
    hide Compiled, Related, IM.Step, Step, IM.Admissible, PlaceFor, StepKind, Waiting, Restored, Sized, ComesBack;
    SafeStep(e, s, n + 2);
    StepSimulation(e, v, s, st);
    StepKinds(e, v, s, st);
    var t := Step(v, st).state;
    CalledWaits(v, PastVm(st), t);
    SizedOfRelated(e, v, s, st);
    NotStuck(e, s, PlaceFor(e, v, s, st));
    WaitingRun(e, v, IM.Step(e, s, PlaceFor(e, v, s, st)).state, t, PastVm(st), t.links.top, n);
  }
}
