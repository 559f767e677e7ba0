/**
 The interpreter as an object whose fields the bytecode updates: registers, byte stack,
 call stack and return links.  Every method is the step of the abstract bytecode machine
 that it stands for.
 */
module Interpreter {
  import opened Words
  import opened Types
  import opened Ir
  import IM = IrMachine
  import opened VmMachine
  import opened SimCalls
  import opened Evaluation

  datatype Status = Running | Finished(result: Option<Word>) | Overflowed | Crashed

  /** A vector used as a stack: its last element is on top. */
  function ToStack<T>(s: seq<T>): IM.Stack<T> {
    if s == [] then IM.Empty else IM.Push(s[|s| - 1], ToStack(s[..|s| - 1]))
  }

  lemma PushedStack<T>(s: seq<T>, x: T)
    ensures ToStack(s + [x]) == IM.Push(x, ToStack(s))
  {
    assert (s + [x])[..|s|] == s;
  }

  lemma EmptyOrNot<T>(s: seq<T>)
    ensures ToStack(s).Empty? <==> s == []
  {
  }

  lemma PoppedStack<T>(s: seq<T>)
    requires s != []
    ensures ToStack(s) == IM.Push(s[|s| - 1], ToStack(s[..|s| - 1]))
  {
  }

  /** Replacing the top leaves what lies below it. */
  lemma UpdatedTop<T>(s: seq<T>, x: T)
    requires s != []
    ensures ToStack(s[|s| - 1 := x]) == IM.Push(x, ToStack(s).rest)
  {
    assert s[|s| - 1 := x][..|s| - 1] == s[..|s| - 1];
  }

  /** The last `n` links as a stack. */
  lemma PushedLink(links: seq<int>, n: nat, dst: int)
    requires n <= |links|
    ensures ToStack((links + [dst])[|links| - n..]) == IM.Push(dst, ToStack(links[|links| - n..]))
  {
    assert (links + [dst])[|links| - n..] == links[|links| - n..] + [dst];
    PushedStack(links[|links| - n..], dst);
  }

  lemma PoppedLink(links: seq<int>, n: nat)
    requires 0 < n <= |links|
    ensures ToStack(links[|links| - n..]) == IM.Push(links[|links| - 1], ToStack(links[..|links| - 1][|links| - n..]))
  {
    assert links[|links| - n..] == links[..|links| - 1][|links| - n..] + [links[|links| - 1]];
    PushedStack(links[..|links| - 1][|links| - n..], links[|links| - 1]);
  }

  lemma {:induction false} CopyStops(stack: seq<Byte>, base: nat, x: ExecFunc, args: seq<Word>, args128: seq<Quad>, n: nat, m: nat)
    requires n <= m <= |args| && CopyArgs(stack, base, x, args, args128, n).None?
    ensures CopyArgs(stack, base, x, args, args128, m).None?
    decreases m
  {
    if n < m { CopyStops(stack, base, x, args, args128, n, m - 1); }
  }

  /** The registers `r` and `q` were spilled on the stack `low`, up to `base`. */
  predicate SpilledBelow(stack: seq<Byte>, x: ExecFunc, base: nat, low: seq<Byte>, r: seq<Word>, q: seq<Quad>) {
    && |r| == UsedRegs(x) && |q| == Used128Regs(x) && base == |low| + 8 * |r| + 16 * |q| <= |stack|
    && stack == CalleeStack(low, r, q, 0) + stack[base..]
  }

  lemma ComesBack(stack: seq<Byte>, x: ExecFunc, base: nat, low: seq<Byte>, r: seq<Word>, q: seq<Quad>)
    requires SpilledBelow(stack, x, base, low, r, q)
    ensures base <= |stack| && |low| == base - 8 * UsedRegs(x) - 16 * Used128Regs(x)
    ensures LoadRegs(stack, |low|, UsedRegs(x)) == r && LoadRegs128(stack, |low| + 8 * UsedRegs(x), Used128Regs(x)) == q
    ensures stack[..|low|] == low
  {
    hide LoadRegs, LoadRegs128, CalleeStack;
    Respilled(low, r, q, stack[base..]);
  }

  lemma AllComeBack(stack: seq<Byte>, x: ExecFunc, base: nat)
    ensures forall low, r, q :: SpilledBelow(stack, x, base, low, r, q) ==>
              base <= |stack| && |low| == base - 8 * UsedRegs(x) - 16 * Used128Regs(x) &&
              LoadRegs(stack, |low|, UsedRegs(x)) == r && LoadRegs128(stack, |low| + 8 * UsedRegs(x), Used128Regs(x)) == q &&
              stack[..|low|] == low
  {
    hide SpilledBelow, LoadRegs, LoadRegs128;
    forall low, r, q | SpilledBelow(stack, x, base, low, r, q)
      ensures base <= |stack| && |low| == base - 8 * UsedRegs(x) - 16 * Used128Regs(x)
      ensures LoadRegs(stack, |low|, UsedRegs(x)) == r && LoadRegs128(stack, |low| + 8 * UsedRegs(x), Used128Regs(x)) == q
      ensures stack[..|low|] == low
    {
      ComesBack(stack, x, base, low, r, q);
    }
  }

  class Interpreter {
    const env: VmEnv
    var regs: seq<Word>
    var regs128: seq<Quad>
    var stack: seq<Byte>
    var globals: seq<Byte>
    var args: seq<Word>
    var args128: seq<Quad>
    var callStack: seq<VmFrame>
    var returnLinks: seq<int>

    constructor (env: VmEnv)
      ensures this.env == env
      ensures regs == [] && regs128 == [] && stack == [] && globals == [] && args == [] && args128 == []
      ensures callStack == [] && returnLinks == []
    {
      this.env := env;
      regs, regs128, stack, globals, args, args128, callStack, returnLinks := [], [], [], [], [], [], [], [];
    }

    /** A frame is running, and each frame above the first has its link. */
    predicate Linked()
      reads this
    {
      callStack != [] && |callStack| <= |returnLinks| + 1
    }

    /** Links that an aborted evaluation left lie below those of this one. */
    function StaleLinks(): seq<int>
      requires Linked()
      reads this
    {
      returnLinks[..|returnLinks| + 1 - |callStack|]
    }

    /** The abstract machine's view of the fields. */
    function State(): VmState
      requires Linked()
      reads this
    {
      VmState(regs, regs128, stack, globals, args, args128, callStack[|callStack| - 1], ToStack(callStack[..|callStack| - 1]),
              ToStack(returnLinks[|returnLinks| + 1 - |callStack|..]))
    }

    /** What the runtime holds between evaluations. */
    ghost function Leftovers(): VmState
      reads this
    {
      VmState(regs, regs128, stack, globals, args, args128, VmFrame(0, 0, 0), IM.Empty, IM.Empty)
    }

    ghost function Outcome(status: Status): VmOutcome
      requires status.Running? ==> Linked()
      reads this
    {
      match status
      case Running => VNext(State())
      case Finished(r) => VDone(r)
      case Overflowed => VOverflow
      case Crashed => VCrash
    }

    method CopyArgsToFrame(base: nat, x: ExecFunc, srcArgs: seq<Word>) returns (ok: bool)
      modifies this`stack
      ensures var copied := CopyArgs(old(stack), base, x, srcArgs, args128, |srcArgs|);
              ok == copied.Some? && (ok ==> stack == copied.value)
    {
      for i := 0 to |srcArgs|
        invariant CopyArgs(old(stack), base, x, srcArgs, args128, i) == Some(stack)
      {
        var copied := CopyArg(stack, base, x, i, srcArgs[i], if i < |args128| then Some(args128[i]) else None);
        if copied.None? {
          CopyStops(old(stack), base, x, srcArgs, args128, i + 1, |srcArgs|);
          return false;
        }
        stack := copied.value;
      }
      return true;
    }

    /** Without a source the slot is cleared, which external calls ask for. */
    method MaterializeStructTmp(base: nat, x: ExecFunc, dst: int, src: Option<Word>) returns (ok: bool, slot: Option<Word>)
      modifies this`stack
      ensures src.Some? ==>
                var made := Materialize(old(stack), base, x, dst, src.value);
                ok == made.Some? && (ok ==> stack == made.value.0 && slot == made.value.1)
      ensures src.None? && ok && slot.None? ==> stack == old(stack)
      ensures src.None? && ok && slot.Some? ==>
                0 <= dst < |x.tmpTypes| && dst < |x.tmpOffsets| && x.tmpOffsets[dst] >= 0 &&
                var at, size := base + x.tmpOffsets[dst], SizeInBytes(x.tmpTypes[dst]);
                at + size <= |stack| == |old(stack)| && slot.value == WordOfInt(at) &&
                stack == old(stack)[..at] + Zeros(size) + old(stack)[at + size..]
    {
      if dst < 0 || dst >= |x.tmpTypes| || !x.tmpTypes[dst].Struct? { return true, None; }
      if dst >= |x.tmpOffsets| || x.tmpOffsets[dst] < 0 { return false, None; }
      var size, at := SizeInBytes(x.tmpTypes[dst]), base + x.tmpOffsets[dst];
      if at + size > |stack| { return false, None; }
      var bytes := if src.Some? then Peek(stack, src.value, size) else Some(Zeros(size));
      if bytes.None? { return false, None; }
      var written := Poke(stack, at, bytes.value);
      if written.None? { return false, None; }
      stack := written.value;
      return true, Some(WordOfInt(at));
    }

    /**
     Spill the registers, resize the files, push a zeroed frame, bind the arguments, remember the
     link.  At the stack limit the arguments stay pending.
     */
    method Call(callee: int, dst: int) returns (status: Status)
      requires Linked()
      modifies this
      ensures status.Running? ==> Linked() && StaleLinks() == old(StaleLinks())
      ensures status.Finished? ==> returnLinks == old(StaleLinks())
      ensures Outcome(status) == ApplyCall(env, old(State()), callee, dst)
      ensures status.Overflowed? ==> args == old(args) && args128 == old(args128) && returnLinks == old(returnLinks)
    {
      hide CopyArgs, RegBytes, Reg128Bytes, ToStack;
      PoppedStack(callStack);
      var frame := callStack[|callStack| - 1];
      if !(0 <= callee < |env.execs|) || frame.fn >= |env.execs| { return Crashed; }
      var x := env.execs[callee];
      var usedRegs := UsedRegs(env.execs[frame.fn]);
      if |args| > x.argCount || usedRegs > |regs| { return Crashed; }
      stack := stack + RegBytes(regs[..usedRegs]);
      stack := stack + Reg128Bytes(regs128);
      var base := |stack|;
      regs := Resize(regs, UsedRegs(x), 0);
      regs128 := Resize([], Used128Regs(x), 0);
      stack := stack + Zeros(x.frameSize);
      assert stack == CalleeStack(old(stack), old(regs)[..usedRegs], old(regs128), x.frameSize);
      if |stack| > MAX_STACK_SIZE { return Overflowed; }
      var ok := CopyArgsToFrame(base, x, args);
      if !ok { return Crashed; }
      returnLinks := returnLinks + [dst];
      args, args128 := [], [];
      callStack := callStack + [VmFrame(callee, base, 0)];
      PushedLink(old(returnLinks), old(|callStack|) - 1, dst);
      PushedStack(old(callStack), VmFrame(callee, base, 0));
      return Running;
    }

    /**
     The registers of a caller come back from its save area, which ends at `base`: whatever was spilled
     there is in the files again, and the stack is as it was before.
     */
    method ReloadRegs(x: ExecFunc, base: nat) returns (ok: bool)
      modifies this`regs, this`regs128, this`stack
      ensures ok == (base <= old(|stack|) && 8 * UsedRegs(x) + 16 * Used128Regs(x) <= base)
      ensures ok ==> var start := base - 8 * UsedRegs(x) - 16 * Used128Regs(x);
                     regs == LoadRegs(old(stack), start, UsedRegs(x)) &&
                     regs128 == LoadRegs128(old(stack), start + 8 * UsedRegs(x), Used128Regs(x)) &&
                     stack == old(stack)[..start]
      ensures forall low, r, q :: SpilledBelow(old(stack), x, base, low, r, q) ==> ok && regs == r && regs128 == q && stack == low
    {
      hide SpilledBelow, LoadRegs, LoadRegs128;
      AllComeBack(stack, x, base);
      var savedRegs, saved128 := 8 * UsedRegs(x), 16 * Used128Regs(x);
      if base > |stack| || savedRegs + saved128 > base { return false; }
      var savedStart := base - savedRegs - saved128;
      regs := LoadRegs(stack, savedStart, UsedRegs(x));
      regs128 := LoadRegs128(stack, savedStart + savedRegs, Used128Regs(x));
      stack := stack[..savedStart];
      return true;
    }

    /** The frame below becomes the running one; its link says where the result goes. */
    method PopFrame() returns (dst: int)
      requires Linked() && |callStack| > 1
      modifies this`callStack, this`returnLinks
      ensures Linked() && StaleLinks() == old(StaleLinks())
      ensures old(State()).rest == IM.Push(State().top, State().rest)
      ensures old(State()).links == IM.Push(dst, State().links)
      ensures callStack == old(callStack)[..old(|callStack|) - 1]
    {
      hide ToStack;
      callStack := callStack[..|callStack| - 1];
      PoppedStack(callStack);
      PoppedLink(returnLinks, |callStack|);
      dst := returnLinks[|returnLinks| - 1];
      returnLinks := returnLinks[..|returnLinks| - 1];
    }

    /** Back to the caller: deliver a struct, cut the frame off, reload the registers, set the destination. */
    method Ret(retVal: Option<Word>, wide: Option<Quad>) returns (status: Status)
      requires Linked()
      modifies this
      ensures status.Running? ==> Linked() && StaleLinks() == old(StaleLinks())
      ensures status.Finished? ==> returnLinks == old(StaleLinks())
      ensures Outcome(status) == ApplyReturn(env, old(State()), retVal, wide)
    {
      hide Materialize, LoadRegs, LoadRegs128, ToStack, SpilledBelow, CalleeStack, SetWord, SetQuad;
      var top := |callStack| - 1;
      EmptyOrNot(callStack[..top]);
      if top == 0 {
        callStack := [];
        return Finished(retVal);
      }
      var base := callStack[top].base;
      var dst := PopFrame();
      var caller := callStack[top - 1];
      if caller.fn >= |env.execs| { return Crashed; }
      var x := env.execs[caller.fn];
      var materialized: Option<Word> := None;
      var ok := true;
      if retVal.Some? {
        ok, materialized := MaterializeStructTmp(caller.base, x, dst, retVal);
        if !ok { return Crashed; }
      }
      ok := ReloadRegs(x, base);
      if !ok { return Crashed; }
      if retVal.None? { return Running; }
      if wide.Some? && dst >= 0 {
        status := SetRegister128(dst, wide.value);
      } else {
        status := SetRegister(dst, if materialized.Some? then materialized.value else retVal.value);
      }
    }

    method SetRegister(t: int, w: Word) returns (status: Status)
      requires Linked()
      modifies this`regs
      ensures status.Running? || status.Crashed?
      ensures Outcome(status) == SetWord(old(State()), t, w)
    {
      if !(0 <= t < |regs|) { return Crashed; }
      regs := regs[t := w];
      return Running;
    }

    method SetRegister128(t: int, q: Quad) returns (status: Status)
      requires Linked()
      modifies this`regs128
      ensures status.Running? || status.Crashed?
      ensures Outcome(status) == SetQuad(old(State()), t, q)
    {
      if !(0 <= t < |regs128|) { return Crashed; }
      regs128 := regs128[t := q];
      return Running;
    }

    /** `memcpy` into the stack. */
    method WriteStack(at: nat, bytes: seq<Byte>) returns (ok: bool)
      modifies this`stack
      ensures ok == Poke(old(stack), at, bytes).Some?
      ensures stack == if ok then Poke(old(stack), at, bytes).value else old(stack)
    {
      var written := Poke(stack, at, bytes);
      ok := written.Some?;
      if ok { stack := written.value; }
    }

    /** Carry out what an instruction asks for. */
    method Perform(eff: VmEffect) returns (status: Status)
      requires Linked()
      modifies this
      ensures status.Running? ==> Linked() && StaleLinks() == old(StaleLinks())
      ensures status.Finished? ==> returnLinks == old(StaleLinks())
      ensures Outcome(status) == Apply(env, old(State()), eff)
    {
      hide ApplyCall, ApplyReturn, Poke, StoreGlobalBytes, ToStack, SetWord, SetQuad;
      match eff
      case SetReg(t, w) => status := SetRegister(t, w);
      case SetReg128(t, q) => status := SetRegister128(t, q);
      case StoreBytes(a, bytes) =>
        var ok := WriteStack(a, bytes);
        status := if ok then Running else Crashed;
      case ZeroAndSet(t, a, n) =>
        var ok := WriteStack(a, Zeros(n));
        if !ok { return Crashed; }
        status := SetRegister(t, WordOfInt(a));
      case StoreSlot(slot, w) =>
        globals := StoreGlobalBytes(globals, slot, w);
        status := Running;
      case Jump(pc) =>
        if pc < 0 { return Crashed; }
        UpdatedTop(callStack, callStack[|callStack| - 1].(pc := pc));
        callStack := callStack[|callStack| - 1 := callStack[|callStack| - 1].(pc := pc)];
        status := Running;
      case PushArgs(w, q) =>
        args, args128 := args + [w], args128 + [q];
        status := Running;
      case CallFn(callee, dst) => status := Call(callee, dst);
      case ReturnVal(w) => status := Ret(Some(w), None);
      case ReturnVal128(q) => status := Ret(Some(q % TWO64), Some(q));
      case ReturnVoid => status := Ret(None, None);
      case Crash => status := Crashed;
    }

    /** One turn of the loop: fetch, advance, execute. */
    method StepOnce() returns (status: Status)
      requires Linked()
      modifies this
      ensures status.Running? ==> Linked() && StaleLinks() == old(StaleLinks())
      ensures status.Finished? ==> returnLinks == old(StaleLinks())
      ensures Outcome(status) == Step(env, old(State()))
    {
      hide Apply, EffectOf, ToStack;
      var top := |callStack| - 1;
      var frame := callStack[top];
      if frame.fn >= |env.execs| || frame.pc >= |env.execs[frame.fn].code| { return Crashed; }
      var ins := env.execs[frame.fn].code[frame.pc];
      UpdatedTop(callStack, frame.(pc := frame.pc + 1));
      callStack := callStack[top := frame.(pc := frame.pc + 1)];
      status := Perform(EffectOf(env.fpu, State(), ins));
    }

    /**
     Evaluate function `i`, giving up after `fuel` instructions.  What an aborted evaluation left
     in frames and links is not looked at, and links that were there are there at the end.
     */
    method DoEvalRaw(i: nat, actuals: seq<Word>, fuel: nat) returns (status: Status)
      requires i < |env.execs|
      modifies this
      ensures status.Running? ==> Linked() && StaleLinks() == old(returnLinks)
      ensures status.Finished? ==> returnLinks == old(returnLinks)
      ensures Outcome(status) == Eval(env, i, actuals, old(Leftovers()), fuel)
      ensures |actuals| != env.execs[i].argCount ==> status == Finished(None)
    {
      hide Step, CopyArgs;
      var x := env.execs[i];
      callStack := [VmFrame(i, 0, 0)];
      regs := Resize(regs, UsedRegs(x), 0);
      regs128 := Resize(regs128, Used128Regs(x), 0);
      stack := Resize(stack, x.frameSize, 0);
      if |actuals| != x.argCount { return Finished(None); }
      var ok := CopyArgsToFrame(0, x, actuals);
      if !ok { return Crashed; }
      status := Running;
      var left := fuel;
      assert ToStack(callStack).rest.Empty? by { PoppedStack(callStack); }
      ghost var start := State();
      assert StartVm(env, i, actuals, old(Leftovers())) == Some(start);
      while left > 0 && status.Running?
        invariant status.Running? ==> Linked() && StaleLinks() == old(returnLinks)
        invariant status.Finished? ==> returnLinks == old(returnLinks)
        invariant Run(env, start, fuel) ==
                  if status.Running? then Run(env, State(), left) else Outcome(status)
      {
        status := StepOnce();
        left := left - 1;
      }
    }
  }
}
