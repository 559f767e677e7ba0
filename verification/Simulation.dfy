/**
 Compiler correctness: the bytecode machine simulates the IR machine one instruction for
 one instruction.  The relation says where each suspended activation's temporaries sit in
 the save areas of the byte stack.
 */
module Simulation {
  import opened Words
  import opened Types
  import opened Ir
  import IM = IrMachine
  import opened VmMachine
  import opened VmCompiler
  import opened FrameLayout
  import opened SimValues
  import opened SimEffects

  // ---------- programs and their code ----------

  ghost predicate WellFormed(fn: Function) {
    && ValidArgs(fn)
    && DistinctLabels(fn.blocks)
    && DistinctSlots(fn)
    && forall ins :: ins in Flatten(fn.blocks) ==> WideImmsSmall(ins)
  }

  ghost predicate Compiled(e: IM.Env, v: VmEnv) {
    && v.fpu == e.fpu
    && |v.execs| == |e.prog.functions|
    && forall i: nat :: CompiledAt(e, v, i)
  }

  /** Function `i` is well formed and its code is what the compiler makes of it. */
  ghost predicate CompiledAt(e: IM.Env, v: VmEnv, i: nat) {
    i < |v.execs| && i < |e.prog.functions| ==>
      WellFormed(e.prog.functions[i]) && CompileFunction(e.prog, e.prog.functions[i]) == Some(v.execs[i])
  }

  // ---------- the relation ----------

  ghost predicate FrameOk(e: IM.Env, f: IM.Frame, vf: VmFrame) {
    && f.fn < |e.prog.functions| && vf.fn == f.fn
    && var fn := e.prog.functions[f.fn];
    && f.block <= |fn.blocks|
    && vf.pc == CodeStart(fn.blocks, f.block) + f.idx
    && f.place == PlaceAt(fn, vf.base)
  }

  function SaveSize(x: ExecFunc): nat {
    8 * UsedRegs(x) + 16 * Used128Regs(x)
  }

  /** The save area behind a frame holds the activation's temporaries. */
  ghost predicate Saved(tmps: Tmps, stack: seq<Byte>, start: nat, x: ExecFunc) {
    && start + SaveSize(x) <= |stack|
    && RegsOk(tmps, LoadRegs(stack, start, UsedRegs(x)), LoadRegs128(stack, start + 8 * UsedRegs(x), Used128Regs(x)))
  }

  /** Suspended activations: `top` is the base of the frame above them, `dst` where that one delivers its result. */
  ghost predicate Suspended(e: IM.Env, v: VmEnv, rest: IM.Stack<IM.Frame>, vrest: IM.Stack<VmFrame>, links: IM.Stack<int>,
                            dst: int, stack: seq<Byte>, top: nat)
    decreases rest
  {
    match (rest, vrest, links)
    case (Empty, Empty, Empty) => top == 0
    case (Push(f, r), Push(vf, vr), Push(link, ls)) =>
      && link == dst
      && FrameOk(e, f, vf) && vf.fn < |v.execs|
      && var x := v.execs[vf.fn];
      && link <= x.maxTmp
      && var start := vf.base + x.frameSize;
      && top == start + SaveSize(x)
      && Saved(f.tmps, stack, start, x)
      && Suspended(e, v, r, vr, ls, f.dst, stack, vf.base)
    case _ => false
  }

  ghost predicate OwnedBy(e: IM.Env, f: IM.Frame, a: nat) {
    f.fn < |e.prog.functions| && Owned(Objects(e.prog.functions[f.fn]), f.place, a)
  }

  ghost predicate OwnedBelow(e: IM.Env, rest: IM.Stack<IM.Frame>, a: nat) {
    rest.Push? && (OwnedBy(e, rest.top, a) || OwnedBelow(e, rest.rest, a))
  }

  ghost predicate InSaveArea(v: VmEnv, vrest: IM.Stack<VmFrame>, a: nat) {
    vrest.Push? && (InOwnSaveArea(v, vrest.top, a) || InSaveArea(v, vrest.rest, a))
  }

  predicate InOwnSaveArea(v: VmEnv, vf: VmFrame, a: nat) {
    && vf.fn < |v.execs|
    && var x := v.execs[vf.fn];
    && var start := vf.base + x.frameSize;
    && start <= a < start + SaveSize(x)
  }

  ghost predicate ArgsOk(args: seq<Val>, words: seq<Word>, quads: seq<Quad>) {
    && |words| == |args| && |quads| == |args|
    && forall i :: 0 <= i < |args| ==> ArgOk(args[i], words[i], quads[i])
  }

  /** Every live byte belongs to an activation. */
  ghost predicate Attributed(e: IM.Env, top: IM.Frame, rest: IM.Stack<IM.Frame>, mem: Memory) {
    forall a :: a in mem ==> OwnedBy(e, top, a) || OwnedBelow(e, rest, a)
  }

  ghost predicate StackOk(e: IM.Env, v: VmEnv, s: IM.State, st: VmState) {
    && FrameOk(e, s.top, st.top) && st.top.fn < |v.execs|
    && |st.stack| == st.top.base + v.execs[st.top.fn].frameSize
    && |st.stack| <= MAX_STACK_SIZE
    && Suspended(e, v, s.rest, st.rest, st.links, s.top.dst, st.stack, st.top.base)
    && MemOk(s.mem, st.stack)
    && Attributed(e, s.top, s.rest, s.mem)
  }

  ghost predicate RegFileOk(v: VmEnv, s: IM.State, st: VmState) {
    && st.top.fn < |v.execs|
    && |st.regs| == UsedRegs(v.execs[st.top.fn])
    && |st.regs128| == Used128Regs(v.execs[st.top.fn])
    && RegsOk(s.top.tmps, st.regs, st.regs128)
  }

  ghost predicate Related(e: IM.Env, v: VmEnv, s: IM.State, st: VmState) {
    && StackOk(e, v, s, st)
    && RegFileOk(v, s, st)
    && GlobalsOk(s.globals, st.globals)
    && ArgsOk(s.args, st.args, st.args128)
  }

  // ---------- frames, save areas and live bytes do not overlap ----------

  lemma FrameSizeOf(e: IM.Env, v: VmEnv, i: nat)
    requires Compiled(e, v) && i < |v.execs|
    ensures v.execs[i].frameSize == FrameSize(e.prog.functions[i])
    ensures v.execs[i].tmpTypes == e.prog.functions[i].tmpTypes
    ensures v.execs[i].tmpOffsets == LayoutOf(e.prog.functions[i]).tmpOffsets
    ensures v.execs[i].argCount == |e.prog.functions[i].argLocals|
    ensures WellFormed(e.prog.functions[i])
  {
    assert CompiledAt(e, v, i);
  }

  lemma OwnedRange(e: IM.Env, v: VmEnv, f: IM.Frame, vf: VmFrame, a: nat)
    requires Compiled(e, v) && FrameOk(e, f, vf) && OwnedBy(e, f, a)
    ensures vf.base <= a < vf.base + v.execs[vf.fn].frameSize
  {
    FrameSizeOf(e, v, vf.fn);
    OwnedInFrame(e.prog.functions[f.fn], vf.base, a);
  }

  lemma {:induction false} BelowTop(e: IM.Env, v: VmEnv, rest: IM.Stack<IM.Frame>, vrest: IM.Stack<VmFrame>, links: IM.Stack<int>,
                                    dst: int, stack: seq<Byte>, top: nat, a: nat)
    requires Compiled(e, v) && Suspended(e, v, rest, vrest, links, dst, stack, top)
    ensures OwnedBelow(e, rest, a) ==> a < top && !InSaveArea(v, vrest, a)
    ensures InSaveArea(v, vrest, a) ==> a < top && a < |stack|
    decreases rest
  {
    if rest.Push? {
      var f, vf := rest.top, vrest.top;
      BelowTop(e, v, rest.rest, vrest.rest, links.rest, f.dst, stack, vf.base, a);
      if OwnedBy(e, f, a) { OwnedRange(e, v, f, vf, a); }
    }
  }

  ghost predicate SameSaves(v: VmEnv, vrest: IM.Stack<VmFrame>, stack: seq<Byte>, stack': seq<Byte>) {
    forall a: nat :: InSaveArea(v, vrest, a) ==> a < |stack'| && a < |stack| && stack'[a] == stack[a]
  }

  /** Suspended activations only look at their save areas. */
  lemma {:induction false} SuspendedFrame(e: IM.Env, v: VmEnv, rest: IM.Stack<IM.Frame>, vrest: IM.Stack<VmFrame>, links: IM.Stack<int>,
                                          dst: int, stack: seq<Byte>, stack': seq<Byte>, top: nat)
    requires Suspended(e, v, rest, vrest, links, dst, stack, top)
    requires SameSaves(v, vrest, stack, stack') && |stack'| >= top
    ensures Suspended(e, v, rest, vrest, links, dst, stack', top)
    decreases rest
  {
    if rest.Push? {
      var vf, x := vrest.top, v.execs[vrest.top.fn];
      var start := vf.base + x.frameSize;
      assert forall a: nat :: start <= a < start + SaveSize(x) ==> InSaveArea(v, vrest, a);
      SavedFrame(rest.top.tmps, stack, stack', start, x);
      assert forall a: nat :: InSaveArea(v, vrest.rest, a) ==> InSaveArea(v, vrest, a);
      SuspendedFrame(e, v, rest.rest, vrest.rest, links.rest, rest.top.dst, stack, stack', vf.base);
    }
  }

  lemma {:induction false} SameWords(stack: seq<Byte>, stack': seq<Byte>, start: nat, n: nat)
    requires start + 8 * n <= |stack| && start + 8 * n <= |stack'|
    requires forall a :: start <= a < start + 8 * n ==> stack'[a] == stack[a]
    ensures LoadRegs(stack', start, n) == LoadRegs(stack, start, n)
    decreases n
  {
    if n > 0 {
      assert stack'[start..start + 8] == stack[start..start + 8];
      SameWords(stack, stack', start + 8, n - 1);
    }
  }

  lemma {:induction false} SameQuads(stack: seq<Byte>, stack': seq<Byte>, start: nat, n: nat)
    requires start + 16 * n <= |stack| && start + 16 * n <= |stack'|
    requires forall a :: start <= a < start + 16 * n ==> stack'[a] == stack[a]
    ensures LoadRegs128(stack', start, n) == LoadRegs128(stack, start, n)
    decreases n
  {
    if n > 0 {
      assert stack'[start..start + 16] == stack[start..start + 16];
      SameQuads(stack, stack', start + 16, n - 1);
    }
  }

  lemma SavedFrame(tmps: Tmps, stack: seq<Byte>, stack': seq<Byte>, start: nat, x: ExecFunc)
    requires Saved(tmps, stack, start, x) && start + SaveSize(x) <= |stack'|
    requires forall a :: start <= a < start + SaveSize(x) ==> stack'[a] == stack[a]
    ensures Saved(tmps, stack', start, x)
  {
    SameWords(stack, stack', start, UsedRegs(x));
    SameQuads(stack, stack', start + 8 * UsedRegs(x), Used128Regs(x));
  }

  /** A live byte is never part of a save area. */
  lemma LiveNotSaved(e: IM.Env, v: VmEnv, s: IM.State, st: VmState, a: nat)
    requires Compiled(e, v) && StackOk(e, v, s, st) && InSaveArea(v, st.rest, a)
    ensures a !in s.mem && a < |st.stack|
  {
    BelowTop(e, v, s.rest, st.rest, st.links, s.top.dst, st.stack, st.top.base, a);
    if a in s.mem && OwnedBy(e, s.top, a) { OwnedRange(e, v, s.top, st.top, a); }
  }

  lemma SavesKept(e: IM.Env, v: VmEnv, s: IM.State, st: VmState)
    requires Compiled(e, v) && StackOk(e, v, s, st)
    ensures SameSaves(v, st.rest, st.stack, st.stack)
  {
    forall a: nat | InSaveArea(v, st.rest, a)
      ensures a < |st.stack|
    {
      LiveNotSaved(e, v, s, st, a);
    }
  }

  // ---------- effects that stay in the activation ----------

  /** Writing live bytes on both sides keeps the relation, and no save area notices. */
  lemma WriteSim(e: IM.Env, v: VmEnv, s: IM.State, st: VmState, a: nat, bytes: seq<Byte>)
    requires Compiled(e, v) && StackOk(e, v, s, st) && InMem(s.mem, a, |bytes|)
    ensures Poke(st.stack, a, bytes).Some?
    ensures StackOk(e, v, s.(mem := WriteMem(s.mem, a, bytes)), st.(stack := Poke(st.stack, a, bytes).value))
    ensures SameSaves(v, st.rest, st.stack, Poke(st.stack, a, bytes).value)
  {
    PokeSim(s.mem, st.stack, a, bytes);
    var stack' := Poke(st.stack, a, bytes).value;
    forall i: nat | InSaveArea(v, st.rest, i)
      ensures i < |stack'| && i < |st.stack| && stack'[i] == st.stack[i]
    {
      LiveNotSaved(e, v, s, st, i);
    }
    assert SameSaves(v, st.rest, st.stack, stack');
    SuspendedFrame(e, v, s.rest, st.rest, st.links, s.top.dst, st.stack, stack', st.top.base);
  }

  /** Eight bytes of the globals after a store: the new value, or what was there, zeros beyond the old end. */
  lemma StoredBytes(bytes: seq<Byte>, slot: nat, w: Word, p: nat)
    requires var at := slot * 8; p == at || p + 8 <= at || at + 8 <= p
    requires p + 8 <= |bytes| || |bytes| <= p
    requires p + 8 <= |StoreGlobalBytes(bytes, slot, w)|
    ensures StoreGlobalBytes(bytes, slot, w)[p..p + 8] ==
            if p == slot * 8 then ToBytes(w, 8) else if p + 8 <= |bytes| then bytes[p..p + 8] else Zeros(8)
  {
  }

  lemma GlobalSim(globals: seq<Word>, bytes: seq<Byte>, slot: nat, w: Word)
    requires GlobalsOk(globals, bytes)
    ensures GlobalsOk(IM.StoreGlobal(globals, slot, w), StoreGlobalBytes(bytes, slot, w))
  {
    hide ToBytes, FromBytes, Zeros;
    var words, bytes' := IM.StoreGlobal(globals, slot, w), StoreGlobalBytes(bytes, slot, w);
    WordRoundTrip(w);
    ZeroWord();
    assert |bytes'| == 8 * |words|;
    hide StoreGlobalBytes;
    forall s | 0 <= s < |words|
      ensures WordOf(bytes'[s * 8..s * 8 + 8]) == words[s]
    {
      StoredBytes(bytes, slot, w, s * 8);
    }
  }

  lemma {:induction false} ZeroBytes(n: nat)
    ensures FromBytes(Zeros(n)) == 0
  {
    if n > 0 {
      ZeroBytes(n - 1);
      assert Zeros(n)[1..] == Zeros(n - 1);
    }
  }

  lemma ZeroWord()
    ensures WordOf(Zeros(8)) == 0
  {
    ZeroBytes(8);
  }
}
