/**
 One evaluation from the outside: setting up the outermost frame on whatever an earlier
 evaluation left in the runtime, running, and taking the result.
 */
module Evaluation {
  import opened Words
  import opened Types
  import opened Ir
  import IM = IrMachine
  import opened VmMachine
  import opened VmCompiler
  import opened FrameLayout
  import opened SimValues
  import opened SimEffects
  import opened Simulation
  import opened SimCalls
  import opened SimReturns
  import opened CompilerCorrectness

  /** The outermost frame is cut or grown out of the old stack; only the new part is zero. */
  function StartVm(v: VmEnv, i: nat, args: seq<Word>, left: VmState): Option<VmState>
    requires i < |v.execs|
  {
    var x := v.execs[i];
    match CopyArgs(Resize(left.stack, x.frameSize, 0), 0, x, args, left.args128, |args|)
    case None => None
    case Some(stack) =>
      Some(VmState(Resize(left.regs, UsedRegs(x), 0), Resize(left.regs128, Used128Regs(x), 0), stack, left.globals,
                   left.args, left.args128, VmFrame(i, 0, 0), IM.Empty, IM.Empty))
  }

  /** A wrong number of arguments ends the evaluation without a value. */
  function Eval(v: VmEnv, i: nat, args: seq<Word>, left: VmState, n: nat): VmOutcome
    requires i < |v.execs|
  {
    if |args| != v.execs[i].argCount then VDone(None) else
    match StartVm(v, i, args, left) case None => VCrash case Some(st) => Run(v, st, n)
  }

  /** The word `w` below what `bytes` hold in the upper half of wide parameter `k`. */
  function FreshVal(x: ExecFunc, k: nat, w: Word, bytes: seq<Byte>): Val {
    if k < |x.argTypes| && Is128(x.argTypes[k]) && k < |x.argOffsets| && x.argOffsets[k] + 16 <= |bytes|
    then Q(QuadOf(ToBytes(w, 8) + bytes[x.argOffsets[k] + 8..x.argOffsets[k] + 16])) else W(w)
  }

  /**
   What the set-up makes of parameter `k`.  A wide one is a wide argument left over from a call
   that never happened, if there is one, and else its word below what the stack holds by then.
   */
  function EntryVal(x: ExecFunc, k: nat, args: seq<Word>, bytes: seq<Byte>, stale: seq<Quad>): Val
    requires k < |args|
  {
    if k < |x.argTypes| && Is128(x.argTypes[k]) && k < |stale| then Q(stale[k]) else
    match CopyArgs(bytes, 0, x, args, stale, k) case None => W(args[k]) case Some(before) => FreshVal(x, k, args[k], before)
  }

  function EntryVals(x: ExecFunc, args: seq<Word>, bytes: seq<Byte>, stale: seq<Quad>): (r: seq<Val>)
    ensures |r| == |args|
  {
    seq(|args|, k requires 0 <= k < |args| => EntryVal(x, k, args, bytes, stale))
  }

  /** The outermost activation: its variables hold any old bytes, then its parameters are bound. */
  ghost function StartIr(e: IM.Env, v: VmEnv, i: nat, args: seq<Word>, left: VmState, globals: seq<Word>, pending: seq<Val>)
    : Option<IM.State>
    requires i < |v.execs| && i < |e.prog.functions| && |args| <= |e.prog.functions[i].argLocals|
  {
    var fn, bytes := e.prog.functions[i], Resize(left.stack, v.execs[i].frameSize, 0);
    var place := PlaceAt(fn, 0);
    match IM.BindArgs(fn, place, EntryVals(v.execs[i], args, bytes, left.args128), |args|, OldObjects(fn, place, bytes))
    case None => None
    case Some(m) => Some(IM.State(IM.Frame(i, 0, 0, map[], place, -1), IM.Empty, m, globals, pending))
  }

  ghost function OldObjects(fn: Function, place: Placement, bytes: seq<Byte>): Memory {
    map a: nat | a < |bytes| && Owned(Objects(fn), place, a) :: bytes[a]
  }

  function QuadVal(v: Val): Quad {
    match v case W(w) => QuadOfInt(Signed(W64, w)) case Q(q) => q
  }

  function Quads(vals: seq<Val>): (r: seq<Quad>)
    ensures |r| == |vals|
  {
    seq(|vals|, k requires 0 <= k < |vals| => QuadVal(vals[k]))
  }

  /** The upper half of a wide entry parameter keeps what the stack held before. */
  lemma WideParamHalf(stack: seq<Byte>, base: nat, x: ExecFunc, k: nat, w: Word)
    requires k < |x.argOffsets| && k < |x.argTypes| && Is128(x.argTypes[k])
    requires base + x.argOffsets[k] + 16 <= |stack|
    ensures var at, out := base + x.argOffsets[k], CopyArg(stack, base, x, k, w, None);
            out.Some? && |out.value| == |stack| &&
            out.value[at..at + 8] == ToBytes(w, 8) && out.value[at + 8..at + 16] == stack[at + 8..at + 16]
  {
  }

  /** Parameter `k`, if wide, still has in its upper half what it had at first. */
  predicate UpperKept(x: ExecFunc, k: nat, bytes: seq<Byte>, stack: seq<Byte>) {
    |stack| == |bytes| &&
    (k < |x.argOffsets| && k < |x.argTypes| && Is128(x.argTypes[k]) && x.argOffsets[k] + 16 <= |bytes| ==>
       stack[x.argOffsets[k] + 8..x.argOffsets[k] + 16] == bytes[x.argOffsets[k] + 8..x.argOffsets[k] + 16])
  }

  lemma ObjectsApart(sizes: seq<nat>, j: nat, k: nat)
    requires j < |sizes| && k < |sizes|
    ensures ObjectOffset(sizes, k) + Extent(sizes[k]) <= ObjectOffset(sizes, |sizes|)
    ensures j == k || ObjectOffset(sizes, j) + Extent(sizes[j]) <= ObjectOffset(sizes, k) ||
            ObjectOffset(sizes, k) + Extent(sizes[k]) <= ObjectOffset(sizes, j)
  {
    ObjectOrder(sizes, k, |sizes|);
    if j < k { ObjectOrder(sizes, j, k); } else if k < j { ObjectOrder(sizes, k, j); }
  }

  lemma VariableAt(fn: Function, k: nat)
    requires k < |fn.localTypes|
    ensures Objects(fn)[k] == SizeInBytes(fn.localTypes[k]) && PlaceAt(fn, 0)[k] == ObjectOffset(Objects(fn), k)
  {
  }

  /** Variables lie inside the frame, and different ones apart. */
  lemma VariablesApart(fn: Function, j: nat, k: nat)
    requires j < |fn.localTypes| && k < |fn.localTypes|
    ensures var m, n := Extent(SizeInBytes(fn.localTypes[j])), Extent(SizeInBytes(fn.localTypes[k]));
            PlaceAt(fn, 0)[k] + n <= FrameSize(fn) &&
            (j == k || PlaceAt(fn, 0)[j] + m <= PlaceAt(fn, 0)[k] || PlaceAt(fn, 0)[k] + n <= PlaceAt(fn, 0)[j])
  {
    hide Objects, SizeInBytes, Extent, PlaceAt, ObjectOffset;
    ObjectsApart(Objects(fn), j, k);
    VariableAt(fn, j);
    VariableAt(fn, k);
  }

  /** Parameters are the same variable or apart. */
  lemma ParamsApart(e: IM.Env, v: VmEnv, i: nat, j: nat, k: nat)
    requires Compiled(e, v) && i < |v.execs|
    requires j < |e.prog.functions[i].argLocals| && k < |e.prog.functions[i].argLocals|
    ensures var x := v.execs[i];
            j < |x.argTypes| && j < |x.argOffsets| && k < |x.argTypes| && k < |x.argOffsets| &&
            var m, n := Extent(SizeInBytes(x.argTypes[j])), Extent(SizeInBytes(x.argTypes[k]));
            x.argOffsets[k] + n <= x.frameSize &&
            ((x.argOffsets[j] == x.argOffsets[k] && x.argTypes[j] == x.argTypes[k]) ||
             x.argOffsets[j] + m <= x.argOffsets[k] || x.argOffsets[k] + n <= x.argOffsets[j])
  {
    hide Compiled, SizeInBytes, Extent, PlaceAt, FrameSize, LayoutOf;
    SameCount(e, v);
    ArgPlace(e, v, i, j, 0);
    ArgPlace(e, v, i, k, 0);
    FrameSizeOf(e, v, i);
    var fn := e.prog.functions[i];
    VariablesApart(fn, fn.argLocals[j], fn.argLocals[k]);
  }

  predicate OnlyIn(at: nat, size: nat, before: seq<Byte>, after: seq<Byte>) {
    |after| == |before| && forall a :: 0 <= a < |before| && !(at <= a < at + Extent(size)) ==> after[a] == before[a]
  }

  /** An argument that the IR can bind is written inside its parameter. */
  lemma CopyInside(stack: seq<Byte>, x: ExecFunc, k: nat, at: nat, val: Val, w: Word, mem: Memory)
    requires k < |x.argTypes| && k < |x.argOffsets| && IM.BindArg(x.argTypes[k], at, val, mem).Some?
    requires CopyArg(stack, 0, x, k, w, None).Some?
    ensures OnlyIn(x.argOffsets[k], SizeInBytes(x.argTypes[k]), stack, CopyArg(stack, 0, x, k, w, None).value)
  {
    if Is128(x.argTypes[k]) { WideExtent(x.argTypes[k]); }
  }

  lemma WideExtent(t: Type)
    requires Is128(t)
    ensures SizeInBytes(t) == 16 && Extent(SizeInBytes(t)) == 16
  {
    AlignUpEight(16);
  }

  lemma UpperApart(at: nat, size: nat, before: seq<Byte>, after: seq<Byte>, o: nat)
    requires OnlyIn(at, size, before, after) && o + 16 <= |before| && (at + Extent(size) <= o || o + 16 <= at)
    ensures |after| == |before| && after[o + 8..o + 16] == before[o + 8..o + 16]
  {
    hide Extent;
  }

  lemma CopyKeepsUpper(e: IM.Env, v: VmEnv, i: nat, j: nat, k: nat, bytes: seq<Byte>, stack: seq<Byte>,
                       at: nat, val: Val, w: Word, mem: Memory)
    requires Compiled(e, v) && i < |v.execs|
    requires j < |e.prog.functions[i].argLocals| && k < |e.prog.functions[i].argLocals|
    requires j < |v.execs[i].argTypes| && IM.BindArg(v.execs[i].argTypes[j], at, val, mem).Some?
    requires UpperKept(v.execs[i], k, bytes, stack) && |stack| == v.execs[i].frameSize
    requires CopyArg(stack, 0, v.execs[i], j, w, None).Some?
    ensures UpperKept(v.execs[i], k, bytes, CopyArg(stack, 0, v.execs[i], j, w, None).value)
  {
    hide Compiled, CopyArg, IM.BindArg, SizeInBytes, Extent, OnlyIn;
    ParamsApart(e, v, i, j, k);
    var x := v.execs[i];
    CopyLength(stack, x, j, w, None);
    if Is128(x.argTypes[k]) {
      WideExtent(x.argTypes[k]);
      if x.argOffsets[j] == x.argOffsets[k] && x.argTypes[j] == x.argTypes[k] {
        WideParamHalf(stack, 0, x, j, w);
      } else {
        CopyInside(stack, x, j, at, val, w, mem);
        UpperApart(x.argOffsets[j], SizeInBytes(x.argTypes[j]), stack, CopyArg(stack, 0, x, j, w, None).value, x.argOffsets[k]);
      }
    }
  }

  lemma PokeLow(stack: seq<Byte>, at: nat, low: seq<Byte>, high: seq<Byte>)
    requires |low| == |high| == 8 && at + 16 <= |stack| && stack[at + 8..at + 16] == high
    ensures Poke(stack, at, low) == Poke(stack, at, low + high)
  {
    assert stack[at + 8..] == stack[at + 8..at + 16] + stack[at + 16..];
    assert stack[..at] + low + (high + stack[at + 16..]) == stack[..at] + (low + high) + stack[at + 16..];
  }

  lemma EntryImage(x: ExecFunc, k: nat, w: Word, bytes: seq<Byte>)
    requires k < |x.argTypes| && Is128(x.argTypes[k]) && k < |x.argOffsets| && x.argOffsets[k] + 16 <= |bytes|
    ensures ToBytes(QuadVal(FreshVal(x, k, w, bytes)), 16) == ToBytes(w, 8) + bytes[x.argOffsets[k] + 8..x.argOffsets[k] + 16]
  {
    hide ToBytes, FromBytes;
    ImageRoundTrip(ToBytes(w, 8) + bytes[x.argOffsets[k] + 8..x.argOffsets[k] + 16]);
  }

  /** Writing the low half of a wide parameter is writing all of its value. */
  lemma CopyFresh(stack: seq<Byte>, x: ExecFunc, k: nat, w: Word)
    requires k < |x.argTypes| && k < |x.argOffsets|
    requires Is128(x.argTypes[k]) ==> x.argOffsets[k] + 16 <= |stack|
    ensures CopyArg(stack, 0, x, k, w, None) == CopyArg(stack, 0, x, k, w, Some(QuadVal(FreshVal(x, k, w, stack))))
  {
    hide ToBytes, QuadVal, FreshVal, Poke;
    WideSize(x.argTypes[k]);
    if Is128(x.argTypes[k]) {
      var o := x.argOffsets[k];
      EntryImage(x, k, w, stack);
      PokeLow(stack, o, ToBytes(w, 8), stack[o + 8..o + 16]);
    }
  }

  lemma NarrowIgnoresWide(stack: seq<Byte>, x: ExecFunc, k: nat, w: Word, a: Option<Quad>, b: Option<Quad>)
    requires k < |x.argTypes| && !Is128(x.argTypes[k])
    ensures CopyArg(stack, 0, x, k, w, a) == CopyArg(stack, 0, x, k, w, b)
  {
    WideSize(x.argTypes[k]);
  }

  lemma CopyEntryStep(x: ExecFunc, k: nat, args: seq<Word>, bytes: seq<Byte>, stale: seq<Quad>)
    requires k < |args| && k < |x.argTypes| && k < |x.argOffsets| && CopyArgs(bytes, 0, x, args, stale, k).Some?
    requires Is128(x.argTypes[k]) ==> x.argOffsets[k] + 16 <= |CopyArgs(bytes, 0, x, args, stale, k).value|
    ensures var before := CopyArgs(bytes, 0, x, args, stale, k).value;
            CopyArg(before, 0, x, k, args[k], if k < |stale| then Some(stale[k]) else None) ==
            CopyArg(before, 0, x, k, args[k], Some(QuadVal(EntryVal(x, k, args, bytes, stale))))
  {
    hide CopyArg, CopyArgs, FreshVal;
    var before := CopyArgs(bytes, 0, x, args, stale, k).value;
    if !Is128(x.argTypes[k]) {
      NarrowIgnoresWide(before, x, k, args[k], if k < |stale| then Some(stale[k]) else None,
                        Some(QuadVal(EntryVal(x, k, args, bytes, stale))));
    } else if k >= |stale| {
      CopyFresh(before, x, k, args[k]);
    }
  }

  lemma CopyLength(stack: seq<Byte>, x: ExecFunc, j: nat, w: Word, wide: Option<Quad>)
    requires CopyArg(stack, 0, x, j, w, wide).Some?
    ensures |CopyArg(stack, 0, x, j, w, wide).value| == |stack|
  {
  }

  lemma CopyNext(stack: seq<Byte>, x: ExecFunc, args: seq<Word>, args128: seq<Quad>, n: nat)
    requires 0 < n <= |args|
    ensures CopyArgs(stack, 0, x, args, args128, n) ==
            match CopyArgs(stack, 0, x, args, args128, n - 1)
            case None => None
            case Some(s) => CopyArg(s, 0, x, n - 1, args[n - 1], if n - 1 < |args128| then Some(args128[n - 1]) else None)
  {
  }

  predicate AllUpperKept(x: ExecFunc, bytes: seq<Byte>, stack: seq<Byte>, n: nat) {
    |stack| == |bytes| && forall k :: 0 <= k < n ==> UpperKept(x, k, bytes, stack)
  }

  lemma NothingCopied(x: ExecFunc, bytes: seq<Byte>, n: nat)
    ensures AllUpperKept(x, bytes, bytes, n)
  {
  }

  /** The set-up copies what a call with the entry values would copy. */
  lemma {:induction false} CopyEntry(e: IM.Env, v: VmEnv, i: nat, args: seq<Word>, bytes: seq<Byte>, stale: seq<Quad>, n: nat)
    requires Compiled(e, v) && i < |v.execs| && |bytes| == v.execs[i].frameSize && i < |e.prog.functions|
    requires n <= |args| == |e.prog.functions[i].argLocals|
    ensures var out := CopyArgs(bytes, 0, v.execs[i], args, stale, n);
            out == CopyArgs(bytes, 0, v.execs[i], args, Quads(EntryVals(v.execs[i], args, bytes, stale)), n) &&
            (out.Some? ==> |out.value| == |bytes|)
    decreases n
  {
    hide Compiled, CopyArg, EntryVal, QuadVal, SizeInBytes, Extent;
    if n > 0 {
      var x, k := v.execs[i], n - 1;
      CopyEntry(e, v, i, args, bytes, stale, k);
      ParamsApart(e, v, i, k, k);
      if Is128(x.argTypes[k]) { WideExtent(x.argTypes[k]); }
      CopyNext(bytes, x, args, stale, n);
      CopyNext(bytes, x, args, Quads(EntryVals(x, args, bytes, stale)), n);
      var before := CopyArgs(bytes, 0, x, args, stale, k);
      if before.Some? {
        CopyEntryStep(x, k, args, bytes, stale);
        var wide := if k < |stale| then Some(stale[k]) else None;
        if CopyArg(before.value, 0, x, k, args[k], wide).Some? { CopyLength(before.value, x, k, args[k], wide); }
      }
    }
  }

  lemma UpperStep(e: IM.Env, v: VmEnv, i: nat, bytes: seq<Byte>, stack: seq<Byte>, j: nat, w: Word, at: nat, val: Val, mem: Memory)
    requires Compiled(e, v) && i < |v.execs| && |bytes| == v.execs[i].frameSize
    requires j < |e.prog.functions[i].argLocals| && j < |v.execs[i].argTypes|
    requires AllUpperKept(v.execs[i], bytes, stack, |e.prog.functions[i].argLocals|)
    requires IM.BindArg(v.execs[i].argTypes[j], at, val, mem).Some? && CopyArg(stack, 0, v.execs[i], j, w, None).Some?
    ensures AllUpperKept(v.execs[i], bytes, CopyArg(stack, 0, v.execs[i], j, w, None).value, |e.prog.functions[i].argLocals|)
  {
    hide Compiled, CopyArg, IM.BindArg, UpperKept;
    SameCount(e, v);
    var x := v.execs[i];
    var out := CopyArg(stack, 0, x, j, w, None).value;
    forall k | 0 <= k < |e.prog.functions[i].argLocals| ensures UpperKept(x, k, bytes, out) {
      CopyKeepsUpper(e, v, i, j, k, bytes, stack, at, val, w, mem);
    }
    CopyLength(stack, x, j, w, None);
  }

  lemma UpperIsOld(x: ExecFunc, k: nat, w: Word, bytes: seq<Byte>, stack: seq<Byte>)
    requires UpperKept(x, k, bytes, stack)
    ensures FreshVal(x, k, w, stack) == FreshVal(x, k, w, bytes)
  {
    hide ToBytes, QuadOf;
  }

  /** In a runtime with nothing left over, no parameter disturbs another: each wide one has its old upper half. */
  lemma {:induction false} FreshEntry(e: IM.Env, v: VmEnv, i: nat, args: seq<Word>, bytes: seq<Byte>, mem: Memory, n: nat)
    requires Compiled(e, v) && i < |v.execs| && |bytes| == v.execs[i].frameSize && i < |e.prog.functions|
    requires n <= |args| == |e.prog.functions[i].argLocals| && CopyArgs(bytes, 0, v.execs[i], args, [], n).Some?
    requires var vals := EntryVals(v.execs[i], args, bytes, []);
             IM.BindArgs(e.prog.functions[i], PlaceAt(e.prog.functions[i], 0), vals, n, mem).Some?
    ensures AllUpperKept(v.execs[i], bytes, CopyArgs(bytes, 0, v.execs[i], args, [], n).value, |args|)
    ensures forall k :: 0 <= k < n ==> EntryVal(v.execs[i], k, args, bytes, []) == FreshVal(v.execs[i], k, args[k], bytes)
    decreases n
  {
    hide Compiled, CopyArg, IM.BindArg, AllUpperKept, PlaceAt, FreshVal;
    var x, fn := v.execs[i], e.prog.functions[i];
    if n == 0 {
      NothingCopied(x, bytes, |args|);
    } else {
      var vals, place, k := EntryVals(x, args, bytes, []), PlaceAt(fn, 0), n - 1;
      BindUnfold(fn, place, vals, n, mem);
      CopyNext(bytes, x, args, [], n);
      FreshEntry(e, v, i, args, bytes, mem, k);
      ArgPlace(e, v, i, k, 0);
      var before := CopyArgs(bytes, 0, x, args, [], k).value;
      UpperStep(e, v, i, bytes, before, k, args[k], place[fn.argLocals[k]], vals[k], IM.BindArgs(fn, place, vals, k, mem).value);
      UpperAt(x, bytes, before, |args|, k);
      UpperIsOld(x, k, args[k], bytes, before);
    }
  }

  lemma UpperAt(x: ExecFunc, bytes: seq<Byte>, stack: seq<Byte>, n: nat, k: nat)
    requires AllUpperKept(x, bytes, stack, n) && k < n
    ensures UpperKept(x, k, bytes, stack)
  {
  }

  ghost function Whole(stack: seq<Byte>): Memory { map a: nat | a < |stack| :: stack[a] }

  /** Where the IR binds the word `w` itself to parameter `k`, the code leaves the same bytes. */
  ghost predicate BoundAt(stack: seq<Byte>, base: nat, x: ExecFunc, k: nat, w: Word)
    requires k < |x.argOffsets| && k < |x.argTypes|
  {
    var bound := IM.BindArg(x.argTypes[k], base + x.argOffsets[k], W(w), Whole(stack));
    var copied := CopyArg(stack, base, x, k, w, None);
    bound.Some? ==> copied.Some? && MemOk(bound.value, copied.value)
  }

  lemma WholeOk(stack: seq<Byte>)
    ensures MemOk(Whole(stack), stack) && forall a: nat, n: nat :: a + n <= |stack| ==> InMem(Whole(stack), a, n)
  {
  }

  lemma NarrowBound(stack: seq<Byte>, base: nat, x: ExecFunc, k: nat, w: Word)
    requires k < |x.argOffsets| && k < |x.argTypes| && !Is128(x.argTypes[k])
    ensures BoundAt(stack, base, x, k, w)
  {
    hide ToBytes, SizeInBytes, MemOk, Whole, InMem, WriteMem, ReadMem, Peek, Poke;
    var t, at := x.argTypes[k], base + x.argOffsets[k];
    WholeOk(stack);
    if IM.BindArg(t, at, W(w), Whole(stack)).Some? {
      if t.Struct? {
        PeekSim(Whole(stack), stack, w, SizeInBytes(t));
        PokeSim(Whole(stack), stack, at, ReadMem(Whole(stack), w, SizeInBytes(t)));
      } else {
        PokeSim(Whole(stack), stack, at, ToBytes(w, 8));
      }
    }
  }

  lemma WideBinding(t: Type, at: nat, mem: Memory)
    requires Is128(t) && InMem(mem, at, 16)
    ensures var bound := IM.BindArg(t, at, W(0), mem); bound.Some? && at + 8 in bound.value && bound.value[at + 8] == 0
  {
    hide ToBytes, InMem;
    ZeroImage(16);
    assert QuadOfInt(Signed(W64, 0)) == 0;
    assert ToBytes(0, 16)[8] == 0;
    InWide(mem, at);
  }

  lemma InWide(mem: Memory, at: nat)
    requires InMem(mem, at, 16)
    ensures at + 8 in mem
  {
  }

  /** A wide parameter on a stack of ones: the upper half should be zero. */
  lemma WideNotBound(x: ExecFunc, k: nat)
    requires k < |x.argOffsets| && k < |x.argTypes| && Is128(x.argTypes[k])
    ensures !BoundAt(seq(x.argOffsets[k] + 16, _ => 1), 0, x, k, 0)
  {
    var at := x.argOffsets[k];
    var stack: seq<Byte> := seq(at + 16, _ => 1);
    WholeOk(stack);
    WideParamHalf(stack, 0, x, k, 0);
    WideBinding(x.argTypes[k], at, Whole(stack));
    hide ToBytes, CopyArg, IM.BindArg, Whole;
    var copied := CopyArg(stack, 0, x, k, 0, None).value;
    assert copied[at + 8] == copied[at + 8..at + 16][0];
  }

  /** An entry parameter gets the word passed to it, on every old stack, exactly when it is not 128 bits wide. */
  lemma ParamBoundExactly(x: ExecFunc, k: nat)
    requires k < |x.argOffsets| && k < |x.argTypes|
    ensures (forall stack, base, w :: BoundAt(stack, base, x, k, w)) <==> !Is128(x.argTypes[k])
  {
    hide BoundAt;
    if Is128(x.argTypes[k]) {
      WideNotBound(x, k);
    } else {
      forall stack, base, w
        ensures BoundAt(stack, base, x, k, w)
      {
        NarrowBound(stack, base, x, k, w);
      }
    }
  }

  lemma FreshOutermost(e: IM.Env, v: VmEnv, i: nat, stack: seq<Byte>, s: IM.State, st: VmState)
    requires Compiled(e, v) && i < |v.execs| && |stack| == v.execs[i].frameSize <= MAX_STACK_SIZE
    requires |st.regs| == UsedRegs(v.execs[i]) && |st.regs128| == Used128Regs(v.execs[i])
    requires st.stack == stack && st.top == VmFrame(i, 0, 0) && st.rest.Empty? && st.links.Empty?
    requires var fn := e.prog.functions[i];
             s.top == IM.Frame(i, 0, 0, map[], PlaceAt(fn, 0), -1) && s.rest.Empty? &&
             s.mem == OldObjects(fn, PlaceAt(fn, 0), stack)
    ensures StackOk(e, v, s, st) && RegFileOk(v, s, st)
  {
    FrameSizeOf(e, v, i);
  }

  lemma EntryArgs(x: ExecFunc, args: seq<Word>, bytes: seq<Byte>, stale: seq<Quad>, vals: seq<Val>)
    requires vals == EntryVals(x, args, bytes, stale)
    ensures ArgsOk(vals, args, Quads(vals))
  {
    hide CopyArgs;
  }

  lemma PendingRelated(e: IM.Env, v: VmEnv, s: IM.State, st: VmState, pending: seq<Val>)
    requires Related(e, v, s, st.(args := [], args128 := [])) && ArgsOk(pending, st.args, st.args128)
    ensures Related(e, v, s.(args := pending), st)
  {
    hide Suspended, MemOk, RegsOk, GlobalsOk, Attributed;
  }

  /**
   The set-up of the bytecode machine is the set-up of the IR, for any leftovers in the runtime;
   arguments that an earlier evaluation left pending are pending in the IR as well.
   */
  lemma StartRelated(e: IM.Env, v: VmEnv, i: nat, args: seq<Word>, left: VmState, globals: seq<Word>, pending: seq<Val>)
    requires Compiled(e, v) && i < |v.execs| && v.execs[i].frameSize <= MAX_STACK_SIZE
    requires |args| == |e.prog.functions[i].argLocals|
    requires GlobalsOk(globals, left.globals) && ArgsOk(pending, left.args, left.args128)
    requires StartIr(e, v, i, args, left, globals, pending).Some?
    ensures StartVm(v, i, args, left).Some?
    ensures Related(e, v, StartIr(e, v, i, args, left, globals, pending).value, StartVm(v, i, args, left).value)
  {
    hide Compiled, StackOk, RegFileOk, GlobalsOk, CopyArgs, IM.BindArgs, EntryVal;
    SameCount(e, v);
    var x, fn, bytes := v.execs[i], e.prog.functions[i], Resize(left.stack, v.execs[i].frameSize, 0);
    var place, vals := PlaceAt(fn, 0), EntryVals(x, args, bytes, left.args128);
    var st := VmState(Resize(left.regs, UsedRegs(x), 0), Resize(left.regs128, Used128Regs(x), 0), bytes, left.globals,
                      args, Quads(vals), VmFrame(i, 0, 0), IM.Empty, IM.Empty);
    var s := IM.State(IM.Frame(i, 0, 0, map[], place, -1), IM.Empty, OldObjects(fn, place, bytes), globals, vals);
    FreshOutermost(e, v, i, bytes, s, st);
    CopyEntry(e, v, i, args, bytes, left.args128, |args|);
    EntryArgs(x, args, bytes, left.args128, vals);
    BoundRelated(e, v, s, st);
    var bound := s.(mem := IM.BindArgs(fn, place, vals, |args|, s.mem).value, args := []);
    PendingRelated(e, v, bound, StartVm(v, i, args, left).value, pending);
  }

  /**
   A whole evaluation.  If the IR program, started with the entry values, globals and old
   variable contents, is safe for `n` steps, the compiled one does not crash; unless it hits
   the stack limit it takes the same steps, and its result is the low word of the IR's.
   */
  lemma EvalCorrect(e: IM.Env, v: VmEnv, i: nat, args: seq<Word>, left: VmState, globals: seq<Word>, pending: seq<Val>, n: nat)
    returns (places: seq<Placement>)
    requires Compiled(e, v) && i < |v.execs| && v.execs[i].frameSize <= MAX_STACK_SIZE
    requires |args| == |e.prog.functions[i].argLocals|
    requires GlobalsOk(globals, left.globals) && ArgsOk(pending, left.args, left.args128)
    requires var start := StartIr(e, v, i, args, left, globals, pending);
             start.Some? && IM.Safe(e, start.value, n)
    ensures |places| == n && Eval(v, i, args, left, n) != VCrash
    ensures var start := StartIr(e, v, i, args, left, globals, pending);
            Eval(v, i, args, left, n) != VOverflow ==>
              !IM.Run(e, start.value, places).Stuck? && StepSim(e, v, IM.Run(e, start.value, places), Eval(v, i, args, left, n))
  {
    hide Compiled, Related, StartIr, StartVm, StepSim;
    SameCount(e, v);
    StartRelated(e, v, i, args, left, globals, pending);
    FrameSizeOf(e, v, i);
    var start := StartIr(e, v, i, args, left, globals, pending).value;
    places := RunSimulation(e, v, start, StartVm(v, i, args, left).value, n);
  }
}
