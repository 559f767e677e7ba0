/**
 Argument passing on x86-64: how the thunk builder assigns registers and stack slots to arguments
 that are already classified, and that no two of them meet.
 */
module ArgumentPassing {
  import opened Words
  import opened ForeignCalls

  const GPR_COUNT: nat := 6
  const FP_COUNT: nat := 8
  const MAX_STACK: nat := 64

  datatype File = Gpr | Fp | Stack

  /** Source argument, whether it is a pointer to follow, byte offset behind it, and the destination. */
  datatype Move = Move(src: nat, deref: bool, offset: nat, file: File, index: nat)

  /** An argument as its kind says; `size` is used for structs in memory. */
  datatype Arg = GprArg | FpArg | StructArg(kind: StructKind, size: nat) | BadArg

  datatype Ret = VoidRet | GprRet | FpRet | StructRet(kind: StructKind, size: nat) | BadRet

  // ---------- assignment ----------

  datatype Dest = Dest(file: File, index: nat)

  /** The next free register of each kind and the next stack slot. */
  datatype Regs = Regs(gpr: nat, fp: nat, stack: nat)

  /** One register for each eightbyte in turn; nothing if they run out. */
  function TakeRegs(classes: seq<Class>, r: Regs): Option<(seq<Dest>, Regs)>
    decreases |classes|
  {
    if classes == [] then Some(([], r)) else
    var first: Option<(Dest, Regs)> :=
      if classes[0].Integer? then (if r.gpr < GPR_COUNT then Some((Dest(Gpr, r.gpr), r.(gpr := r.gpr + 1))) else None)
      else if r.fp < FP_COUNT then Some((Dest(Fp, r.fp), r.(fp := r.fp + 1))) else None;
    match first
    case None => None
    case Some((d, next)) =>
      match TakeRegs(classes[1..], next)
      case None => None
      case Some((rest, end)) => Some(([d] + rest, end))
  }

  function Slots(from: nat, n: nat): (r: seq<Dest>)
    ensures |r| == n
  {
    seq(n, i requires 0 <= i < n => Dest(Stack, from + i))
  }

  function Eightbytes(a: Arg): nat {
    match a
    case StructArg(kind, size) => if kind.Memory? then (size + 7) / 8 else |ClassesOf(kind)|
    case _ => 1
  }

  function ArgClasses(a: Arg): seq<Class> {
    match a
    case GprArg => [Integer]
    case FpArg => [SseClass]
    case StructArg(kind, _) => ClassesOf(kind)
    case BadArg => []
  }

  predicate InMemory(a: Arg) { a.StructArg? && a.kind.Memory? }

  /** A register for each eightbyte, or, if there are not enough for all, the whole argument on the stack. */
  function Assign(a: Arg, r: Regs): (seq<Dest>, Regs) {
    var onStack := (Slots(r.stack, Eightbytes(a)), r.(stack := r.stack + Eightbytes(a)));
    if InMemory(a) then onStack else
    match TakeRegs(ArgClasses(a), r) case None => onStack case Some(taken) => taken
  }

  predicate Passable(a: Arg) {
    match a
    case BadArg => false
    case StructArg(kind, size) => if kind.Memory? then size > 0 else ClassesOf(kind) != []
    case _ => true
  }

  /** A move for each destination; through a pointer the eightbytes follow each other. */
  function WordMoves(src: nat, deref: bool, dests: seq<Dest>): (r: seq<Move>)
    ensures |r| == |dests|
  {
    seq(|dests|, e requires 0 <= e < |dests| => Move(src, deref, if deref then 8 * e else 0, dests[e].file, dests[e].index))
  }

  function ArgMoves(src: nat, a: Arg, dests: seq<Dest>): (r: seq<Move>)
    ensures |r| == |dests|
  {
    WordMoves(src, a.StructArg?, dests)
  }

  /** A struct returned in memory passes its address as a hidden first argument. */
  predicate HiddenArg(ret: Ret) { ret.StructRet? && ret.kind.Memory? }

  function StartRegs(ret: Ret): Regs { Regs(if HiddenArg(ret) then 1 else 0, 0, 0) }

  /** The values handed to the thunk start with the address for a struct result. */
  function FirstArg(ret: Ret): nat { if ret.StructRet? then 1 else 0 }

  function RegsAfter(args: seq<Arg>, n: nat, ret: Ret): Regs
    requires n <= |args|
  {
    if n == 0 then StartRegs(ret) else Assign(args[n - 1], RegsAfter(args, n - 1, ret)).1
  }

  /** The moves for the first `n` arguments, stack slots taken one after another. */
  function FlatMoves(args: seq<Arg>, n: nat, ret: Ret): seq<Move>
    requires n <= |args|
  {
    if n == 0 then [] else
    FlatMoves(args, n - 1, ret) + ArgMoves(FirstArg(ret) + n - 1, args[n - 1], Assign(args[n - 1], RegsAfter(args, n - 1, ret)).0)
  }

  // ---------- what that assignment guarantees ----------

  /** Destinations in one file, in order. */
  function IndicesIn(moves: seq<Move>, f: File): seq<nat> {
    if moves == [] then [] else
    IndicesIn(moves[..|moves| - 1], f) + if moves[|moves| - 1].file == f then [moves[|moves| - 1].index] else []
  }

  function Range(from: nat, to: nat): (r: seq<nat>)
    requires from <= to
    ensures |r| == to - from
  {
    seq(to - from, i requires 0 <= i < to - from => from + i)
  }

  function Next(r: Regs, f: File): nat {
    match f case Gpr => r.gpr case Fp => r.fp case Stack => r.stack
  }

  lemma {:induction false} IndicesConcat(a: seq<Move>, b: seq<Move>, f: File)
    ensures IndicesIn(a + b, f) == IndicesIn(a, f) + IndicesIn(b, f)
    decreases |b|
  {
    if b == [] {
      assert a + b == a;
    } else {
      assert (a + b)[..|a + b| - 1] == a + b[..|b| - 1];
      IndicesConcat(a, b[..|b| - 1], f);
    }
  }

  function DestIndices(ds: seq<Dest>, f: File): seq<nat> {
    if ds == [] then [] else (if ds[0].file == f then [ds[0].index] else []) + DestIndices(ds[1..], f)
  }

  lemma {:induction false} MovesIndices(src: nat, a: Arg, ds: seq<Dest>, n: nat, f: File)
    requires n <= |ds|
    ensures IndicesIn(ArgMoves(src, a, ds)[..n], f) == DestIndices(ds[..n], f)
    decreases n
  {
    var ms := ArgMoves(src, a, ds);
    if n > 0 {
      MovesIndices(src, a, ds, n - 1, f);
      assert ms[..n][..n - 1] == ms[..n - 1] && ms[..n][n - 1] == ms[n - 1];
      DestSnoc(ds[..n - 1], ds[n - 1], f);
      assert ds[..n] == ds[..n - 1] + [ds[n - 1]];
    }
  }

  function One(d: Dest, f: File): seq<nat> { if d.file == f then [d.index] else [] }

  lemma DestCons(ds: seq<Dest>, f: File)
    requires ds != []
    ensures DestIndices(ds, f) == One(ds[0], f) + DestIndices(ds[1..], f)
  {
  }

  lemma {:induction false} DestSnoc(ds: seq<Dest>, d: Dest, f: File)
    ensures DestIndices(ds + [d], f) == DestIndices(ds, f) + One(d, f)
    decreases |ds|
  {
    if ds == [] {
      assert [] + [d] == [d] && [d][1..] == [];
      DestCons([d], f);
    } else {
      var all := ds + [d];
      assert all[0] == ds[0] && all[1..] == ds[1..] + [d];
      DestCons(all, f);
      DestCons(ds, f);
      hide DestIndices, One;
      DestSnoc(ds[1..], d, f);
      assert One(ds[0], f) + (DestIndices(ds[1..], f) + One(d, f)) == One(ds[0], f) + DestIndices(ds[1..], f) + One(d, f);
    }
  }

  lemma {:induction false} SlotIndices(from: nat, n: nat, f: File)
    ensures DestIndices(Slots(from, n), f) == if f.Stack? then Range(from, from + n) else []
    decreases n
  {
    if n > 0 {
      SlotIndices(from, n - 1, f);
      var last := Dest(Stack, from + n - 1);
      assert Slots(from, n) == Slots(from, n - 1) + [last];
      DestSnoc(Slots(from, n - 1), last, f);
      hide DestIndices, Slots;
      assert Range(from, from + n) == Range(from, from + n - 1) + [from + n - 1];
    }
  }

  lemma RangeFront(from: nat, to: nat)
    requires from < to
    ensures Range(from, to) == [from] + Range(from + 1, to)
  {
  }

  lemma {:induction false} TakenIndices(classes: seq<Class>, r: Regs, f: File)
    requires TakeRegs(classes, r).Some?
    ensures var (ds, end) := TakeRegs(classes, r).value;
            Next(r, f) <= Next(end, f) && DestIndices(ds, f) == Range(Next(r, f), Next(end, f)) &&
            |ds| == |classes| && end.stack == r.stack && (r.gpr <= GPR_COUNT ==> end.gpr <= GPR_COUNT) && (r.fp <= FP_COUNT ==> end.fp <= FP_COUNT)
    decreases |classes|
  {
    hide DestIndices, Range;
    if classes == [] {
      NoDests(r, f);
    } else {
      var next := if classes[0].Integer? then r.(gpr := r.gpr + 1) else r.(fp := r.fp + 1);
      TakenIndices(classes[1..], next, f);
      var d := if classes[0].Integer? then Dest(Gpr, r.gpr) else Dest(Fp, r.fp);
      var (rest, end) := TakeRegs(classes[1..], next).value;
      DestCons([d] + rest, f);
      assert ([d] + rest)[1..] == rest;
      if d.file == f {
        RangeFront(Next(r, f), Next(end, f));
      } else {
        assert [] + DestIndices(rest, f) == DestIndices(rest, f);
      }
    }
  }

  lemma NoDests(r: Regs, f: File)
    ensures DestIndices([], f) == Range(Next(r, f), Next(r, f))
  {
  }

  lemma AssignIndices(a: Arg, r: Regs, f: File)
    ensures var (ds, end) := Assign(a, r);
            Next(r, f) <= Next(end, f) && DestIndices(ds, f) == Range(Next(r, f), Next(end, f)) &&
            (r.gpr <= GPR_COUNT ==> end.gpr <= GPR_COUNT) && (r.fp <= FP_COUNT ==> end.fp <= FP_COUNT)
  {
    hide TakeRegs, DestIndices;
    SlotIndices(r.stack, Eightbytes(a), f);
    if TakeRegs(ArgClasses(a), r).Some? { TakenIndices(ArgClasses(a), r, f); }
  }

  /**
   In each file the destinations are consecutive in argument order: no register and no stack
   slot is used twice, registers exist, and the stack is filled from slot 0 without gaps.
   */
  lemma {:induction false} DestinationsConsecutive(args: seq<Arg>, n: nat, ret: Ret, f: File)
    requires n <= |args|
    ensures var end := RegsAfter(args, n, ret);
            Next(StartRegs(ret), f) <= Next(end, f) &&
            IndicesIn(FlatMoves(args, n, ret), f) == Range(Next(StartRegs(ret), f), Next(end, f)) &&
            end.gpr <= GPR_COUNT && end.fp <= FP_COUNT
    decreases n
  {
    hide Assign, DestIndices, IndicesIn;
    if n == 0 {
      NoMoves(f);
    } else {
      DestinationsConsecutive(args, n - 1, ret, f);
      var r := RegsAfter(args, n - 1, ret);
      var (ds, end) := Assign(args[n - 1], r);
      AssignIndices(args[n - 1], r, f);
      var ms := ArgMoves(FirstArg(ret) + n - 1, args[n - 1], ds);
      MovesIndices(FirstArg(ret) + n - 1, args[n - 1], ds, |ds|, f);
      assert ms[..|ds|] == ms && ds[..|ds|] == ds;
      IndicesConcat(FlatMoves(args, n - 1, ret), ms, f);
      var s := Next(StartRegs(ret), f);
      assert Range(s, Next(r, f)) + Range(Next(r, f), Next(end, f)) == Range(s, Next(end, f));
    }
  }

  lemma NoMoves(f: File)
    ensures IndicesIn([], f) == []
  {
  }

  /** An argument is all in registers or all on the stack. */
  lemma AllOrNothing(a: Arg, r: Regs)
    requires Passable(a)
    ensures var ds := Assign(a, r).0;
            |ds| == Eightbytes(a) &&
            ((forall e :: 0 <= e < |ds| ==> ds[e].file.Stack?) || (forall e :: 0 <= e < |ds| ==> !ds[e].file.Stack?))
  {
    if !InMemory(a) && TakeRegs(ArgClasses(a), r).Some? { TakenInRegs(ArgClasses(a), r); }
  }

  lemma {:induction false} TakenInRegs(classes: seq<Class>, r: Regs)
    requires TakeRegs(classes, r).Some?
    ensures var ds := TakeRegs(classes, r).value.0;
            |ds| == |classes| && forall e :: 0 <= e < |ds| ==> !ds[e].file.Stack?
    decreases |classes|
  {
    if classes != [] {
      TakenInRegs(classes[1..], if classes[0].Integer? then r.(gpr := r.gpr + 1) else r.(fp := r.fp + 1));
    }
  }
}
