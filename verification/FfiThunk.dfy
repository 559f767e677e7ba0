/**
 The thunk builder with its counters and its list of moves, the thunk's loading of
 registers and stack, and where it reads a result.
 */
module FfiThunk {
  import opened Words
  import opened ForeignCalls
  import opened ArgumentPassing

  // ---------- the 8-bit fields of a move ----------

  function U8(n: nat): nat { n % 256 }

  function Cast(m: Move): Move { m.(src := U8(m.src), offset := U8(m.offset), index := U8(m.index)) }

  function CastAll(ms: seq<Move>): (r: seq<Move>)
    ensures |r| == |ms|
  {
    seq(|ms|, i requires 0 <= i < |ms| => Cast(ms[i]))
  }

  class MoveBuilder {
    var ngpr: nat
    var nfp: nat
    var nstack: nat
    var moves: seq<Move>

    ghost predicate Valid()
      reads this
    {
      ngpr <= GPR_COUNT && nfp <= FP_COUNT
    }

    constructor (hidden: bool)
      ensures Valid() && Taken() == Regs(if hidden then 1 else 0, 0, 0) && moves == []
    {
      ngpr, nfp, nstack, moves := if hidden then 1 else 0, 0, 0, [];
    }

    function Taken(): Regs
      reads this
    {
      Regs(ngpr, nfp, nstack)
    }

    method Push(src: nat, deref: bool, off: nat, file: File, index: nat)
      modifies this`moves
      ensures moves == old(moves) + [Cast(Move(src, deref, off, file, index))]
    {
      moves := moves + [Move(U8(src), deref, U8(off), file, U8(index))];
    }

    method PlaceGpr(src: nat)
      requires Valid()
      modifies this
      ensures Valid() && Placed(old(Taken()), old(moves), src, GprArg)
    {
      ScalarAssigned(GprArg, Taken());
      if ngpr < GPR_COUNT {
        Push(src, false, 0, Gpr, ngpr);
        ngpr := ngpr + 1;
      } else {
        Push(src, false, 0, Stack, nstack);
        nstack := nstack + 1;
      }
    }

    method PlaceFp(src: nat)
      requires Valid()
      modifies this
      ensures Valid() && Placed(old(Taken()), old(moves), src, FpArg)
    {
      ScalarAssigned(FpArg, Taken());
      if nfp < FP_COUNT {
        Push(src, false, 0, Fp, nfp);
        nfp := nfp + 1;
      } else {
        Push(src, false, 0, Stack, nstack);
        nstack := nstack + 1;
      }
    }

    /** One argument has been placed as it is assigned, up to the width of the fields. */
    ghost predicate Placed(before: Regs, already: seq<Move>, src: nat, a: Arg)
      reads this
    {
      && moves == already + CastAll(ArgMoves(src, a, Assign(a, before).0))
      && Taken() == Assign(a, before).1
    }

    /** Counts the registers needed first; either all eightbytes get one or none does. */
    method PlaceStruct(src: nat, kind: StructKind, size: nat) returns (ok: bool)
      requires Valid() && !kind.Memory?
      modifies this
      ensures Valid()
      ensures ok <==> ClassesOf(kind) != []
      ensures ok ==> Placed(old(Taken()), old(moves), src, StructArg(kind, size))
    {
      hide Assign, TakeRegs, ArgMoves, StructMoves, CountInteger;
      var classes := ClassesOf(kind);
      if classes == [] { return false; }
      StructMovesAssigned(src, kind, size, Taken());
      var gNeed := CountNeed(classes);
      var fNeed := |classes| - gNeed;
      PlaceEightbytes(src, classes, ngpr + gNeed <= GPR_COUNT && nfp + fNeed <= FP_COUNT);
      return true;
    }

    method CountNeed(classes: seq<Class>) returns (gNeed: nat)
      ensures gNeed == CountInteger(classes)
    {
      gNeed := 0;
      for e := 0 to |classes|
        invariant gNeed == CountInteger(classes[..e])
      {
        assert classes[..e + 1][..e] == classes[..e];
        if classes[e].Integer? { gNeed := gNeed + 1; }
      }
      assert classes[..|classes|] == classes;
    }

    method PlaceEightbytes(src: nat, classes: seq<Class>, fits: bool)
      modifies this
      ensures moves == old(moves) + CastAll(StructMoves(src, classes, old(Taken()), fits, |classes|))
      ensures Taken() == if fits then Regs(old(ngpr) + CountInteger(classes), old(nfp) + (|classes| - CountInteger(classes)), old(nstack))
                         else Regs(old(ngpr), old(nfp), old(nstack) + |classes|)
    {
      ghost var before, already := Taken(), moves;
      for e := 0 to |classes|
        invariant moves == already + CastAll(StructMoves(src, classes, before, fits, e))
        invariant ngpr == before.gpr + (if fits then CountInteger(classes[..e]) else 0)
        invariant nfp == before.fp + (if fits then e - CountInteger(classes[..e]) else 0)
        invariant nstack == before.stack + (if fits then 0 else e)
      {
        assert classes[..e + 1][..e] == classes[..e];
        if !fits {
          Push(src, true, e * 8, Stack, nstack);
          nstack := nstack + 1;
        } else if classes[e].Integer? {
          Push(src, true, e * 8, Gpr, ngpr);
          ngpr := ngpr + 1;
        } else {
          Push(src, true, e * 8, Fp, nfp);
          nfp := nfp + 1;
        }
      }
      assert classes[..|classes|] == classes;
    }

    /** A struct in memory is copied to the stack word by word. */
    method PlaceMemory(src: nat, size: nat) returns (ok: bool)
      requires Valid()
      modifies this
      ensures Valid()
      ensures ok <==> size > 0
      ensures ok ==> Placed(old(Taken()), old(moves), src, StructArg(Memory, size))
    {
      if size == 0 { return false; }
      ghost var before, already := Taken(), moves;
      ghost var all := ArgMoves(src, StructArg(Memory, size), Slots(before.stack, (size + 7) / 8));
      var off: nat, n: nat := 0, 0;
      while off < size
        invariant off == 8 * n && n <= (size + 7) / 8
        invariant moves == already + CastAll(all[..n])
        invariant ngpr == before.gpr && nfp == before.fp && nstack == before.stack + n
        decreases size - off
      {
        assert all[..n + 1] == all[..n] + [all[n]];
        Push(src, true, off, Stack, nstack);
        nstack := nstack + 1;
        off := off + 8;
        n := n + 1;
      }
      assert all[..n] == all;
      return true;
    }
  }

  lemma ScalarAssigned(a: Arg, r: Regs)
    requires a.GprArg? || a.FpArg?
    ensures Assign(a, r) ==
            if a.GprArg? && r.gpr < GPR_COUNT then ([Dest(Gpr, r.gpr)], r.(gpr := r.gpr + 1))
            else if a.FpArg? && r.fp < FP_COUNT then ([Dest(Fp, r.fp)], r.(fp := r.fp + 1))
            else ([Dest(Stack, r.stack)], r.(stack := r.stack + 1))
  {
    var classes := ArgClasses(a);
    assert classes[1..] == [];
    assert Slots(r.stack, 1) == [Dest(Stack, r.stack)];
    var d := if a.GprArg? then Dest(Gpr, r.gpr) else Dest(Fp, r.fp);
    var next := if a.GprArg? then r.(gpr := r.gpr + 1) else r.(fp := r.fp + 1);
    assert TakeRegs([], next) == Some(([], next));
    assert [d] + [] == [d];
  }

  function CountInteger(classes: seq<Class>): (r: nat)
    ensures r <= |classes|
  {
    if classes == [] then 0
    else CountInteger(classes[..|classes| - 1]) + if classes[|classes| - 1].Integer? then 1 else 0
  }

  /** Moves of the first `n` eightbytes of a struct in registers or on the stack. */
  function StructMoves(src: nat, classes: seq<Class>, r: Regs, fits: bool, n: nat): seq<Move>
    requires n <= |classes|
  {
    if n == 0 then [] else
    var before := CountInteger(classes[..n - 1]);
    StructMoves(src, classes, r, fits, n - 1) +
    [if !fits then Move(src, true, (n - 1) * 8, Stack, r.stack + n - 1)
     else if classes[n - 1].Integer? then Move(src, true, (n - 1) * 8, Gpr, r.gpr + before)
     else Move(src, true, (n - 1) * 8, Fp, r.fp + (n - 1 - before))]
  }

  predicate Fits(classes: seq<Class>, r: Regs) {
    r.gpr + CountInteger(classes) <= GPR_COUNT && r.fp + (|classes| - CountInteger(classes)) <= FP_COUNT
  }

  lemma {:induction false} CountFront(classes: seq<Class>)
    requires classes != []
    ensures CountInteger(classes) == (if classes[0].Integer? then 1 else 0) + CountInteger(classes[1..])
    decreases |classes|
  {
    var n := |classes| - 1;
    if n > 0 {
      CountFront(classes[..n]);
      assert classes[..n][1..] == classes[1..][..n - 1] && classes[1..][n - 1] == classes[n];
    } else {
      assert classes[..0] == [] && classes[1..] == [];
    }
  }

  /** Counting the need up front decides what taking registers one by one decides. */
  lemma {:induction false} FitsIffTaken(classes: seq<Class>, r: Regs)
    requires classes != [] && r.gpr <= GPR_COUNT && r.fp <= FP_COUNT
    ensures Fits(classes, r) <==> TakeRegs(classes, r).Some?
    decreases |classes|
  {
    CountFront(classes);
    assert TakeRegs([], r).Some?;
    var next := if classes[0].Integer? then r.(gpr := r.gpr + 1) else r.(fp := r.fp + 1);
    if |classes| > 1 {
      CountFront(classes[1..]);
      if next.gpr <= GPR_COUNT && next.fp <= FP_COUNT { FitsIffTaken(classes[1..], next); }
    } else {
      assert classes[1..] == [];
    }
  }

  /** The register of eightbyte `e`, counted from those before it. */
  lemma {:induction false} TakenAt(classes: seq<Class>, r: Regs, e: nat)
    requires TakeRegs(classes, r).Some? && e < |classes|
    ensures var ds := TakeRegs(classes, r).value.0;
            |ds| == |classes| &&
            ds[e] == (if classes[e].Integer? then Dest(Gpr, r.gpr + CountInteger(classes[..e]))
                      else Dest(Fp, r.fp + (e - CountInteger(classes[..e]))))
    decreases |classes|
  {
    var next := if classes[0].Integer? then r.(gpr := r.gpr + 1) else r.(fp := r.fp + 1);
    if |classes| > 1 { TakenAt(classes[1..], next, if e > 0 then e - 1 else 0); }
    if e > 0 {
      CountFront(classes[..e]);
      assert classes[..e][1..] == classes[1..][..e - 1];
    }
  }

  lemma {:induction false} TakenEnd(classes: seq<Class>, r: Regs)
    requires TakeRegs(classes, r).Some?
    ensures var end := TakeRegs(classes, r).value.1;
            |TakeRegs(classes, r).value.0| == |classes| &&
            end == Regs(r.gpr + CountInteger(classes), r.fp + (|classes| - CountInteger(classes)), r.stack)
    decreases |classes|
  {
    if classes != [] {
      CountFront(classes);
      TakenEnd(classes[1..], if classes[0].Integer? then r.(gpr := r.gpr + 1) else r.(fp := r.fp + 1));
    }
  }

  lemma {:induction false} StructMoveAt(src: nat, classes: seq<Class>, r: Regs, fits: bool, n: nat, e: nat)
    requires e < n <= |classes|
    ensures var before := CountInteger(classes[..e]);
            |StructMoves(src, classes, r, fits, n)| == n &&
            StructMoves(src, classes, r, fits, n)[e] ==
              if !fits then Move(src, true, e * 8, Stack, r.stack + e)
              else if classes[e].Integer? then Move(src, true, e * 8, Gpr, r.gpr + before)
              else Move(src, true, e * 8, Fp, r.fp + (e - before))
    decreases n
  {
    if e < n - 1 { StructMoveAt(src, classes, r, fits, n - 1, e); }
    if n > 1 { StructMoveAt(src, classes, r, fits, n - 1, n - 2); }
  }

  /** Counting the needed registers first gives the moves of taking them one by one. */
  lemma StructMovesAssigned(src: nat, kind: StructKind, size: nat, r: Regs)
    requires !kind.Memory? && ClassesOf(kind) != [] && r.gpr <= GPR_COUNT && r.fp <= FP_COUNT
    ensures var classes, a := ClassesOf(kind), StructArg(kind, size);
            var fits := Fits(classes, r);
            StructMoves(src, classes, r, fits, |classes|) == ArgMoves(src, a, Assign(a, r).0) &&
            Assign(a, r).1 == if fits then Regs(r.gpr + CountInteger(classes), r.fp + (|classes| - CountInteger(classes)), r.stack)
                              else r.(stack := r.stack + |classes|)
  {
    hide TakeRegs, CountInteger, StructMoves, Fits;
    var classes, a := ClassesOf(kind), StructArg(kind, size);
    var fits := Fits(classes, r);
    FitsIffTaken(classes, r);
    if fits { TakenEnd(classes, r); }
    var ms, want := StructMoves(src, classes, r, fits, |classes|), ArgMoves(src, a, Assign(a, r).0);
    StructMoveAt(src, classes, r, fits, |classes|, 0);
    forall e | 0 <= e < |classes|
      ensures ms[e] == want[e]
    {
      StructMoveAt(src, classes, r, fits, |classes|, e);
      if fits { TakenAt(classes, r, e); }
    }
  }

  // ---------- building the thunk ----------

  datatype ResSrc = Rax | Rdx | Xmm0 | Xmm1

  /** Where the ABI returns each eightbyte: the next of rax, rdx or of xmm0, xmm1. */
  function AbiResult(classes: seq<Class>, n: nat): seq<ResSrc>
    requires n <= |classes|
  {
    if n == 0 then [] else
    var ints := CountInteger(classes[..n - 1]);
    AbiResult(classes, n - 1) +
    [if classes[n - 1].Integer? then (if ints == 0 then Rax else Rdx) else if n - 1 - ints == 0 then Xmm0 else Xmm1]
  }

  datatype RetMode = RVoid | RGpr | RFp | RStructRegs(sources: seq<ResSrc>, copyBytes: nat) | RStructMem

  datatype Thunk = Thunk(moves: seq<Move>, stackCount: nat, hasSret: bool, mode: RetMode)

  function ResultSources(kind: StructKind): seq<ResSrc> {
    match kind
    case Int => [Rax]
    case Sse => [Xmm0]
    case IntInt => [Rax, Rdx]
    case SseSse => [Xmm0, Xmm1]
    case IntSse => [Rax, Xmm0]
    case SseInt => [Xmm0, Rax]
    case _ => []
  }

  /** A struct result is read from the registers in which the ABI returns it. */
  lemma ResultMatchesAbi(kind: StructKind)
    ensures ResultSources(kind) == AbiResult(ClassesOf(kind), |ClassesOf(kind)|)
  {
    var classes := ClassesOf(kind);
    if |classes| == 2 {
      assert classes[..1] == [classes[0]] && classes[..1][..0] == [] && classes[..0] == [];
      assert AbiResult(classes, 1) == [if classes[0].Integer? then Rax else Xmm0];
      assert CountInteger([]) == 0;
      assert CountInteger(classes[..1]) == if classes[0].Integer? then 1 else 0;
    } else if |classes| == 1 {
      assert classes[..0] == [];
    }
  }

  function ResultMode(ret: Ret): Option<RetMode> {
    match ret
    case VoidRet => Some(RVoid)
    case GprRet => Some(RGpr)
    case FpRet => Some(RFp)
    case StructRet(kind, size) =>
      if kind.Memory? then Some(RStructMem)
      else if ClassesOf(kind) == [] then None
      else
        var classBytes := 8 * |ClassesOf(kind)|;
        Some(RStructRegs(ResultSources(kind), if size > 0 && size < classBytes then size else classBytes))
    case BadRet => None
  }

  predicate AllPassable(args: seq<Arg>) { forall i :: 0 <= i < |args| ==> Passable(args[i]) }

  /** Fails on arguments that it cannot pass, on too much stack, and on results it cannot return. */
  method BuildFFI(args: seq<Arg>, ret: Ret) returns (thunk: Option<Thunk>)
    ensures thunk.Some? <==> AllPassable(args) && RegsAfter(args, |args|, ret).stack <= MAX_STACK && ResultMode(ret).Some?
    ensures thunk.Some? ==>
              thunk.value == Thunk(CastAll(FlatMoves(args, |args|, ret)), RegsAfter(args, |args|, ret).stack, HiddenArg(ret), ResultMode(ret).value)
  {
    hide Assign, ArgMoves, Cast;
    var b := new MoveBuilder(HiddenArg(ret));
    var base := FirstArg(ret);
    for i := 0 to |args|
      invariant fresh(b) && b.Valid()
      invariant b.Taken() == RegsAfter(args, i, ret) && b.moves == CastAll(FlatMoves(args, i, ret))
      invariant forall j :: 0 <= j < i ==> Passable(args[j])
    {
      var src := U8(base + i);
      ghost var before, already := b.Taken(), b.moves;
      var ok := true;
      match args[i] {
        case GprArg => b.PlaceGpr(src);
        case FpArg => b.PlaceFp(src);
        case StructArg(kind, size) =>
          if kind.Memory? { ok := b.PlaceMemory(src, size); } else { ok := b.PlaceStruct(src, kind, size); }
        case BadArg => ok := false;
      }
      if !ok { return None; }
      CastSource(base + i, args[i], Assign(args[i], before).0);
      CastConcat(FlatMoves(args, i, ret), ArgMoves(base + i, args[i], Assign(args[i], before).0));
    }
    if b.nstack > MAX_STACK { return None; }
    var mode := ResultMode(ret);
    if mode.None? { return None; }
    return Some(Thunk(b.moves, b.nstack, HiddenArg(ret), mode.value));
  }

  /** Casting the source number twice does no more than casting it once. */
  lemma CastSource(src: nat, a: Arg, ds: seq<Dest>)
    ensures CastAll(ArgMoves(U8(src), a, ds)) == CastAll(ArgMoves(src, a, ds))
  {
  }

  lemma CastConcat(a: seq<Move>, b: seq<Move>)
    ensures CastAll(a + b) == CastAll(a) + CastAll(b)
  {
  }
}
