/**
 The moves of a thunk: when its 8-bit fields hold them, and that carrying them out puts every argument
 word into its destination.
 */
module FfiCorrectness {
  import opened Words
  import opened ForeignCalls
  import opened ArgumentPassing
  import opened FfiThunk

  // ---------- positions in the list of moves ----------

  lemma AssignCount(a: Arg, r: Regs)
    requires Passable(a) && r.gpr <= GPR_COUNT && r.fp <= FP_COUNT
    ensures var (ds, end) := Assign(a, r);
            |ds| == Eightbytes(a) >= 1 && end.gpr + end.fp + end.stack == r.gpr + r.fp + r.stack + Eightbytes(a)
  {
    if !InMemory(a) && TakeRegs(ArgClasses(a), r).Some? {
      TakenEnd(ArgClasses(a), r);
    }
  }

  /** Every argument takes a register or a slot, so there are not many of them. */
  lemma {:induction false} FewArguments(args: seq<Arg>, n: nat, ret: Ret)
    requires n <= |args| && AllPassable(args)
    ensures n <= RegsAfter(args, n, ret).gpr + RegsAfter(args, n, ret).fp + RegsAfter(args, n, ret).stack
    ensures RegsAfter(args, n, ret).gpr <= GPR_COUNT && RegsAfter(args, n, ret).fp <= FP_COUNT
    decreases n
  {
    hide Assign, Passable;
    DestinationsConsecutive(args, n, ret, Gpr);
    if n > 0 {
      FewArguments(args, n - 1, ret);
      AssignCount(args[n - 1], RegsAfter(args, n - 1, ret));
    }
  }

  /** Which eightbyte of which argument a move carries. */
  lemma {:induction false} MoveForm(args: seq<Arg>, n: nat, ret: Ret, k: nat) returns (i: nat, e: nat)
    requires n <= |args| && AllPassable(args) && k < |FlatMoves(args, n, ret)|
    ensures i < n && e < Eightbytes(args[i])
    ensures var m := FlatMoves(args, n, ret)[k];
            m.src == FirstArg(ret) + i && m.deref == args[i].StructArg? && m.offset == if args[i].StructArg? then 8 * e else 0
    decreases n
  {
    hide Assign, Passable;
    var before := FlatMoves(args, n - 1, ret);
    FewArguments(args, n - 1, ret);
    AssignCount(args[n - 1], RegsAfter(args, n - 1, ret));
    if k < |before| { i, e := MoveForm(args, n - 1, ret, k); } else { i, e := n - 1, k - |before|; }
  }

  /** Every eightbyte of every argument is carried by some move. */
  lemma {:induction false} MoveOf(args: seq<Arg>, n: nat, ret: Ret, i: nat, e: nat) returns (k: nat)
    requires i < n <= |args| && AllPassable(args) && e < Eightbytes(args[i])
    ensures k < |FlatMoves(args, n, ret)|
    ensures var m := FlatMoves(args, n, ret)[k];
            m.src == FirstArg(ret) + i && m.deref == args[i].StructArg? && m.offset == if args[i].StructArg? then 8 * e else 0
    decreases n
  {
    hide Assign, Passable;
    var before := FlatMoves(args, n - 1, ret);
    FewArguments(args, n - 1, ret);
    AssignCount(args[n - 1], RegsAfter(args, n - 1, ret));
    if i < n - 1 { k := MoveOf(args, n - 1, ret, i, e); } else { k := |before| + e; }
  }

  lemma {:induction false} IndexAt(moves: seq<Move>, f: File, k: nat)
    requires k < |moves| && moves[k].file == f
    ensures |IndicesIn(moves[..k], f)| < |IndicesIn(moves, f)| && IndicesIn(moves, f)[|IndicesIn(moves[..k], f)|] == moves[k].index
    decreases |moves|
  {
    var n := |moves| - 1;
    if k < n {
      IndexAt(moves[..n], f, k);
      assert moves[..n][..k] == moves[..k];
    }
  }

  lemma {:induction false} IndicesGrow(moves: seq<Move>, f: File, k: nat, l: nat)
    requires k < l < |moves| && moves[k].file == f
    ensures |IndicesIn(moves[..k], f)| < |IndicesIn(moves[..l], f)|
    decreases l
  {
    assert moves[..l][..l - 1] == moves[..l - 1];
    if k < l - 1 { IndicesGrow(moves, f, k, l - 1); }
  }

  function Limit(f: File): nat { match f case Gpr => GPR_COUNT case Fp => FP_COUNT case Stack => MAX_STACK }

  /** Destinations exist and no two moves share one; none is the register of a hidden argument. */
  ghost predicate Separate(moves: seq<Move>, ret: Ret) {
    && (forall k :: 0 <= k < |moves| ==> Next(StartRegs(ret), moves[k].file) <= moves[k].index < Limit(moves[k].file))
    && (forall k, l :: 0 <= k < l < |moves| && moves[k].file == moves[l].file ==> moves[k].index < moves[l].index)
  }

  lemma MovesSeparate(args: seq<Arg>, ret: Ret)
    requires RegsAfter(args, |args|, ret).stack <= MAX_STACK
    ensures Separate(FlatMoves(args, |args|, ret), ret)
  {
    hide RegsAfter, FlatMoves, IndicesIn;
    var moves := FlatMoves(args, |args|, ret);
    forall k | 0 <= k < |moves|
      ensures Next(StartRegs(ret), moves[k].file) <= moves[k].index < Limit(moves[k].file)
    {
      DestinationsConsecutive(args, |args|, ret, moves[k].file);
      IndexAt(moves, moves[k].file, k);
    }
    forall k, l | 0 <= k < l < |moves| && moves[k].file == moves[l].file
      ensures moves[k].index < moves[l].index
    {
      DestinationsConsecutive(args, |args|, ret, moves[k].file);
      IndexAt(moves, moves[k].file, k);
      IndexAt(moves, moves[k].file, l);
      IndicesGrow(moves, moves[k].file, k, l);
    }
  }

  predicate SmallStructs(args: seq<Arg>) { forall i :: 0 <= i < |args| && InMemory(args[i]) ==> args[i].size <= 256 }

  /**
   The 8-bit fields hold all moves exactly when every struct passed in memory has at most 256 bytes;
   from there on the offset repeats the struct's beginning.
   */
  lemma FieldsHoldMoves(args: seq<Arg>, ret: Ret)
    requires AllPassable(args) && RegsAfter(args, |args|, ret).stack <= MAX_STACK
    ensures CastAll(FlatMoves(args, |args|, ret)) == FlatMoves(args, |args|, ret) <==> SmallStructs(args)
  {
    hide RegsAfter, FlatMoves, AllPassable;
    var moves := FlatMoves(args, |args|, ret);
    if SmallStructs(args) {
      forall k | 0 <= k < |moves|
        ensures Cast(moves[k]) == moves[k]
      {
        SmallMove(args, ret, k);
      }
    } else {
      var i :| 0 <= i < |args| && InMemory(args[i]) && args[i].size > 256;
      var k := MoveOf(args, |args|, ret, i, 32);
      assert moves[k].offset == 256;
      assert CastAll(moves)[k].offset == 0;
    }
  }

  lemma SmallMove(args: seq<Arg>, ret: Ret, k: nat)
    requires AllPassable(args) && RegsAfter(args, |args|, ret).stack <= MAX_STACK && SmallStructs(args)
    requires k < |FlatMoves(args, |args|, ret)|
    ensures Cast(FlatMoves(args, |args|, ret)[k]) == FlatMoves(args, |args|, ret)[k]
  {
    hide RegsAfter, FlatMoves, AllPassable, Separate;
    var i, e := MoveForm(args, |args|, ret, k);
    FewArguments(args, |args|, ret);
    MovesSeparate(args, ret);
    InLimit(FlatMoves(args, |args|, ret), ret, k);
    FewEightbytes(args[i]);
  }

  lemma InLimit(moves: seq<Move>, ret: Ret, k: nat)
    requires Separate(moves, ret) && k < |moves|
    ensures moves[k].index < 64
  {
  }

  lemma FewEightbytes(a: Arg)
    ensures InMemory(a) && a.size <= 256 ==> Eightbytes(a) <= 32
    ensures !InMemory(a) ==> Eightbytes(a) <= 2
  {
  }

  // ---------- carrying out the moves ----------

  /** The word a move carries; `read` loads eight bytes behind a pointer. */
  function Carried(m: Move, args: seq<Word>, read: (Word, nat) -> Word): Word
    requires m.src < |args|
  {
    if m.deref then read(args[m.src], m.offset) else args[m.src]
  }

  /** The buffers that the call trampoline loads. */
  class CallFrame {
    const gpr: array<Word>
    const fp: array<Word>
    const stack: array<Word>

    constructor ()
      ensures fresh(gpr) && fresh(fp) && fresh(stack)
      ensures gpr.Length == 8 && fp.Length == 8 && stack.Length == 64
      ensures gpr != fp && gpr != stack && fp != stack
    {
      gpr, fp, stack := new Word[8](_ => 0), new Word[8](_ => 0), new Word[64](_ => 0);
    }

    predicate Shaped() {
      gpr.Length == 8 && fp.Length == 8 && stack.Length == 64 && gpr != fp && gpr != stack && fp != stack
    }

    function At(f: File, i: nat): Word
      requires Shaped() && i < Limit(f)
      reads gpr, fp, stack
    {
      match f case Gpr => gpr[i] case Fp => fp[i] case Stack => stack[i]
    }

    predicate Delivered(m: Move, args: seq<Word>, read: (Word, nat) -> Word)
      requires Shaped() && m.src < |args|
      reads gpr, fp, stack
    {
      m.index < Limit(m.file) && At(m.file, m.index) == Carried(m, args, read)
    }

    /** Every move delivers its word; a hidden address goes into the first register. */
    method Load(moves: seq<Move>, ret: Ret, args: seq<Word>, read: (Word, nat) -> Word)
      requires Shaped() && Separate(moves, ret)
      requires HiddenArg(ret) ==> args != []
      requires forall k :: 0 <= k < |moves| ==> moves[k].src < |args|
      modifies gpr, fp, stack
      ensures HiddenArg(ret) ==> At(Gpr, 0) == args[0]
      ensures forall k :: 0 <= k < |moves| ==> Delivered(moves[k], args, read)
    {
      if HiddenArg(ret) { gpr[0] := args[0]; }
      for n := 0 to |moves|
        invariant HiddenArg(ret) ==> gpr[0] == args[0]
        invariant forall k :: 0 <= k < n ==> Delivered(moves[k], args, read)
      {
        var m := moves[n];
        var v := if m.deref then read(args[m.src], m.offset) else args[m.src];
        match m.file {
          case Gpr => gpr[m.index] := v;
          case Fp => fp[m.index] := v;
          case Stack => stack[m.index] := v;
        }
      }
    }
  }
}
