/**
 Foreign calls from the types of a signature: the ABI's own assignment of registers and stack slots,
 section 3.2.3 of the System V AMD64 ABI, and when the thunk that is built for the signature makes it.
 */
module ForeignSignatures {
  import opened Words
  import opened Types
  import opened StructLayout
  import opened ForeignCalls
  import opened ArgumentPassing
  import opened FfiThunk
  import opened FfiCorrectness

  // ---------- the ABI ----------

  /** The classes of the eightbytes of a value; with more than two it is passed in memory. */
  function AbiClasses(t: Type): (r: seq<Class>) {
    if AbiSize(t) > 16 then [] else seq(AbiWords(t), e requires 0 <= e < AbiWords(t) => LeafClass(t, 0, e))
  }

  function AbiWords(t: Type): nat { (AbiSize(t) + 7) / 8 }

  /** A stack argument starts at a multiple of its alignment, but at least of eight bytes. */
  function StackStart(t: Type, next: nat): nat {
    if AbiAlign(t) >= 16 then next + next % 2 else next
  }

  /** rdi, rsi, rdx, rcx, r8 and r9; xmm0 to xmm7. */
  const ABI_GENERAL: nat := 6
  const ABI_VECTOR: nat := 8

  /** Integers among the first `n` eightbytes. */
  function Integers(cs: seq<Class>, n: nat): (r: nat)
    requires n <= |cs|
    ensures r <= n
  {
    if n == 0 then 0 else Integers(cs, n - 1) + if cs[n - 1] == Integer then 1 else 0
  }

  /** The registers that a value gets: all that it needs, each eightbyte the next of its kind, or none. */
  function AbiRegs(t: Type, r: Regs): Option<(seq<Dest>, Regs)> {
    var cs := AbiClasses(t);
    var ints := Integers(cs, |cs|);
    if AbiSize(t) > 16 || r.gpr + ints > ABI_GENERAL || r.fp + (|cs| - ints) > ABI_VECTOR then None else
    Some((seq(|cs|, e requires 0 <= e < |cs| =>
            if cs[e] == Integer then Dest(Gpr, r.gpr + Integers(cs, e)) else Dest(Fp, r.fp + (e - Integers(cs, e)))),
          Regs(r.gpr + ints, r.fp + (|cs| - ints), r.stack)))
  }

  function AbiAssign(t: Type, r: Regs): (seq<Dest>, Regs) {
    match AbiRegs(t, r)
    case Some(taken) => taken
    case None => (Slots(StackStart(t, r.stack), AbiWords(t)), r.(stack := StackStart(t, r.stack) + AbiWords(t)))
  }

  /** A struct that is returned in memory takes the first register for its address; an empty one is not returned at all. */
  predicate AbiHidden(ret: Type) { ret.Struct? && AbiSize(ret) > 16 }

  function AbiRegsAfter(ts: seq<Type>, n: nat, ret: Type): Regs
    requires n <= |ts|
  {
    if n == 0 then Regs(if AbiHidden(ret) then 1 else 0, 0, 0) else AbiAssign(ts[n - 1], AbiRegsAfter(ts, n - 1, ret)).1
  }

  /** Where the words of the first `n` arguments go; the values start with an address if a struct is returned. */
  function AbiMoves(ts: seq<Type>, n: nat, ret: Type): seq<Move>
    requires n <= |ts|
  {
    if n == 0 then [] else
    AbiMoves(ts, n - 1, ret) +
    WordMoves((if ret.Struct? then 1 else 0) + n - 1, ts[n - 1].Struct?, AbiAssign(ts[n - 1], AbiRegsAfter(ts, n - 1, ret)).0)
  }

  // ---------- the code ----------

  predicate IsGprScalar(t: Type) {
    t.Ptr? || (t.Prim? && (t.kind.I1? || t.kind.I8? || t.kind.I16? || t.kind.I32? || t.kind.I64? ||
                           t.kind.U8? || t.kind.U16? || t.kind.U32? || t.kind.U64?))
  }

  function ArgOf(t: Type): Arg {
    if t.Struct? then StructArg(KindOfStruct(t.fields), SizeInBytes(t))
    else if t == Prim(F64) then FpArg
    else if IsGprScalar(t) then GprArg
    else BadArg
  }

  function RetOf(t: Type): Ret {
    if t.Struct? then StructRet(KindOfStruct(t.fields), SizeInBytes(t))
    else if t == Prim(Void) then VoidRet
    else if t == Prim(F64) then FpRet
    else if IsGprScalar(t) then GprRet
    else BadRet
  }

  function ArgsOf(ts: seq<Type>): (r: seq<Arg>)
    ensures |r| == |ts|
  {
    seq(|ts|, i requires 0 <= i < |ts| => ArgOf(ts[i]))
  }

  // ---------- one argument ----------

  /** Structs have C layout: the others are not the C program's structs in the first place. */
  predicate CLaid(t: Type) { t.Struct? ==> CLike(t) }

  /** Every eightbyte with a part of a nested struct has an integer in it. */
  predicate RightClasses(t: Type) { t.Struct? ==> NestedWithIntegers(t.fields) }

  lemma StructAgrees(fields: seq<Type>)
    requires CLike(Struct(fields))
    ensures var t, kind := Struct(fields), KindOfStruct(fields);
            SizeInBytes(t) == AbiSize(t) && (kind.Memory? <==> AbiSize(t) == 0 || AbiSize(t) > 16) &&
            (!kind.Memory? ==> |ClassesOf(kind)| == |AbiClasses(t)| == AbiWords(t) >= 1 &&
                               (ClassesOf(kind) == AbiClasses(t) <==> RightClasses(t)))
  {
    hide SizeInBytes, AbiSize, LeafClass, CLike, KindOfStruct, NestedWithIntegers;
    var t, kind := Struct(fields), KindOfStruct(fields);
    SizeMatchesAbi(t);
    KindMatchesAbi(fields);
    if !kind.Memory? {
      assert forall e :: 0 <= e < |AbiClasses(t)| ==> AbiClasses(t)[e] == LeafClass(t, 0, e);
    }
  }

  lemma ScalarAgrees(t: Type)
    requires t == Prim(F64) || IsGprScalar(t)
    ensures AbiClasses(t) == ArgClasses(ArgOf(t)) && AbiWords(t) == 1 && AbiAlign(t) < 16 && AbiSize(t) <= 16
  {
    assert Touches(0, SizeInBytes(t), 0);
    assert LeafClass(t, 0, 0) == FieldClass(t);
  }

  /** For every argument that can be passed, the code's eightbytes are the ABI's, and so are their classes exactly when they are right. */
  lemma ArgAgrees(t: Type)
    requires CLaid(t) && Passable(ArgOf(t))
    ensures AbiWords(t) == Eightbytes(ArgOf(t)) >= 1
    ensures InMemory(ArgOf(t)) <==> AbiSize(t) > 16
    ensures !InMemory(ArgOf(t)) ==> |AbiClasses(t)| == |ArgClasses(ArgOf(t))| == AbiWords(t)
    ensures !InMemory(ArgOf(t)) ==> (AbiClasses(t) == ArgClasses(ArgOf(t)) <==> RightClasses(t))
  {
    hide SizeInBytes, AbiSize, KindOfStruct, AbiClasses, CLike, NestedWithIntegers;
    if t.Struct? {
      StructAgrees(t.fields);
    } else {
      ScalarAgrees(t);
    }
  }

  /** The argument goes on the stack, has to start at a multiple of 16, and the next slot does not. */
  predicate Misplaced(t: Type, r: Regs) { AbiAlign(t) >= 16 && r.stack % 2 == 1 && AbiRegs(t, r).None? }

  /** The code takes a nested struct of floating point for integers, and there are registers for it. */
  predicate Misclassed(t: Type, r: Regs) {
    !RightClasses(t) && AbiSize(t) <= 16 && (AbiRegs(t, r).Some? || TakeRegs(ArgClasses(ArgOf(t)), r).Some?)
  }

  predicate Fits(t: Type, r: Regs) { !Misplaced(t, r) && !Misclassed(t, r) }

  predicate InFile(r: Regs) { r.gpr <= GPR_COUNT && r.fp <= FP_COUNT }

  lemma {:induction false} SameCountOf(cs: seq<Class>, n: nat)
    requires n <= |cs|
    ensures Integers(cs, n) == CountInteger(cs[..n])
    decreases n
  {
    if n > 0 {
      SameCountOf(cs, n - 1);
      assert cs[..n][..n - 1] == cs[..n - 1];
    }
  }

  /** Taking one register after another gives the registers of the ABI. */
  lemma RegsAgree(t: Type, r: Regs)
    requires InFile(r) && AbiSize(t) <= 16
    ensures AbiRegs(t, r) == TakeRegs(AbiClasses(t), r)
  {
    hide TakeRegs, CountInteger, Integers, AbiClasses;
    var cs := AbiClasses(t);
    SameCountOf(cs, |cs|);
    assert cs[..|cs|] == cs;
    if cs == [] {
      NothingTaken(r);
    } else {
      FitsIffTaken(cs, r);
      if TakeRegs(cs, r).Some? {
        TakenEnd(cs, r);
        forall e | 0 <= e < |cs| ensures AbiRegs(t, r).value.0[e] == TakeRegs(cs, r).value.0[e] {
          TakenAt(cs, r, e);
          SameCountOf(cs, e);
        }
        assert AbiRegs(t, r).value.0 == TakeRegs(cs, r).value.0;
      }
    }
  }

  lemma NothingTaken(r: Regs)
    ensures TakeRegs([], r) == Some(([], r)) && Integers([], 0) == 0
  {
  }

  /** A register of each eightbyte's own kind. */
  lemma {:induction false} TakenFile(classes: seq<Class>, r: Regs, e: nat)
    requires TakeRegs(classes, r).Some? && e < |classes|
    ensures var ds := TakeRegs(classes, r).value.0;
            |ds| == |classes| && ds[e].file == if classes[e].Integer? then Gpr else Fp
    decreases |classes|
  {
    var next := if classes[0].Integer? then r.(gpr := r.gpr + 1) else r.(fp := r.fp + 1);
    if |classes| > 1 { TakenFile(classes[1..], next, if e > 0 then e - 1 else 0); }
  }

  lemma ClassesSettled(t: Type, e: nat)
    requires CLaid(t) && Passable(ArgOf(t)) && e < |AbiClasses(t)|
    ensures !AbiClasses(t)[e].NoClass?
  {
    hide SizeInBytes, AbiSize, LeafClass, CLike, KindOfStruct;
    if t.Struct? {
      SizeMatchesAbi(t);
      NoPadding(t.fields, e);
    } else {
      ScalarAgrees(t);
    }
  }

  lemma FittingAgrees(t: Type, r: Regs)
    requires CLaid(t) && Passable(ArgOf(t)) && InFile(r) && Fits(t, r)
    ensures AbiAssign(t, r) == Assign(ArgOf(t), r)
  {
    hide TakeRegs, AbiRegs, AbiClasses, AbiAlign, AbiSize, KindOfStruct, SizeInBytes, ArgOf, RightClasses, Passable, CLaid;
    ArgAgrees(t);
    if AbiSize(t) <= 16 { RegsAgree(t, r); } else { NoRegs(t, r); }
  }

  lemma NoRegs(t: Type, r: Regs)
    requires AbiSize(t) > 16
    ensures AbiRegs(t, r).None?
  {
  }

  /** An argument that does not fit has an eightbyte that the ABI puts elsewhere. */
  lemma Unfitting(t: Type, r: Regs) returns (e: nat)
    requires CLaid(t) && Passable(ArgOf(t)) && InFile(r) && !Fits(t, r)
    ensures e < |AbiAssign(t, r).0| && e < |Assign(ArgOf(t), r).0| && AbiAssign(t, r).0[e] != Assign(ArgOf(t), r).0[e]
  {
    hide TakeRegs, AbiRegs, AbiClasses, AbiAlign, AbiSize, KindOfStruct, SizeInBytes, ArgOf, RightClasses, Passable, CLaid;
    ArgAgrees(t);
    if AbiSize(t) <= 16 { RegsAgree(t, r); } else { NoRegs(t, r); }
    e := 0;
    var abi, code := AbiRegs(t, r), TakeRegs(ArgClasses(ArgOf(t)), r);
    if !InMemory(ArgOf(t)) {
      if abi.Some? { TakenFile(AbiClasses(t), r, 0); }
      if code.Some? { TakenFile(ArgClasses(ArgOf(t)), r, 0); }
      if abi.Some? && code.Some? { e := OtherClass(t, r); }
    }
  }

  lemma OtherClass(t: Type, r: Regs) returns (e: nat)
    requires CLaid(t) && Passable(ArgOf(t)) && !InMemory(ArgOf(t)) && !RightClasses(t)
    requires TakeRegs(AbiClasses(t), r).Some? && TakeRegs(ArgClasses(ArgOf(t)), r).Some?
    ensures var abi, code := TakeRegs(AbiClasses(t), r).value.0, TakeRegs(ArgClasses(ArgOf(t)), r).value.0;
            e < |abi| == |code| && abi[e] != code[e]
  {
    hide TakeRegs, AbiClasses, AbiSize, KindOfStruct, SizeInBytes, ArgOf, RightClasses, CLaid, Passable;
    ArgAgrees(t);
    var abi, code := AbiClasses(t), ArgClasses(ArgOf(t));
    e :| e < |abi| && abi[e] != code[e];
    ClassesSettled(t, e);
    assert !code[e].NoClass?;
    TakenFile(abi, r, e);
    TakenFile(code, r, e);
  }

  /** Every one of the first `n` arguments fits where it is its turn. */
  predicate AllFit(ts: seq<Type>, n: nat, ret: Type)
    requires n <= |ts|
  {
    n == 0 || (AllFit(ts, n - 1, ret) && Fits(ts[n - 1], RegsAfter(ArgsOf(ts), n - 1, RetOf(ret))))
  }

  predicate Signature(ts: seq<Type>, ret: Type) {
    (forall i :: 0 <= i < |ts| ==> CLaid(ts[i])) && CLaid(ret) && AllPassable(ArgsOf(ts))
  }

  // ---------- all arguments ----------

  /** The code takes an empty struct for one that is returned in memory. */
  predicate EmptyResult(ret: Type) { ret.Struct? && AbiSize(ret) == 0 }

  lemma HiddenAgrees(ret: Type)
    requires CLaid(ret)
    ensures HiddenArg(RetOf(ret)) <==> AbiHidden(ret) || EmptyResult(ret)
    ensures FirstArg(RetOf(ret)) == if ret.Struct? then 1 else 0
  {
    hide AbiClasses, KindOfStruct, AbiSize, CLike;
    if ret.Struct? { StructAgrees(ret.fields); }
  }

  lemma InFileAfter(ts: seq<Type>, n: nat, ret: Type)
    requires n <= |ts|
    ensures InFile(RegsAfter(ArgsOf(ts), n, RetOf(ret)))
  {
    hide RegsAfter, ArgOf, RetOf;
    DestinationsConsecutive(ArgsOf(ts), n, RetOf(ret), Gpr);
  }

  /** As long as every argument fits both assignments are the same. */
  lemma {:induction false} SameMoves(ts: seq<Type>, n: nat, ret: Type)
    requires Signature(ts, ret) && !EmptyResult(ret) && n <= |ts| && AllFit(ts, n, ret)
    ensures AbiRegsAfter(ts, n, ret) == RegsAfter(ArgsOf(ts), n, RetOf(ret))
    ensures AbiMoves(ts, n, ret) == FlatMoves(ArgsOf(ts), n, RetOf(ret))
    decreases n
  {
    hide Assign, AbiAssign, Fits, WordMoves, CLaid, Passable, ArgOf, RetOf, AbiHidden, EmptyResult, HiddenArg, FirstArg;
    HiddenAgrees(ret);
    if n > 0 {
      SameMoves(ts, n - 1, ret);
      assert Passable(ArgsOf(ts)[n - 1]);
      InFileAfter(ts, n - 1, ret);
      FittingAgrees(ts[n - 1], RegsAfter(ArgsOf(ts), n - 1, RetOf(ret)));
      ThroughPointer(ts[n - 1]);
    } else {
      StartAgrees(ts, ret);
    }
  }

  lemma StartAgrees(ts: seq<Type>, ret: Type)
    requires HiddenArg(RetOf(ret)) == AbiHidden(ret)
    ensures AbiRegsAfter(ts, 0, ret) == RegsAfter(ArgsOf(ts), 0, RetOf(ret))
  {
    hide AbiHidden, HiddenArg, RetOf;
  }

  lemma ThroughPointer(t: Type)
    ensures ArgOf(t).StructArg? == t.Struct?
  {
  }

  lemma {:induction false} AbiPrefix(ts: seq<Type>, i: nat, n: nat, ret: Type, k: nat)
    requires i <= n <= |ts| && k < |AbiMoves(ts, i, ret)|
    ensures k < |AbiMoves(ts, n, ret)| && AbiMoves(ts, n, ret)[k] == AbiMoves(ts, i, ret)[k]
    decreases n
  {
    hide AbiAssign, WordMoves;
    if i < n { AbiPrefix(ts, i, n - 1, ret, k); }
  }

  lemma {:induction false} FlatPrefix(args: seq<Arg>, i: nat, n: nat, ret: Ret, k: nat)
    requires i <= n <= |args| && k < |FlatMoves(args, i, ret)|
    ensures k < |FlatMoves(args, n, ret)| && FlatMoves(args, n, ret)[k] == FlatMoves(args, i, ret)[k]
    decreases n
  {
    hide Assign, ArgMoves;
    if i < n { FlatPrefix(args, i, n - 1, ret, k); }
  }

  /** The first argument that does not fit has a word that the ABI puts elsewhere. */
  lemma {:induction false} FirstUnfitting(ts: seq<Type>, n: nat, ret: Type) returns (k: nat)
    requires Signature(ts, ret) && !EmptyResult(ret) && n <= |ts| && !AllFit(ts, n, ret)
    ensures k < |AbiMoves(ts, n, ret)| && k < |FlatMoves(ArgsOf(ts), n, RetOf(ret))|
    ensures Target(AbiMoves(ts, n, ret)[k]) != Target(FlatMoves(ArgsOf(ts), n, RetOf(ret))[k])
    decreases n
  {
    hide Assign, AbiAssign, Fits, CLaid, Passable, ArgOf, RetOf, EmptyResult;
    if AllFit(ts, n - 1, ret) {
      SameMoves(ts, n - 1, ret);
      assert Passable(ArgsOf(ts)[n - 1]);
      InFileAfter(ts, n - 1, ret);
      var e := Unfitting(ts[n - 1], RegsAfter(ArgsOf(ts), n - 1, RetOf(ret)));
      k := |AbiMoves(ts, n - 1, ret)| + e;
    } else {
      k := FirstUnfitting(ts, n - 1, ret);
      AbiPrefix(ts, n - 1, n, ret, k);
      FlatPrefix(ArgsOf(ts), n - 1, n, RetOf(ret), k);
    }
  }

  function Target(m: Move): Dest { Dest(m.file, m.index) }

  /** The 8-bit fields hold every destination. */
  lemma SameTarget(args: seq<Arg>, ret: Ret, k: nat)
    requires RegsAfter(args, |args|, ret).stack <= MAX_STACK && k < |FlatMoves(args, |args|, ret)|
    ensures Target(CastAll(FlatMoves(args, |args|, ret))[k]) == Target(FlatMoves(args, |args|, ret)[k])
  {
    hide FlatMoves, RegsAfter, Separate;
    MovesSeparate(args, ret);
    InLimit(FlatMoves(args, |args|, ret), ret, k);
  }

  /**
   For every signature of integers, pointers, doubles and structs of C layout that can be built, the thunk
   makes the ABI's moves and passes a hidden address when the ABI does, exactly when no struct passed in
   memory is larger than 256 bytes, every argument fits, and the result is not an empty struct.
   */
  lemma MovesMatchAbi(ts: seq<Type>, ret: Type)
    requires Signature(ts, ret) && RegsAfter(ArgsOf(ts), |ts|, RetOf(ret)).stack <= MAX_STACK
    ensures CastAll(FlatMoves(ArgsOf(ts), |ts|, RetOf(ret))) == AbiMoves(ts, |ts|, ret) && HiddenArg(RetOf(ret)) == AbiHidden(ret) <==>
            SmallStructs(ArgsOf(ts)) && AllFit(ts, |ts|, ret) && !EmptyResult(ret)
  {
    hide RegsAfter, AbiMoves, FlatMoves, CLaid, ArgOf, RetOf, SmallStructs, Fits;
    HiddenAgrees(ret);
    if EmptyResult(ret) {
      assert !AbiHidden(ret);
    } else if AllFit(ts, |ts|, ret) {
      SameMoves(ts, |ts|, ret);
      FieldsHoldMoves(ArgsOf(ts), RetOf(ret));
    } else {
      var k := FirstUnfitting(ts, |ts|, ret);
      SameTarget(ArgsOf(ts), RetOf(ret), k);
    }
  }

  // ---------- signatures for which the thunk is not the ABI's ----------

  const WIDE_PAIR: Type := Struct([Prim(I128), Prim(I128)])

  lemma WidePair()
    ensures CLaid(WIDE_PAIR) && AbiSize(WIDE_PAIR) == 32 && AbiAlign(WIDE_PAIR) == 16 && SizeInBytes(WIDE_PAIR) == 32
    ensures ArgOf(WIDE_PAIR) == StructArg(Memory, 32)
  {
    hide SizeInBytes, AbiSize, AbiAlign, RoundUp, AllFloat;
    var fields := [Prim(I128), Prim(I128)];
    ScalarFieldsAreCLike(fields);
    SizeMatchesAbi(WIDE_PAIR);
    WideStruct();
  }

  lemma WideSizes()
    ensures AbiSize(Prim(I128)) == 16 && AbiAlign(Prim(I128)) == 16
  {
  }

  lemma WideEnds()
    ensures AbiEnd([Prim(I128), Prim(I128)], 2) == 32 && AbiMaxAlign([Prim(I128), Prim(I128)], 2) == 16
  {
    hide RoundUp, AbiEnd, AbiMaxAlign, AbiSize, AbiAlign, SizeInBytes, AlignInBytes, FieldsEnd, FieldsAlign, AlignUp;
    var fields := [Prim(I128), Prim(I128)];
    WideSizes();
    EndSteps(fields, 1);
    EndSteps(fields, 2);
    NoAbiEnd(fields);
    RoundsToItself(0, 16);
    RoundsToItself(16, 16);
  }

  lemma WideStruct()
    ensures AbiSize(WIDE_PAIR) == 32 && AbiAlign(WIDE_PAIR) == 16
  {
    hide RoundUp, AbiEnd, AbiMaxAlign;
    WideEnds();
    RoundsToItself(32, 16);
  }

  lemma {:induction false} IntegerRegs(args: seq<Arg>, n: nat)
    requires n <= |args| && forall i :: 0 <= i < n ==> args[i] == GprArg
    ensures RegsAfter(args, n, VoidRet) == Regs(if n <= 6 then n else 6, 0, if n <= 6 then 0 else n - 6)
    decreases n
  {
    hide Assign;
    if n > 0 {
      IntegerRegs(args, n - 1);
      ScalarAssigned(GprArg, RegsAfter(args, n - 1, VoidRet));
    }
  }

  lemma {:induction false} IntegersFit(ts: seq<Type>, n: nat)
    requires n <= |ts| && forall i :: 0 <= i < n ==> ts[i] == Prim(I64)
    ensures AllFit(ts, n, Prim(Void))
    decreases n
  {
    hide RegsAfter, TakeRegs, AbiClasses;
    if n > 0 { IntegersFit(ts, n - 1); }
  }

  /** Seven integers and then a struct of two 128-bit integers: its first word is in slot 1, the ABI wants it in slot 2. */
  lemma SeventhIntegerMisplaces(ts: seq<Type>) returns (k: nat)
    requires |ts| == 8 && ts[7] == WIDE_PAIR && forall i :: 0 <= i < 7 ==> ts[i] == Prim(I64)
    ensures k < |AbiMoves(ts, 8, Prim(Void))| && k < |FlatMoves(ArgsOf(ts), 8, VoidRet)|
    ensures Target(FlatMoves(ArgsOf(ts), 8, VoidRet)[k]) == Dest(Stack, 1) && Target(AbiMoves(ts, 8, Prim(Void))[k]) == Dest(Stack, 2)
  {
    hide AbiSize, AbiAlign, SizeInBytes, AbiClasses, KindOfStruct, TakeRegs;
    WidePair();
    IntegerRegs(ArgsOf(ts), 7);
    IntegersFit(ts, 7);
    SameMoves(ts, 7, Prim(Void));
    k := |AbiMoves(ts, 7, Prim(Void))|;
  }

  /** A struct around a struct around a floating point number is passed in a general register, the ABI uses a vector register. */
  lemma NestedFloatMisclassed()
    ensures var t := Struct([Struct([Prim(F64)])]);
            |AbiMoves([t], 1, Prim(Void))| == |FlatMoves(ArgsOf([t]), 1, VoidRet)| == 1 &&
            Target(FlatMoves(ArgsOf([t]), 1, VoidRet)[0]) == Dest(Gpr, 0) && Target(AbiMoves([t], 1, Prim(Void))[0]) == Dest(Fp, 0)
  {
    hide AbiSize, SizeInBytes, LeafClass, AllFloat;
    var t := Struct([Struct([Prim(F64)])]);
    NestedFloat();
    assert AbiClasses(t) == [SseClass];
  }

  lemma NestedFloat()
    ensures var fields := [Struct([Prim(F64)])];
            AbiSize(Struct(fields)) == 8 && KindOfStruct(fields) == Int && LeafClass(Struct(fields), 0, 0) == SseClass
  {
    hide SizeInBytes, AbiSize, AlignInBytes, AbiAlign, AbiOffset, LeafClass, KindOfStruct;
    NestedFloatDiffers();
    FloatSize();
    OneField(Prim(F64));
    OneField(Struct([Prim(F64)]));
    OneLeaf(Prim(F64), SseClass);
    OneLeaf(Struct([Prim(F64)]), SseClass);
  }

  /** With an empty struct as the result, an integer that comes first is passed in the second register. */
  lemma EmptyResultShifts(ts: seq<Type>, n: nat)
    requires 0 < n <= |ts| && IsGprScalar(ts[0])
    ensures var ret := Struct([]);
            EmptyResult(ret) && 0 < |AbiMoves(ts, n, ret)| && 0 < |FlatMoves(ArgsOf(ts), n, RetOf(ret))| &&
            Target(FlatMoves(ArgsOf(ts), n, RetOf(ret))[0]) == Dest(Gpr, 1) && Target(AbiMoves(ts, n, ret)[0]) == Dest(Gpr, 0)
  {
    var ret := Struct([]);
    EmptySizes();
    FirstInteger(ts, ret);
    hide AbiAssign, Assign, RetOf;
    AbiPrefix(ts, 1, n, ret, 0);
    FlatPrefix(ArgsOf(ts), 1, n, RetOf(ret), 0);
  }

  lemma EmptySizes()
    ensures AbiSize(Struct([])) == 0 && KindOfStruct([]) == Memory
  {
    EmptyStruct();
    SizeMatchesAbi(Struct([]));
  }

  lemma FirstInteger(ts: seq<Type>, ret: Type)
    requires ts != [] && IsGprScalar(ts[0]) && ret == Struct([]) && AbiSize(ret) == 0 && KindOfStruct([]) == Memory
    ensures |AbiMoves(ts, 1, ret)| == |FlatMoves(ArgsOf(ts), 1, RetOf(ret))| == 1
    ensures Target(FlatMoves(ArgsOf(ts), 1, RetOf(ret))[0]) == Dest(Gpr, 1) && Target(AbiMoves(ts, 1, ret)[0]) == Dest(Gpr, 0)
  {
    hide AbiSize, SizeInBytes, LeafClass, KindOfStruct;
    ScalarAgrees(ts[0]);
    assert AbiMoves(ts, 0, ret) == [] && FlatMoves(ArgsOf(ts), 0, RetOf(ret)) == [];
  }

  // ---------- from the signature to the registers ----------

  method ClassifyArg(t: Type) returns (a: Arg)
    ensures a == ArgOf(t)
  {
    if t.Struct? {
      var kind := ClassifyStruct(t.fields, SizeInBytes(t));
      return StructArg(kind, SizeInBytes(t));
    }
    return ArgOf(t);
  }

  method ClassifyRet(t: Type) returns (r: Ret)
    ensures r == RetOf(t)
  {
    if t.Struct? {
      var kind := ClassifyStruct(t.fields, SizeInBytes(t));
      return StructRet(kind, SizeInBytes(t));
    }
    return RetOf(t);
  }

  /** The thunk of an external function: its signature is classified and the moves are built. */
  method CreateThunk(ts: seq<Type>, ret: Type) returns (thunk: Option<Thunk>)
    ensures thunk.Some? <==> AllPassable(ArgsOf(ts)) && RegsAfter(ArgsOf(ts), |ts|, RetOf(ret)).stack <= MAX_STACK &&
                             ResultMode(RetOf(ret)).Some?
    ensures thunk.Some? ==> thunk.value.moves == CastAll(FlatMoves(ArgsOf(ts), |ts|, RetOf(ret))) && thunk.value.hasSret == HiddenArg(RetOf(ret))
    ensures thunk.Some? ==> thunk.value.mode == ResultMode(RetOf(ret)).value
  {
    var args := [];
    for i := 0 to |ts|
      invariant args == ArgsOf(ts)[..i]
    {
      var a := ClassifyArg(ts[i]);
      args := args + [a];
    }
    assert args == ArgsOf(ts);
    var r := ClassifyRet(ret);
    thunk := BuildFFI(args, r);
  }

  lemma CastSeparate(args: seq<Arg>, ret: Ret, values: nat)
    requires AllPassable(args) && RegsAfter(args, |args|, ret).stack <= MAX_STACK && values == |args| + FirstArg(ret)
    ensures Separate(CastAll(FlatMoves(args, |args|, ret)), ret)
    ensures forall k :: 0 <= k < |FlatMoves(args, |args|, ret)| ==> CastAll(FlatMoves(args, |args|, ret))[k].src < values
  {
    hide RegsAfter, FlatMoves, AllPassable, Next;
    var moves := FlatMoves(args, |args|, ret);
    MovesSeparate(args, ret);
    FewArguments(args, |args|, ret);
    forall k | 0 <= k < |moves|
      ensures CastAll(moves)[k].src < values && CastAll(moves)[k].index == moves[k].index && CastAll(moves)[k].file == moves[k].file
    {
      var _, _ := MoveForm(args, |args|, ret, k);
      InLimit(moves, ret, k);
    }
  }

  lemma {:induction false} ResultFile(classes: seq<Class>, n: nat, e: nat)
    requires e < n <= |classes|
    ensures |AbiResult(classes, n)| == n && (classes[e].Integer? <==> AbiResult(classes, n)[e].Rax? || AbiResult(classes, n)[e].Rdx?)
    decreases n
  {
    hide CountInteger;
    if n > 1 { ResultFile(classes, n - 1, if e < n - 1 then e else 0); }
  }

  /** A struct in registers is read from those of the ABI exactly when its classes are right. */
  lemma ResultAgrees(ret: Type)
    requires CLaid(ret) && ret.Struct? && 0 < AbiSize(ret) <= 16
    ensures ResultSources(KindOfStruct(ret.fields)) == AbiResult(AbiClasses(ret), |AbiClasses(ret)|) <==> RightClasses(ret)
    ensures |ResultSources(KindOfStruct(ret.fields))| == AbiWords(ret)
  {
    hide AbiClasses, KindOfStruct, AbiSize, CLike, RightClasses, AbiResult, ResultSources;
    StructAgrees(ret.fields);
    ResultMatchesAbi(KindOfStruct(ret.fields));
    var abi, code := AbiClasses(ret), ClassesOf(KindOfStruct(ret.fields));
    ResultFile(code, |code|, 0);
    if !RightClasses(ret) {
      var e :| 0 <= e < |abi| && abi[e] != code[e];
      StructSettled(ret, e);
      ResultFile(abi, |abi|, e);
      ResultFile(code, |code|, e);
    }
  }

  lemma StructSettled(t: Type, e: nat)
    requires t.Struct? && CLike(t) && e < |AbiClasses(t)|
    ensures !AbiClasses(t)[e].NoClass?
  {
    hide SizeInBytes, AbiSize, LeafClass, CLike;
    SizeMatchesAbi(t);
    NoPadding(t.fields, e);
  }

  /**
   A foreign call from types to registers.  It can be made exactly when all arguments can be passed, the
   stack suffices and the result can be returned.  Then, unless a struct in memory has more than 256 bytes,
   an argument does not fit or the result is an empty struct, every word of every argument is where the ABI
   wants it.  The address for a struct in memory is in the first register, and a struct in registers is read
   from those of the ABI exactly when its classes are right.
   */
  method PassArguments(ts: seq<Type>, ret: Type, values: seq<Word>, read: (Word, nat) -> Word, frame: CallFrame)
    returns (thunk: Option<Thunk>)
    requires frame.Shaped() && (forall i :: 0 <= i < |ts| ==> CLaid(ts[i])) && CLaid(ret)
    requires |values| == |ts| + if ret.Struct? then 1 else 0
    modifies frame.gpr, frame.fp, frame.stack
    ensures thunk.Some? <==> AllPassable(ArgsOf(ts)) && RegsAfter(ArgsOf(ts), |ts|, RetOf(ret)).stack <= MAX_STACK &&
                             ResultMode(RetOf(ret)).Some?
    ensures thunk.Some? ==> ResultMode(RetOf(ret)) == Some(thunk.value.mode)
    ensures thunk.Some? && SmallStructs(ArgsOf(ts)) && AllFit(ts, |ts|, ret) && !EmptyResult(ret) ==>
              forall k :: 0 <= k < |AbiMoves(ts, |ts|, ret)| ==>
                AbiMoves(ts, |ts|, ret)[k].src < |values| && frame.Delivered(AbiMoves(ts, |ts|, ret)[k], values, read)
    ensures thunk.Some? && AbiHidden(ret) ==> frame.At(Gpr, 0) == values[0]
    ensures thunk.Some? && ret.Struct? && 0 < AbiSize(ret) <= 16 ==>
              thunk.value.mode.RStructRegs? &&
              (thunk.value.mode.sources == AbiResult(AbiClasses(ret), |AbiClasses(ret)|) <==> RightClasses(ret))
  {
    hide FlatMoves, AbiMoves, RegsAfter, CLaid, AbiSize, AbiClasses, KindOfStruct, AllPassable, SmallStructs, AllFit;
    hide AbiResult, ResultSources;
    thunk := CreateThunk(ts, ret);
    if thunk.Some? {
      HiddenAgrees(ret);
      CastSeparate(ArgsOf(ts), RetOf(ret), |values|);
      frame.Load(thunk.value.moves, RetOf(ret), values, read);
      MovesMatchAbi(ts, ret);
      if ret.Struct? && 0 < AbiSize(ret) <= 16 {
        RegisterResult(ret);
        ResultAgrees(ret);
      }
    }
  }

  lemma RegisterResult(ret: Type)
    requires CLaid(ret) && ret.Struct? && 0 < AbiSize(ret) <= 16
    ensures !KindOfStruct(ret.fields).Memory?
  {
    hide AbiSize, KindOfStruct, CLike;
    StructAgrees(ret.fields);
  }

  // ---------- results ----------

  /** The registers after the call. */
  datatype ResultRegs = ResultRegs(rax: Word, rdx: Word, xmm0: Word, xmm1: Word)

  function ReadResSrc(regs: ResultRegs, src: ResSrc): Word {
    match src case Rax => regs.rax case Rdx => regs.rdx case Xmm0 => regs.xmm0 case Xmm1 => regs.xmm1
  }

  /** Where the ABI returns eightbyte `e`: the first or the second register of its kind. */
  function AbiResultWord(cs: seq<Class>, regs: ResultRegs, e: nat): Word
    requires e < |cs|
  {
    var ints := Integers(cs, e);
    if cs[e] == Integer then (if ints == 0 then regs.rax else regs.rdx)
    else if e - ints == 0 then regs.xmm0 else regs.xmm1
  }

  /** The bytes of a struct that the ABI returns in registers. */
  function AbiResultBytes(t: Type, regs: ResultRegs): (r: seq<Byte>)
    requires 0 < AbiSize(t) <= 16
    ensures |r| == AbiSize(t)
  {
    var cs := AbiClasses(t);
    (ToBytes(AbiResultWord(cs, regs, 0), 8) + if |cs| > 1 then ToBytes(AbiResultWord(cs, regs, 1), 8) else [])[..AbiSize(t)]
  }

  function SourceBytes(sources: seq<ResSrc>, regs: ResultRegs): seq<Byte>
    requires 0 < |sources| <= 2
  {
    ToBytes(ReadResSrc(regs, sources[0]), 8) + if |sources| > 1 then ToBytes(ReadResSrc(regs, sources[1]), 8) else []
  }

  /** The word that the call has as its value, and what is written behind the first argument. */
  method TakeResult(mode: RetMode, regs: ResultRegs, target: Word) returns (word: Word, written: seq<Byte>)
    requires mode.RStructRegs? ==> 0 < |mode.sources| <= 2 && mode.copyBytes <= 8 * |mode.sources|
    ensures mode.RVoid? ==> word == 0 && written == []
    ensures mode.RGpr? ==> word == regs.rax && written == []
    ensures mode.RFp? ==> word == regs.xmm0 && written == []
    ensures mode.RStructMem? ==> word == target && written == []
    ensures mode.RStructRegs? ==> word == target && |written| == mode.copyBytes && written <= SourceBytes(mode.sources, regs)
  {
    hide ToBytes;
    match mode
    case RVoid => return 0, [];
    case RGpr => return regs.rax, [];
    case RFp => return regs.xmm0, [];
    case RStructMem => return target, [];
    case RStructRegs(sources, copyBytes) =>
      var tmp: seq<Byte> := [];
      for e := 0 to |sources|
        invariant |tmp| == 8 * e
        invariant e > 0 ==> tmp[..8] == ToBytes(ReadResSrc(regs, sources[0]), 8)
        invariant e > 1 ==> tmp[8..16] == ToBytes(ReadResSrc(regs, sources[1]), 8)
      {
        tmp := tmp + ToBytes(ReadResSrc(regs, sources[e]), 8);
      }
      assert tmp == tmp[..8] + if |sources| > 1 then tmp[8..16] else [];
      return target, tmp[..copyBytes];
  }

  /** A scalar that can be returned comes back in the register of its class, an integer one in rax and a double in xmm0. */
  lemma ScalarResult(t: Type)
    requires !t.Struct? && ResultMode(RetOf(t)).Some? && t != Prim(Void)
    ensures AbiClasses(t) == [if ResultMode(RetOf(t)).value.RGpr? then Integer else SseClass]
    ensures ResultMode(RetOf(t)).value.RGpr? || ResultMode(RetOf(t)).value.RFp?
  {
    ScalarAgrees(t);
  }

  /** What can be passed and returned: pointers, integers of up to eight bytes and doubles. */
  lemma ScalarsExactly(t: Type)
    requires !t.Struct?
    ensures Passable(ArgOf(t)) <==> t.Ptr? || (t.Prim? && 0 < AbiSize(t) <= 8 && t != Prim(F32))
    ensures ResultMode(RetOf(t)).Some? <==> t == Prim(Void) || Passable(ArgOf(t))
  {
  }

  lemma SourceAt(cs: seq<Class>, n: nat, e: nat, regs: ResultRegs)
    requires e < n <= |cs|
    ensures |AbiResult(cs, n)| == n && ReadResSrc(regs, AbiResult(cs, n)[e]) == AbiResultWord(cs, regs, e)
    decreases n
  {
    hide CountInteger, Integers;
    SameCountOf(cs, n - 1);
    if n > 1 { SourceAt(cs, n - 1, if e < n - 1 then e else 0, regs); }
  }

  /** A struct in registers is written in its own length, every byte from where the ABI has it. */
  method ReturnStruct(ret: Type, thunk: Thunk, regs: ResultRegs, target: Word) returns (word: Word, written: seq<Byte>)
    requires CLaid(ret) && ret.Struct? && 0 < AbiSize(ret) <= 16 && ResultMode(RetOf(ret)) == Some(thunk.mode)
    ensures word == target && |written| == AbiSize(ret)
    ensures RightClasses(ret) ==> written == AbiResultBytes(ret, regs)
  {
    hide AbiClasses, KindOfStruct, AbiSize, CLike, RightClasses, AbiResult, ResultSources, ToBytes, AbiResultWord;
    ResultAgrees(ret);
    RegisterResult(ret);
    StructAgrees(ret.fields);
    word, written := TakeResult(thunk.mode, regs, target);
    if RightClasses(ret) {
      var cs := AbiClasses(ret);
      SourceAt(cs, |cs|, 0, regs);
      if |cs| > 1 { SourceAt(cs, |cs|, 1, regs); }
    }
  }
}
