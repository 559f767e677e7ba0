/**
 Foreign calls on x86-64: classification of structs, assignment of arguments to registers
 and stack slots, and where a result is found, against section 3.2.3 of the System V AMD64
 ABI written down on its own.
 */
module ForeignCalls {
  import opened Words
  import opened Types
  import opened StructLayout

  // ---------- classes of structs ----------

  datatype StructKind = NotStruct | Memory | Int | Sse | IntInt | IntSse | SseInt | SseSse

  /** What a struct walks through: each field rounded up to its own size, empty fields skipped. */
  function WalkEnd(fields: seq<Type>, n: nat): nat
    requires n <= |fields|
  {
    if n == 0 then 0 else
    var size := SizeInBytes(fields[n - 1]);
    if size == 0 then WalkEnd(fields, n - 1) else RoundUp(WalkEnd(fields, n - 1), size) + size
  }

  function WalkOffset(fields: seq<Type>, i: nat): nat
    requires i < |fields| && SizeInBytes(fields[i]) > 0
  {
    RoundUp(WalkEnd(fields, i), SizeInBytes(fields[i]))
  }

  predicate Touches(offset: nat, size: nat, e: nat) { size > 0 && offset / 8 <= e <= (offset + size - 1) / 8 }

  /** Every field among the first `n` that touches an eightbyte is floating point. */
  predicate AllFloat(fields: seq<Type>, n: nat, e: nat)
    requires n <= |fields|
  {
    n == 0 ||
    (AllFloat(fields, n - 1, e) &&
     (SizeInBytes(fields[n - 1]) > 0 && Touches(WalkOffset(fields, n - 1), SizeInBytes(fields[n - 1]), e) ==> IsFloat(fields[n - 1])))
  }

  function KindOf(size: nat, sse0: bool, sse1: bool): StructKind {
    if size == 0 || size > 16 then Memory
    else if size <= 8 then (if sse0 then Sse else Int)
    else if sse0 && sse1 then SseSse
    else if sse0 then SseInt
    else if sse1 then IntSse
    else IntInt
  }

  function KindOfStruct(fields: seq<Type>): StructKind {
    KindOf(SizeInBytes(Struct(fields)), AllFloat(fields, |fields|, 0), AllFloat(fields, |fields|, 1))
  }

  /** A field that is not floating point spoils the eightbytes it touches. */
  method MarkField(offset: nat, fieldSize: nat, isFloat: bool, sse0: bool, sse1: bool) returns (next0: bool, next1: bool)
    requires fieldSize > 0
    ensures next0 <==> sse0 && (Touches(offset, fieldSize, 0) ==> isFloat)
    ensures next1 <==> sse1 && (Touches(offset, fieldSize, 1) ==> isFloat)
  {
    next0, next1 := sse0, sse1;
    var eb := offset / 8;
    while eb <= (offset + fieldSize - 1) / 8 && eb < 2
      invariant offset / 8 <= eb
      invariant next0 <==> sse0 && (Touches(offset, fieldSize, 0) && 0 < eb ==> isFloat)
      invariant next1 <==> sse1 && (Touches(offset, fieldSize, 1) && 1 < eb ==> isFloat)
    {
      if !isFloat {
        if eb == 0 { next0 := false; } else { next1 := false; }
      }
      eb := eb + 1;
    }
  }

  method ClassifyStruct(fields: seq<Type>, size: nat) returns (kind: StructKind)
    ensures kind == KindOf(size, AllFloat(fields, |fields|, 0), AllFloat(fields, |fields|, 1))
  {
    hide SizeInBytes, Touches;
    if size == 0 || size > 16 { return Memory; }
    var sse0, sse1 := true, true;
    var offset := 0;
    for i := 0 to |fields|
      invariant offset == WalkEnd(fields, i)
      invariant sse0 == AllFloat(fields, i, 0) && sse1 == AllFloat(fields, i, 1)
    {
      var fieldSize := SizeInBytes(fields[i]);
      if fieldSize > 0 {
        offset := (offset + fieldSize - 1) / fieldSize * fieldSize;
        sse0, sse1 := MarkField(offset, fieldSize, IsFloat(fields[i]), sse0, sse1);
        offset := offset + fieldSize;
      }
    }
    return KindOf(size, sse0, sse1);
  }

  /** Aligned to its own size, which is a power of two: every scalar, and a struct such as two I32. */
  ghost predicate SelfAligned(t: Type) { IsPower(SizeInBytes(t)) && AlignInBytes(t) == SizeInBytes(t) }

  lemma ScalarSelfAligned(t: Type)
    requires Scalar(t)
    ensures SelfAligned(t)
  {
    ScalarIsCLike(t);
    AlignIsPower(t);
  }

  /** Where every field is aligned to its own size the walk meets the fields where the layout puts them. */
  lemma {:induction false} WalkMatchesLayout(fields: seq<Type>, n: nat)
    requires n <= |fields| && forall i :: 0 <= i < |fields| ==> SelfAligned(fields[i])
    ensures WalkEnd(fields, n) == FieldsEnd(fields, n)
    ensures n < |fields| ==> SizeInBytes(fields[n]) > 0 && WalkOffset(fields, n) == FieldOffset(fields, n)
    decreases n
  {
    hide SizeInBytes, AlignInBytes, AlignUp, RoundUp, IsPower;
    if n > 0 {
      WalkMatchesLayout(fields, n - 1);
      FieldStep(fields, n - 1);
    }
    if n < |fields| {
      assert SelfAligned(fields[n]);
      PowerAligns(FieldsEnd(fields, n), AlignInBytes(fields[n]));
    }
  }

  const TRIPLE: Type := Struct([Prim(I8), Prim(I8), Prim(I8)])

  lemma TripleSize()
    ensures SizeInBytes(TRIPLE) == 3 && AlignInBytes(TRIPLE) == 3
  {
    hide FieldsEnd, FieldsAlign, AlignUp, RoundUp;
    var fields := [Prim(I8), Prim(I8), Prim(I8)];
    BytesEnd(fields, 3);
    BytesAlign(fields, 3);
    Powers();
    PowerAligns(3, 1);
    RoundUpIsLeast(3, 1);
  }

  lemma {:induction false} BytesWalk(fields: seq<Type>, n: nat)
    requires n <= |fields| && forall i :: 0 <= i < n ==> fields[i] == Prim(I8)
    ensures WalkEnd(fields, n) == n
    decreases n
  {
    if n > 0 {
      BytesWalk(fields, n - 1);
      RoundUpIsLeast(n - 1, 1);
      assert SizeInBytes(Prim(I8)) == 1;
    }
  }

  ghost predicate WalkedRight(t: Type)
    requires SizeInBytes(t) > 0
  {
    forall n: nat :: WalkOffset(BytesThen(n, t), n) == FieldOffset(BytesThen(n, t), n)
  }

  lemma WalkedAt(t: Type, n: nat)
    requires SizeInBytes(t) > 0
    ensures WalkOffset(BytesThen(n, t), n) == RoundUp(n, SizeInBytes(t))
    ensures FieldOffset(BytesThen(n, t), n) == AlignUp(n, AlignInBytes(t))
  {
    PlacedAt(t, n);
    BytesWalk(BytesThen(n, t), n);
    hide SizeInBytes, AlignInBytes, WalkEnd, AlignUp, RoundUp;
  }

  /** For instance, after one byte, a nested struct of 3 bytes is looked for at 3 and lies at 1. */
  lemma NestedWalkDiffers()
    ensures SizeInBytes(TRIPLE) == 3
    ensures WalkOffset([Prim(I8), TRIPLE], 1) == 3 && FieldOffset([Prim(I8), TRIPLE], 1) == 1
  {
    hide SizeInBytes, AlignInBytes, FieldOffset, WalkOffset;
    TripleSize();
    WalkedAt(TRIPLE, 1);
    assert BytesThen(1, TRIPLE) == [Prim(I8), TRIPLE];
    assert AlignUp(1, 3) == 1 && RoundUp(1, 3) == 3;
  }

  /** The classification finds a field behind any number of bytes exactly when it is aligned to its own size. */
  lemma WalkedRightExactly(t: Type)
    requires SizeInBytes(t) > 0
    ensures WalkedRight(t) <==> SelfAligned(t)
  {
    var size, align := SizeInBytes(t), AlignInBytes(t);
    assert align == size || (align == 8 && size > 8);
    assert size > 8 && align == size ==> size <= 16;
    AlignOnlyPowers(size, align);
    hide SizeInBytes, AlignInBytes, FieldOffset, WalkOffset, AlignUp, RoundUp, IsPower;
    if SelfAligned(t) {
      forall n: nat
        ensures WalkOffset(BytesThen(n, t), n) == FieldOffset(BytesThen(n, t), n)
      {
        WalkedAt(t, n);
        PowerAligns(n, align);
      }
    } else {
      WalkedAt(t, 1);
    }
  }

  lemma AlignOnlyPowers(size: nat, align: nat)
    requires size > 0 && ((align == size && (size <= 8 || size == 16)) || (align == 8 && size > 8))
    ensures RoundUp(1, size) == AlignUp(1, align) <==> align == size && IsPower(size)
  {
    Powers();
    OneRoundsUp(size);
    if IsPower(align) {
      PowerAligns(1, align);
      OneRoundsUp(align);
    } else {
      assert align == 3 || align == 5 || align == 6 || align == 7;
      assert AlignUp(1, 3) == 1 && AlignUp(1, 5) == 1 && AlignUp(1, 6) == 2 && AlignUp(1, 7) == 1;
    }
  }

  // ---------- classes ----------

  datatype Class = NoClass | Integer | SseClass

  /** Merging the classes of fields that share an eightbyte. */
  function Merge(a: Class, b: Class): Class {
    if a == b then a
    else if a.NoClass? then b
    else if b.NoClass? then a
    else Integer
  }

  function FieldClass(t: Type): Class { if t == Prim(F32) || t == Prim(F64) then SseClass else Integer }

  function ClassesOf(kind: StructKind): seq<Class> {
    match kind
    case Int => [Integer]
    case Sse => [SseClass]
    case IntInt => [Integer, Integer]
    case IntSse => [Integer, SseClass]
    case SseInt => [SseClass, Integer]
    case SseSse => [SseClass, SseClass]
    case _ => []
  }

  // ---------- classification by merging ----------

  /** The class of eightbyte `e` from all scalars of `t`, which starts at `base`, however deeply they are nested. */
  function LeafClass(t: Type, base: nat, e: nat): Class
    decreases t, 1, 0
  {
    match t
    case Struct(fields) => LeafClasses(fields, |fields|, base, e)
    case _ => if Touches(base, AbiSize(t), e) then FieldClass(t) else NoClass
  }

  function LeafClasses(fields: seq<Type>, n: nat, base: nat, e: nat): Class
    requires n <= |fields|
    decreases fields, 0, n
  {
    if n == 0 then NoClass
    else Merge(LeafClasses(fields, n - 1, base, e), LeafClass(fields[n - 1], base + AbiOffset(fields, n - 1), e))
  }

  lemma MergeInteger(a: Class, b: Class)
    ensures Merge(a, b).Integer? <==> a.Integer? || b.Integer?
  {
  }

  lemma TouchesInside(base: nat, size: nat, inner: nat, innerSize: nat, e: nat)
    requires Touches(inner, innerSize, e) && base <= inner && inner + innerSize <= base + size
    ensures Touches(base, size, e)
  {
  }

  /** A scalar touches only eightbytes that its struct touches. */
  lemma {:induction false} LeafTouches(t: Type, base: nat, e: nat)
    requires CLike(t) && !LeafClass(t, base, e).NoClass?
    ensures Touches(base, SizeInBytes(t), e)
    decreases t, 1, 0
  {
    hide Touches, SizeInBytes, AbiSize, AbiEnd, AbiMaxAlign;
    SizeMatchesAbi(t);
    if t.Struct? {
      var i := LeafTouchesField(t.fields, |t.fields|, base, e);
      SizeMatchesAbi(t.fields[i]);
      FieldInside(t.fields, i);
      TouchesInside(base, SizeInBytes(t), base + AbiOffset(t.fields, i), SizeInBytes(t.fields[i]), e);
    }
  }

  lemma {:induction false} LeafTouchesField(fields: seq<Type>, n: nat, base: nat, e: nat) returns (i: nat)
    requires CLike(Struct(fields)) && n <= |fields| && !LeafClasses(fields, n, base, e).NoClass?
    ensures i < n && CLike(fields[i]) && Touches(base + AbiOffset(fields, i), SizeInBytes(fields[i]), e)
    decreases fields, 0, n
  {
    hide Touches, SizeInBytes, AbiSize, AbiEnd, AbiMaxAlign, AbiOffset;
    NestedIsCLike(fields, n - 1);
    if LeafClass(fields[n - 1], base + AbiOffset(fields, n - 1), e).NoClass? {
      i := LeafTouchesField(fields, n - 1, base, e);
    } else {
      i := n - 1;
      LeafTouches(fields[n - 1], base + AbiOffset(fields, n - 1), e);
    }
  }

  lemma FieldInside(fields: seq<Type>, i: nat)
    requires i < |fields|
    ensures AbiOffset(fields, i) + AbiSize(fields[i]) <= AbiSize(Struct(fields))
  {
    hide AbiAlign, RoundUp;
    AbiEndGrows(fields, i + 1, |fields|);
    RoundUpIsLeast(AbiEnd(fields, |fields|), AbiMaxAlign(fields, |fields|));
  }

  lemma {:induction false} AbiEndGrows(fields: seq<Type>, i: nat, n: nat)
    requires i <= n <= |fields|
    ensures AbiEnd(fields, i) <= AbiEnd(fields, n)
    decreases n
  {
    hide AbiAlign, RoundUp, AbiSize;
    if i < n {
      AbiEndGrows(fields, i, n - 1);
      RoundUpIsLeast(AbiEnd(fields, n - 1), AbiAlign(fields[n - 1]));
    }
  }

  /** A nested struct lies, at least in part, in eightbyte `e`. */
  predicate StructTouches(fields: seq<Type>, n: nat, e: nat)
    requires n <= |fields|
  {
    n > 0 && (StructTouches(fields, n - 1, e) ||
              (fields[n - 1].Struct? && Touches(FieldOffset(fields, n - 1), SizeInBytes(fields[n - 1]), e)))
  }

  /** The walk meets every field at its offset. */
  predicate Walked(fields: seq<Type>) {
    forall i :: 0 <= i < |fields| ==> SizeInBytes(fields[i]) > 0 && WalkOffset(fields, i) == FieldOffset(fields, i)
  }

  /** A field with its C alignment takes space; if it is not aligned to its size it has more than eight bytes. */
  lemma NestedSize(fields: seq<Type>, i: nat)
    requires CLike(Struct(fields)) && i < |fields|
    ensures SizeInBytes(fields[i]) > 0
    ensures SelfAligned(fields[i]) || (SizeInBytes(fields[i]) > 8 && SizeInBytes(fields[i]) % 8 == 0)
  {
    var t := fields[i];
    NestedIsCLike(fields, i);
    AlignIsPower(t);
    SizeMatchesAbi(t);
    if t.Struct? {
      AbiSizeIsMultiple(t);
    } else {
      ScalarSelfAligned(t);
    }
  }

  /** Up to 16 bytes, C layout is enough: only a field that is the whole struct is not aligned to its size. */
  lemma {:induction false} SmallWalked(fields: seq<Type>, n: nat)
    requires CLike(Struct(fields)) && SizeInBytes(Struct(fields)) <= 16 && n <= |fields|
    ensures WalkEnd(fields, n) == FieldsEnd(fields, n)
    ensures n < |fields| ==> SizeInBytes(fields[n]) > 0 && WalkOffset(fields, n) == FieldOffset(fields, n)
    decreases n
  {
    hide SizeInBytes, AlignInBytes, AlignUp, RoundUp, IsPower, CLike, AbiSize, AbiOffset;
    if n > 0 {
      SmallWalked(fields, n - 1);
      NestedSize(fields, n - 1);
      FieldStep(fields, n - 1);
    }
    if n < |fields| {
      NestedSize(fields, n);
      OffsetsMatchAbi(fields, n);
      NestedIsCLike(fields, n);
      SizeMatchesAbi(fields[n]);
      FieldInside(fields, n);
      if SelfAligned(fields[n]) {
        PowerAligns(FieldsEnd(fields, n), AlignInBytes(fields[n]));
      } else {
        assert FieldOffset(fields, n) == 0;
        RoundsToItself(0, SizeInBytes(fields[n]));
      }
    }
  }

  lemma SmallIsWalked(fields: seq<Type>)
    requires CLike(Struct(fields)) && SizeInBytes(Struct(fields)) <= 16
    ensures Walked(fields)
  {
    hide SizeInBytes, WalkOffset, FieldOffset, CLike;
    forall i | 0 <= i < |fields| ensures SizeInBytes(fields[i]) > 0 && WalkOffset(fields, i) == FieldOffset(fields, i) {
      SmallWalked(fields, i);
    }
  }

  lemma LeafOfField(fields: seq<Type>, i: nat, e: nat)
    requires CLike(Struct(fields)) && i < |fields| && Walked(fields)
    ensures SizeInBytes(fields[i]) > 0 && WalkOffset(fields, i) == FieldOffset(fields, i) == AbiOffset(fields, i)
    ensures var touched := Touches(FieldOffset(fields, i), SizeInBytes(fields[i]), e);
            (!touched ==> LeafClass(fields[i], AbiOffset(fields, i), e).NoClass?) &&
            (touched && !fields[i].Struct? ==> (LeafClass(fields[i], AbiOffset(fields, i), e).Integer? <==> !IsFloat(fields[i])))
  {
    hide Touches, SizeInBytes, FieldOffset, WalkOffset, AbiOffset, IsPower, LeafClasses;
    OffsetsMatchAbi(fields, i);
    NestedIsCLike(fields, i);
    SizeMatchesAbi(fields[i]);
    if !LeafClass(fields[i], AbiOffset(fields, i), e).NoClass? { LeafTouches(fields[i], AbiOffset(fields, i), e); }
  }

  /** What the code finds in an eightbyte: an integer among the scalars, or any nested struct. */
  lemma {:induction false} FloatExactly(fields: seq<Type>, n: nat, e: nat)
    requires CLike(Struct(fields)) && n <= |fields| && Walked(fields)
    ensures !AllFloat(fields, n, e) <==> LeafClasses(fields, n, 0, e).Integer? || StructTouches(fields, n, e)
    decreases n
  {
    hide Touches, SizeInBytes, FieldOffset, WalkOffset, AbiOffset, Walked, CLike, LeafClass, Merge;
    if n > 0 {
      FloatExactly(fields, n - 1, e);
      LeafOfField(fields, n - 1, e);
      MergeInteger(LeafClasses(fields, n - 1, 0, e), LeafClass(fields[n - 1], AbiOffset(fields, n - 1), e));
    }
  }

  /** The kind of the ABI, with nested structs looked into. */
  function AbiKind(fields: seq<Type>): StructKind {
    var t := Struct(fields);
    KindOf(SizeInBytes(t), !LeafClass(t, 0, 0).Integer?, !LeafClass(t, 0, 1).Integer?)
  }

  /** Every eightbyte with a part of a nested struct has an integer among its scalars. */
  predicate NestedWithIntegers(fields: seq<Type>) {
    var t := Struct(fields);
    SizeInBytes(t) > 16 || forall e :: 0 <= e < 2 && 8 * e < SizeInBytes(t) && StructTouches(fields, |fields|, e) ==> LeafClass(t, 0, e).Integer?
  }

  lemma KindsDiffer(size: nat, a0: bool, a1: bool, b0: bool, b1: bool)
    ensures KindOf(size, a0, a1) == KindOf(size, b0, b1) <==>
            size == 0 || size > 16 || (a0 == b0 && (size > 8 ==> a1 == b1))
  {
  }

  /**
   Where the layout is C's, the code's kind is the ABI's exactly when no eightbyte of floating point
   holds a part of a nested struct, since the code takes every nested struct for integers.
   */
  lemma NestedKindExactly(fields: seq<Type>)
    requires CLike(Struct(fields))
    ensures KindOfStruct(fields) == AbiKind(fields) <==> NestedWithIntegers(fields)
  {
    hide SizeInBytes, AllFloat, LeafClasses, StructTouches, CLike, Walked, KindOf;
    var t := Struct(fields);
    if SizeInBytes(t) <= 16 {
      SmallIsWalked(fields);
      FloatExactly(fields, |fields|, 0);
      FloatExactly(fields, |fields|, 1);
    }
    KindsDiffer(SizeInBytes(t), AllFloat(fields, |fields|, 0), AllFloat(fields, |fields|, 1),
                !LeafClass(t, 0, 0).Integer?, !LeafClass(t, 0, 1).Integer?);
  }

  // ---------- no eightbyte is only padding ----------

  lemma {:induction false} LeafKept(fields: seq<Type>, n: nat, i: nat, base: nat, e: nat)
    requires i < n <= |fields| && !LeafClass(fields[i], base + AbiOffset(fields, i), e).NoClass?
    ensures !LeafClasses(fields, n, base, e).NoClass?
    decreases n
  {
    hide AbiOffset, LeafClass;
    if i < n - 1 { LeafKept(fields, n - 1, i, base, e); }
  }

  lemma EmptyStruct()
    ensures SizeInBytes(Struct([])) == 0
  {
    Powers();
    PowerAligns(0, 1);
    assert RoundUp(0, 1) == 0;
  }

  lemma FirstField(fields: seq<Type>)
    requires CLike(Struct(fields)) && fields != []
    ensures CLike(fields[0]) && SizeInBytes(fields[0]) > 0 && AbiOffset(fields, 0) == 0
  {
    hide SizeInBytes, CLike, RoundUp, AbiAlign, AlignInBytes;
    NestedIsCLike(fields, 0);
    NestedSize(fields, 0);
    RoundsToItself(0, AbiAlign(fields[0]));
    NoAbiEnd(fields);
  }

  lemma NoAbiEnd(fields: seq<Type>)
    ensures AbiEnd(fields, 0) == 0 && AbiMaxAlign(fields, 0) == 1
  {
  }

  /** Every struct that takes space has a scalar at its beginning. */
  lemma {:induction false} FirstLeaf(t: Type, base: nat)
    requires CLike(t) && SizeInBytes(t) > 0
    ensures !LeafClass(t, base, base / 8).NoClass?
    decreases t
  {
    hide LeafClasses, CLike, AbiOffset, FieldsEnd, AlignUp, FieldsAlign;
    SizeMatchesAbi(t);
    if t.Struct? {
      if t.fields == [] {
        EmptyStruct();
      } else {
        FirstField(t.fields);
        FirstLeaf(t.fields[0], base);
        LeafKept(t.fields, |t.fields|, 0, base, base / 8);
      }
    }
  }

  /** The fields end behind the alignment of any of them. */
  lemma {:induction false} AlignBelowEnd(fields: seq<Type>, n: nat)
    requires CLike(Struct(fields)) && 0 < n <= |fields|
    ensures AbiMaxAlign(fields, n) <= AbiEnd(fields, n)
    decreases n
  {
    hide SizeInBytes, AlignInBytes, AbiSize, RoundUp, CLike;
    var t := fields[n - 1];
    NestedIsCLike(fields, n - 1);
    NestedSize(fields, n - 1);
    SizeMatchesAbi(t);
    AlignBelowSize(t);
    RoundUpIsLeast(AbiEnd(fields, n - 1), AbiAlign(t));
    if n > 1 { AlignBelowEnd(fields, n - 1); }
  }

  lemma AlignBelowSize(t: Type)
    requires CLike(t) && AbiSize(t) > 0
    ensures AbiAlign(t) <= AbiSize(t)
  {
    if t.Struct? {
      AbiSizeIsMultiple(t);
      hide AbiSize, AbiAlign;
      if AbiSize(t) < AbiAlign(t) { MultiplesApart(0, AbiSize(t), AbiAlign(t)); }
    } else {
      ScalarIsCLike(t);
    }
  }

  lemma EndsBehind(base: nat, end: nat, a: nat)
    requires IsPower(a) && base % a == 0 && base + RoundUp(end, a) > 8 && (a == 16 ==> end > 8)
    ensures base + end > 8
  {
    Powers();
    assert a == 1 || a == 2 || a == 4 || a == 8 || a == 16;
    RoundUpIsLeast(end, a);
    if base + end <= 8 {
      hide RoundUp;
      var r := RoundUp(end, a);
      assert a <= 8 && 8 % a == 0;
      assert (8 - base) % a == 0 && r % a == 0;
      MultiplesApart(8 - base, r, a);
      assert false;
    }
  }

  lemma ScalarLeaf(t: Type, base: nat)
    requires !t.Struct? && CLike(t) && SizeInBytes(t) > 0 && 8 < base + SizeInBytes(t) <= 16
    ensures !LeafClass(t, base, 1).NoClass?
  {
    SizeMatchesAbi(t);
    assert Touches(base, SizeInBytes(t), 1);
  }

  /** Nor is the second eightbyte only padding. */
  lemma {:induction false} LastLeaf(t: Type, base: nat)
    requires CLike(t) && SizeInBytes(t) > 0 && base % AbiAlign(t) == 0 && 8 < base + SizeInBytes(t) <= 16
    ensures !LeafClass(t, base, 1).NoClass?
    decreases t
  {
    hide SizeInBytes, AlignInBytes, AbiSize, AbiAlign, CLike, LeafClasses, AbiOffset;
    if !t.Struct? {
      ScalarLeaf(t, base);
    } else if t.fields == [] {
      EmptyStruct();
    } else {
      var fields, last := t.fields, |t.fields| - 1;
      LastField(fields, base);
      NestedIsCLike(fields, last);
      LastLeaf(fields[last], base + AbiOffset(fields, last));
      LeafKept(fields, |fields|, last, base, 1);
    }
  }

  /** The last field of a struct that ends in the second eightbyte ends there too. */
  lemma LastField(fields: seq<Type>, base: nat)
    requires var t := Struct(fields);
             CLike(t) && SizeInBytes(t) > 0 && base % AbiAlign(t) == 0 && 8 < base + SizeInBytes(t) <= 16 && fields != []
    ensures var last := |fields| - 1;
            var off := base + AbiOffset(fields, last);
            SizeInBytes(fields[last]) > 0 && off % AbiAlign(fields[last]) == 0 && 8 < off + SizeInBytes(fields[last]) <= 16
  {
    hide SizeInBytes, AlignInBytes, CLike, RoundUp, IsPower;
    var t, last := Struct(fields), |fields| - 1;
    var f := fields[last];
    NestedIsCLike(fields, last);
    NestedSize(fields, last);
    SizeMatchesAbi(t);
    SizeMatchesAbi(f);
    AlignBelowEnd(fields, |fields|);
    MaxAlignIsPower(fields, |fields|);
    AlignIsPower(f);
    EndsBehind(base, AbiEnd(fields, |fields|), AbiAlign(t));
    RoundUpIsLeast(AbiEnd(fields, last), AbiAlign(f));
    RoundUpIsLeast(AbiEnd(fields, |fields|), AbiAlign(t));
    PowerDivides(base, AbiAlign(f), AbiAlign(t));
    SumOfMultiples(base, AbiOffset(fields, last), AbiAlign(f));
  }

  lemma PowerDivides(n: nat, a: nat, b: nat)
    requires IsPower(a) && IsPower(b) && a <= b && n % b == 0
    ensures a > 0 && n % a == 0
  {
    Powers();
    assert a == 1 || a == 2 || a == 4 || a == 8 || a == 16;
    assert b == 1 || b == 2 || b == 4 || b == 8 || b == 16;
  }

  lemma SumOfMultiples(m: nat, n: nat, a: nat)
    requires a > 0 && m % a == 0 && n % a == 0
    ensures (m + n) % a == 0
  {
    var p, q := m / a, n / a;
    assert m == p * a && n == q * a;
    assert (p + q) * a == p * a + q * a;
    ModUnique(m + n, a, p + q, 0);
  }

  /** Every eightbyte has a class. */
  lemma NoPadding(fields: seq<Type>, e: nat)
    requires CLike(Struct(fields)) && SizeInBytes(Struct(fields)) <= 16 && 8 * e < SizeInBytes(Struct(fields))
    ensures !LeafClass(Struct(fields), 0, e).NoClass?
  {
    hide SizeInBytes, LeafClass, AbiAlign;
    if e == 0 { FirstLeaf(Struct(fields), 0); } else { LastLeaf(Struct(fields), 0); }
  }

  lemma KindClass(size: nat, sse0: bool, sse1: bool)
    requires 0 < size <= 16
    ensures var cs := ClassesOf(KindOf(size, sse0, sse1));
            |cs| == (size + 7) / 8 && !cs[0].NoClass? && (cs[0].Integer? <==> !sse0) &&
            (size > 8 ==> !cs[1].NoClass? && (cs[1].Integer? <==> !sse1))
  {
  }

  /**
   For structs laid out as in C, nested ones included: memory is for more than two eightbytes, or for none;
   otherwise the class of each eightbyte is what merging the classes of the scalars in it gives, in all
   eightbytes exactly when every one with a part of a nested struct has an integer in it.
   */
  lemma KindMatchesAbi(fields: seq<Type>)
    requires CLike(Struct(fields))
    ensures var t, kind := Struct(fields), KindOfStruct(fields);
            (kind.Memory? <==> AbiSize(t) == 0 || AbiSize(t) > 16) &&
            (!kind.Memory? ==>
               |ClassesOf(kind)| == (AbiSize(t) + 7) / 8 &&
               ((forall e :: 0 <= e < |ClassesOf(kind)| ==> ClassesOf(kind)[e] == LeafClass(t, 0, e)) <==> NestedWithIntegers(fields)))
  {
    hide SizeInBytes, AbiSize, AllFloat, LeafClasses, LeafClass, StructTouches, CLike, Walked, AbiAlign, AbiKind;
    var t := Struct(fields);
    var size := SizeInBytes(t);
    SizeMatchesAbi(t);
    if 0 < size <= 16 {
      SmallIsWalked(fields);
      FloatExactly(fields, |fields|, 0);
      FloatExactly(fields, |fields|, 1);
      WholeLeaf(fields, 0);
      WholeLeaf(fields, 1);
      NoPadding(fields, 0);
      if size > 8 { NoPadding(fields, 1); }
      KindClass(size, AllFloat(fields, |fields|, 0), AllFloat(fields, |fields|, 1));
    }
  }

  lemma WholeLeaf(fields: seq<Type>, e: nat)
    ensures LeafClass(Struct(fields), 0, e) == LeafClasses(fields, |fields|, 0, e)
  {
  }

  /** For instance, a struct around a struct around a floating point number is passed as an integer. */
  lemma NestedFloatDiffers()
    ensures var fields := [Struct([Prim(F64)])];
            KindOfStruct(fields) == Int && AbiKind(fields) == Sse
  {
    hide SizeInBytes, AbiSize, AlignInBytes, AbiAlign, RoundUp, AbiOffset;
    var inner := Struct([Prim(F64)]);
    FloatSize();
    OneField(Prim(F64));
    OneField(inner);
    RoundsToItself(0, 8);
    OneLeaf(Prim(F64), SseClass);
    OneLeaf(inner, SseClass);
    assert AllFloat([inner], 0, 0) && WalkOffset([inner], 0) == 0 && Touches(0, 8, 0);
  }

  lemma FloatSize()
    ensures var t := Prim(F64); SizeInBytes(t) == 8 == AbiSize(t) == AlignInBytes(t) == AbiAlign(t) && LeafClass(t, 0, 0) == SseClass
  {
  }

  lemma OneLeaf(t: Type, c: Class)
    requires AbiOffset([t], 0) == 0 && LeafClass(t, 0, 0) == c
    ensures LeafClass(Struct([t]), 0, 0) == c
  {
    hide AbiOffset;
    assert LeafClasses([t], 0, 0, 0) == NoClass;
  }

  lemma OneEnd(t: Type)
    requires SizeInBytes(t) == 8 == AbiSize(t) == AlignInBytes(t) == AbiAlign(t)
    ensures AbiOffset([t], 0) == 0 && FieldsEnd([t], 1) == AbiEnd([t], 1) == 8 && FieldsAlign([t], 1) == AbiMaxAlign([t], 1) == 8
  {
    hide SizeInBytes, AbiSize, AlignInBytes, AbiAlign, AlignUp, RoundUp;
    Powers();
    PowerAligns(0, 8);
    RoundsToItself(0, 8);
    EndSteps([t], 1);
    assert FieldsEnd([t], 0) == 0 && AbiEnd([t], 0) == 0;
  }

  lemma RoundsToItself(n: nat, a: nat)
    requires a > 0 && n % a == 0
    ensures RoundUp(n, a) == n
  {
    RoundUpIsLeast(n, a);
    if RoundUp(n, a) > n { MultiplesApart(n, RoundUp(n, a), a); }
  }

  /** A struct of one field that is aligned to its size, a word. */
  lemma OneField(t: Type)
    requires SizeInBytes(t) == 8 == AbiSize(t) == AlignInBytes(t) == AbiAlign(t)
    ensures var s := Struct([t]);
            SizeInBytes(s) == AbiSize(s) == AlignInBytes(s) == AbiAlign(s) == 8 && AbiOffset([t], 0) == 0
  {
    hide AlignUp, RoundUp, FieldsEnd, AbiEnd, FieldsAlign, AbiMaxAlign;
    OneEnd(t);
    Powers();
    PowerAligns(8, 8);
    RoundsToItself(8, 8);
  }
}
