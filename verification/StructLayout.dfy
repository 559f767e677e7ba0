/**
 Struct layout: the fields of a struct are apart from each other and inside it, and where
 the layout is the C one (System V AMD64 ABI, section 3.1.2) and where it is not.
 */
module StructLayout {
  import opened Words
  import opened Types

  // ---------- fields do not overlap ----------

  ghost predicate FieldsApart(fields: seq<Type>) {
    && (forall i, j :: 0 <= i < j < |fields| ==> FieldOffset(fields, i) + SizeInBytes(fields[i]) <= FieldOffset(fields, j))
    && (forall i :: 0 <= i < |fields| ==> FieldOffset(fields, i) + SizeInBytes(fields[i]) <= SizeInBytes(Struct(fields)))
  }

  /** Once a field takes space, so do all later ones. */
  predicate NoEmptyFieldAfter(fields: seq<Type>) {
    forall i, j :: 0 <= i < j < |fields| && SizeInBytes(fields[i]) > 0 ==> SizeInBytes(fields[j]) > 0
  }

  lemma AlignOfSize(t: Type)
    ensures AlignInBytes(t) > 0 <==> SizeInBytes(t) > 0
  {
  }

  lemma FieldStep(fields: seq<Type>, n: nat)
    requires n < |fields|
    ensures FieldsEnd(fields, n + 1) == FieldOffset(fields, n) + SizeInBytes(fields[n])
    ensures SizeInBytes(fields[n]) > 0 ==> FieldOffset(fields, n) >= FieldsEnd(fields, n)
    ensures SizeInBytes(fields[n]) == 0 ==> FieldOffset(fields, n) == 0
  {
    AlignOfSize(fields[n]);
  }

  /** Without an empty field behind it, the end of a field stays below everything later. */
  lemma {:induction false} EndsGrow(fields: seq<Type>, i: nat, n: nat)
    requires NoEmptyFieldAfter(fields) && i < n <= |fields|
    ensures FieldOffset(fields, i) + SizeInBytes(fields[i]) <= FieldsEnd(fields, n)
    ensures n < |fields| ==> FieldOffset(fields, i) + SizeInBytes(fields[i]) <= FieldOffset(fields, n)
    decreases n
  {
    hide SizeInBytes, FieldsEnd, FieldOffset;
    FieldStep(fields, i);
    FieldStep(fields, n - 1);
    if n < |fields| { FieldStep(fields, n); }
    if i < n - 1 { EndsGrow(fields, i, n - 1); }
    EmptyPrefix(fields, i, n);
  }

  /** A prefix of empty fields takes no space. */
  lemma {:induction false} EmptyPrefix(fields: seq<Type>, i: nat, n: nat)
    requires NoEmptyFieldAfter(fields) && i < n <= |fields|
    ensures n < |fields| && SizeInBytes(fields[n]) == 0 ==> FieldOffset(fields, i) + SizeInBytes(fields[i]) == 0
    ensures i < n - 1 && SizeInBytes(fields[n - 1]) == 0 ==> FieldOffset(fields, i) + SizeInBytes(fields[i]) == 0
  {
    hide SizeInBytes, FieldOffset;
    FieldStep(fields, i);
    assert n < |fields| && SizeInBytes(fields[n]) == 0 ==> SizeInBytes(fields[i]) == 0;
    assert i < n - 1 && SizeInBytes(fields[n - 1]) == 0 ==> SizeInBytes(fields[i]) == 0;
  }

  lemma StructSize(fields: seq<Type>)
    ensures SizeInBytes(Struct(fields)) >= FieldsEnd(fields, |fields|)
  {
  }

  /**
   Fields are ordered, disjoint and inside the struct exactly when no field of size zero comes
   after one that takes space: such a field has alignment zero and restarts the layout at 0.
   */
  lemma FieldsApartExactly(fields: seq<Type>)
    ensures FieldsApart(fields) <==> NoEmptyFieldAfter(fields)
  {
    hide SizeInBytes, FieldsEnd, FieldOffset;
    if NoEmptyFieldAfter(fields) {
      forall i, j | 0 <= i < j < |fields|
        ensures FieldOffset(fields, i) + SizeInBytes(fields[i]) <= FieldOffset(fields, j)
      {
        EndsGrow(fields, i, j);
      }
      forall i | 0 <= i < |fields|
        ensures FieldOffset(fields, i) + SizeInBytes(fields[i]) <= SizeInBytes(Struct(fields))
      {
        EndsGrow(fields, i, |fields|);
        StructSize(fields);
      }
    }
    if FieldsApart(fields) {
      forall i, j | 0 <= i < j < |fields| && SizeInBytes(fields[i]) > 0
        ensures SizeInBytes(fields[j]) > 0
      {
        FieldStep(fields, j);
      }
    }
  }

  /** For instance, an empty field between two others puts the third on top of the first. */
  lemma EmptyFieldOverlaps()
    ensures var fields := [Prim(I64), Prim(Void), Prim(I8)];
            FieldOffset(fields, 0) == 0 && FieldOffset(fields, 2) == 0
  {
    var fields := [Prim(I64), Prim(Void), Prim(I8)];
    assert FieldsEnd(fields, 0) == 0;
    FieldStep(fields, 0);
    FieldStep(fields, 1);
    FieldStep(fields, 2);
    assert FieldsEnd(fields, 2) == 0;
    assert AlignUp(0, 1) == 0 && AlignUp(0, 8) == 0 by { AlignUpEight(0); }
  }

  // ---------- the C layout ----------

  /** The least multiple of `align` that is not below `value`. */
  function RoundUp(value: nat, align: nat): nat
    requires align > 0
  {
    (value + align - 1) / align * align
  }

  lemma RoundUpIsLeast(value: nat, align: nat)
    requires align > 0
    ensures RoundUp(value, align) % align == 0 && value <= RoundUp(value, align) < value + align
  {
    var q := (value + align - 1) / align;
    assert align * q == q * align;
    ModUnique(q * align, align, q, 0);
    assert value + align - 1 == align * q + (value + align - 1) % align;
  }

  lemma AlignUpRounds(value: nat, k: nat)
    ensures Pow2(k) > 0 && AlignUp(value, Pow2(k)) == RoundUp(value, Pow2(k))
  {
    var a := Pow2(k);
    AlignUpIsLeastMultiple(value, k);
    RoundUpIsLeast(value, a);
    var x, y := AlignUp(value, a), RoundUp(value, a);
    if x < y { MultiplesApart(x, y, a); }
  }

  /** Sizes of the scalar types in figure 3.1 of the ABI, which are their alignments too. */
  function AbiScalarSize(k: Kind): nat {
    match k
    case I1 | I8 | U8 => 1           // _Bool and the char types
    case I16 | U16 => 2              // short
    case I32 | U32 | F32 => 4        // int, float
    case I64 | U64 | F64 => 8        // long, double
    case I128 | U128 => 16           // __int128
    case Void | Undef => 0
  }

  const ABI_POINTER: nat := 8

  /** Size and alignment of C types: a struct is aligned like its most aligned field. */
  function AbiSize(t: Type): nat
    decreases t, 0
  {
    match t
    case NoType => 8
    case Prim(k) => AbiScalarSize(k)
    case Ptr(_) => ABI_POINTER
    case Func => ABI_POINTER
    case Struct(fields) => RoundUp(AbiEnd(fields, |fields|), AbiMaxAlign(fields, |fields|))
  }

  function AbiAlign(t: Type): (r: nat)
    ensures r >= 1
    decreases t, 1
  {
    match t
    case NoType => 8
    case Prim(k) => if AbiScalarSize(k) == 0 then 1 else AbiScalarSize(k)
    case Ptr(_) => ABI_POINTER
    case Func => ABI_POINTER
    case Struct(fields) => AbiMaxAlign(fields, |fields|)
  }

  function AbiEnd(fields: seq<Type>, n: nat): nat
    requires n <= |fields|
    decreases fields, 0, n
  {
    if n == 0 then 0 else RoundUp(AbiEnd(fields, n - 1), AbiAlign(fields[n - 1])) + AbiSize(fields[n - 1])
  }

  function AbiMaxAlign(fields: seq<Type>, n: nat): (r: nat)
    requires n <= |fields|
    ensures r >= 1
    decreases fields, 0, n
  {
    if n == 0 then 1 else Max(AbiMaxAlign(fields, n - 1), AbiAlign(fields[n - 1]))
  }

  function AbiOffset(fields: seq<Type>, i: nat): nat
    requires i < |fields|
  {
    RoundUp(AbiEnd(fields, i), AbiAlign(fields[i]))
  }

  /** Scalars that take space and that programs have. */
  predicate Scalar(t: Type) { t.NoType? || (t.Prim? && !t.kind.Void? && !t.kind.F32? && !t.kind.Undef?) || t.Ptr? || t.Func? }

  /** Every nested struct gets the alignment that C gives it. */
  predicate CLike(t: Type)
    decreases t
  {
    match t
    case Struct(fields) => forall i :: 0 <= i < |fields| ==> CLike(fields[i]) && AlignInBytes(fields[i]) == AbiAlign(fields[i])
    case _ => Scalar(t)
  }

  lemma ScalarIsCLike(t: Type)
    requires Scalar(t)
    ensures CLike(t) && AlignInBytes(t) == AbiAlign(t) == SizeInBytes(t)
  {
  }

  ghost predicate IsPower(a: nat) { exists k: nat :: k <= 4 && a == Pow2(k) }

  lemma Powers()
    ensures Pow2(0) == 1 && Pow2(1) == 2 && Pow2(2) == 4 && Pow2(3) == 8 && Pow2(4) == 16
    ensures IsPower(1) && IsPower(2) && IsPower(4) && IsPower(8) && IsPower(16)
  {
    assert Pow2(2) == 4;
  }

  lemma {:induction false} AlignIsPower(t: Type)
    ensures IsPower(AbiAlign(t))
    decreases t, 1
  {
    Powers();
    if t.Struct? { MaxAlignIsPower(t.fields, |t.fields|); }
  }

  lemma {:induction false} MaxAlignIsPower(fields: seq<Type>, n: nat)
    requires n <= |fields|
    ensures IsPower(AbiMaxAlign(fields, n))
    decreases fields, 0, n
  {
    if n == 0 {
      Powers();
    } else {
      AlignIsPower(fields[n - 1]);
      MaxAlignIsPower(fields, n - 1);
    }
  }

  lemma PowerAligns(value: nat, a: nat)
    requires IsPower(a)
    ensures a > 0 && a <= 16 && AlignUp(value, a) == RoundUp(value, a)
  {
    Powers();
    var k: nat :| k <= 4 && a == Pow2(k);
    AlignUpRounds(value, k);
  }

  lemma NoEnd(fields: seq<Type>)
    ensures FieldsEnd(fields, 0) == AbiEnd(fields, 0) && FieldsAlign(fields, 0) == AbiMaxAlign(fields, 0)
  {
  }

  lemma NextEnd(fields: seq<Type>, n: nat)
    requires 0 < n <= |fields|
    requires FieldsEnd(fields, n - 1) == AbiEnd(fields, n - 1) && FieldsAlign(fields, n - 1) == AbiMaxAlign(fields, n - 1)
    requires SizeInBytes(fields[n - 1]) == AbiSize(fields[n - 1]) && AlignInBytes(fields[n - 1]) == AbiAlign(fields[n - 1])
    ensures FieldsEnd(fields, n) == AbiEnd(fields, n) && FieldsAlign(fields, n) == AbiMaxAlign(fields, n)
  {
    hide FieldsEnd, AbiEnd, FieldsAlign, AbiMaxAlign, AlignUp, RoundUp, SizeInBytes, AbiSize, AlignInBytes, AbiAlign;
    AlignIsPower(fields[n - 1]);
    PowerAligns(AbiEnd(fields, n - 1), AbiAlign(fields[n - 1]));
    EndSteps(fields, n);
  }

  /** Where nested structs have their C alignment, sizes are the C sizes. */
  lemma {:induction false} SizeMatchesAbi(t: Type)
    requires CLike(t)
    ensures SizeInBytes(t) == AbiSize(t)
    decreases t, 1
  {
    if t.Struct? {
      EndMatchesAbi(t.fields, |t.fields|);
      MaxAlignIsPower(t.fields, |t.fields|);
      PowerAligns(AbiEnd(t.fields, |t.fields|), AbiMaxAlign(t.fields, |t.fields|));
    }
  }

  lemma {:induction false} EndMatchesAbi(fields: seq<Type>, n: nat)
    requires CLike(Struct(fields)) && n <= |fields|
    ensures FieldsEnd(fields, n) == AbiEnd(fields, n) && FieldsAlign(fields, n) == AbiMaxAlign(fields, n)
    decreases fields, 0, n
  {
    hide FieldsEnd, AbiEnd, FieldsAlign, AbiMaxAlign, SizeInBytes, AbiSize, AlignInBytes, AbiAlign, CLike;
    if n == 0 {
      NoEnd(fields);
    } else {
      NestedIsCLike(fields, n - 1);
      EndMatchesAbi(fields, n - 1);
      SizeMatchesAbi(fields[n - 1]);
      NextEnd(fields, n);
    }
  }

  lemma NestedIsCLike(fields: seq<Type>, i: nat)
    requires CLike(Struct(fields)) && i < |fields|
    ensures CLike(fields[i]) && AlignInBytes(fields[i]) == AbiAlign(fields[i])
  {
    hide AlignInBytes, AbiAlign;
  }

  lemma EndSteps(fields: seq<Type>, n: nat)
    requires 0 < n <= |fields|
    ensures var f := fields[n - 1];
            FieldsEnd(fields, n) == AlignUp(FieldsEnd(fields, n - 1), AlignInBytes(f)) + SizeInBytes(f) &&
            AbiEnd(fields, n) == RoundUp(AbiEnd(fields, n - 1), AbiAlign(f)) + AbiSize(f) &&
            FieldsAlign(fields, n) == Max(FieldsAlign(fields, n - 1), AlignInBytes(f)) &&
            AbiMaxAlign(fields, n) == Max(AbiMaxAlign(fields, n - 1), AbiAlign(f))
  {
    hide AlignUp, RoundUp, SizeInBytes, AbiSize, AlignInBytes, AbiAlign;
  }

  /**
   The layout is the C layout for every struct whose nested structs have their C alignment;
   structs of scalars always do.  Each offset is the least aligned one.
   */
  lemma OffsetsMatchAbi(fields: seq<Type>, i: nat)
    requires CLike(Struct(fields)) && i < |fields|
    ensures FieldOffset(fields, i) == AbiOffset(fields, i)
    ensures FieldOffset(fields, i) % AbiAlign(fields[i]) == 0
    ensures FieldsEnd(fields, i) <= FieldOffset(fields, i) < FieldsEnd(fields, i) + AbiAlign(fields[i])
    ensures SizeInBytes(Struct(fields)) == AbiSize(Struct(fields)) && SizeInBytes(Struct(fields)) % AbiAlign(Struct(fields)) == 0
  {
    EndMatchesAbi(fields, i);
    AlignIsPower(fields[i]);
    PowerAligns(AbiEnd(fields, i), AbiAlign(fields[i]));
    RoundUpIsLeast(AbiEnd(fields, i), AbiAlign(fields[i]));
    SizeMatchesAbi(Struct(fields));
    RoundUpIsLeast(AbiEnd(fields, |fields|), AbiMaxAlign(fields, |fields|));
  }

  lemma ScalarFieldsAreCLike(fields: seq<Type>)
    requires forall i :: 0 <= i < |fields| ==> Scalar(fields[i])
    ensures CLike(Struct(fields))
  {
    forall i | 0 <= i < |fields|
      ensures CLike(fields[i]) && AlignInBytes(fields[i]) == AbiAlign(fields[i])
    {
      ScalarIsCLike(fields[i]);
    }
  }

  const PAIR: Type := Struct([Prim(I32), Prim(I32)])

  lemma PairLayout()
    ensures SizeInBytes(PAIR) == 8 && AlignInBytes(PAIR) == 8 && AbiAlign(PAIR) == 4 && AbiSize(PAIR) == 8
  {
    var fields := [Prim(I32), Prim(I32)];
    ScalarFieldsAreCLike(fields);
    SizeMatchesAbi(Struct(fields));
    assert AbiEnd(fields, 0) == 0 && AbiMaxAlign(fields, 0) == 1;
    assert AbiEnd(fields, 1) == 4 && AbiMaxAlign(fields, 1) == 4;
    assert AbiEnd(fields, 2) == 8 && AbiMaxAlign(fields, 2) == 4;
    assert RoundUp(8, 4) == 8;
  }

  // ---------- which types are always placed as in C ----------

  /** `n` bytes and then a field of type `t`. */
  function BytesThen(n: nat, t: Type): (r: seq<Type>)
    ensures |r| == n + 1 && r[n] == t && forall i :: 0 <= i < n ==> r[i] == Prim(I8)
  {
    seq(n, _ => Prim(I8)) + [t]
  }

  lemma ByteStep(fields: seq<Type>, n: nat)
    requires 0 < n <= |fields| && fields[n - 1] == Prim(I8)
    requires FieldsEnd(fields, n - 1) == AbiEnd(fields, n - 1) == n - 1
    ensures FieldsEnd(fields, n) == n && AbiEnd(fields, n) == n
  {
    hide FieldsEnd, AbiEnd, RoundUp, AlignUp;
    EndSteps(fields, n);
    Powers();
    PowerAligns(n - 1, 1);
    RoundUpIsLeast(n - 1, 1);
  }

  lemma {:induction false} BytesEnd(fields: seq<Type>, n: nat)
    requires n <= |fields| && forall i :: 0 <= i < n ==> fields[i] == Prim(I8)
    ensures FieldsEnd(fields, n) == n && AbiEnd(fields, n) == n
    decreases n
  {
    if n > 0 {
      BytesEnd(fields, n - 1);
      ByteStep(fields, n);
    }
  }

  lemma {:induction false} BytesAlign(fields: seq<Type>, n: nat)
    requires n <= |fields| && forall i :: 0 <= i < n ==> fields[i] == Prim(I8)
    ensures FieldsAlign(fields, n) == 1
    decreases n
  {
    if n > 0 { BytesAlign(fields, n - 1); }
  }

  ghost predicate PlacedAsInC(t: Type) {
    forall n: nat :: FieldOffset(BytesThen(n, t), n) == AbiOffset(BytesThen(n, t), n)
  }

  lemma PlacedAt(t: Type, n: nat)
    ensures FieldOffset(BytesThen(n, t), n) == AlignUp(n, AlignInBytes(t))
    ensures AbiOffset(BytesThen(n, t), n) == RoundUp(n, AbiAlign(t))
  {
    hide AlignUp, RoundUp, AlignInBytes, AbiAlign, FieldsEnd, AbiEnd;
    BytesEnd(BytesThen(n, t), n);
  }

  /** A nested struct that C aligns to less than its size is put elsewhere: at 8 instead of 4. */
  lemma NestedStructDiffers()
    ensures FieldOffset([Prim(I8), PAIR], 1) == 8 && AbiOffset([Prim(I8), PAIR], 1) == 4
  {
    hide AlignInBytes, AbiAlign, FieldOffset, AbiOffset, AlignUp, RoundUp;
    PairLayout();
    PlacedAt(PAIR, 1);
    assert BytesThen(1, PAIR) == [Prim(I8), PAIR];
    Powers();
    PowerAligns(1, 8);
    OneRoundsUp(8);
    OneRoundsUp(4);
  }

  lemma AbiSizeIsMultiple(t: Type)
    requires t.Struct?
    ensures AbiSize(t) % AbiAlign(t) == 0
  {
    RoundUpIsLeast(AbiEnd(t.fields, |t.fields|), AbiMaxAlign(t.fields, |t.fields|));
  }

  /** A place where the alignments `a` and `b` differ; up to 8, `a` is a size and `b` divides it. */
  lemma AlignmentsDiffer(a: nat, b: nat) returns (n: nat)
    requires IsPower(b) && a != b && 0 < a && (a < 8 ==> a % b == 0) && (a <= 8 || a == 16)
    ensures AlignUp(n, a) != RoundUp(n, b)
  {
    Powers();
    assert b == 1 || b == 2 || b == 4 || b == 8 || b == 16;
    if a == 3 || a == 7 {
      n := 2;
      assert AlignUp(2, 3) == 4 && AlignUp(2, 7) == 8 && b == 1 && RoundUp(2, 1) == 2;
    } else if a == 5 {
      n := 4;
      assert AlignUp(4, 5) == 8 && b == 1 && RoundUp(4, 1) == 4;
    } else if a == 6 {
      n := 3;
      assert AlignUp(3, 6) == 8 && b <= 2 && RoundUp(3, 1) == 3 && RoundUp(3, 2) == 4;
    } else {
      n := 1;
      PowerAligns(1, a);
      OneRoundsUp(a);
      OneRoundsUp(b);
    }
  }

  lemma OneRoundsUp(a: nat)
    requires a > 0
    ensures RoundUp(1, a) == a
  {
    assert (1 + a - 1) / a == 1;
  }

  /**
   A struct that has its C size is placed as in C behind any number of bytes exactly when its
   alignment, which this layout takes from its size, is that of its most aligned field.
   */
  lemma PlacedAsInCExactly(t: Type)
    requires t.Struct? && SizeInBytes(t) == AbiSize(t) > 0
    ensures PlacedAsInC(t) <==> AlignInBytes(t) == AbiAlign(t)
  {
    AlignIsPower(t);
    AbiSizeIsMultiple(t);
    var a, b := AlignInBytes(t), AbiAlign(t);
    assert 0 < a <= 8 && (a < 8 ==> a == SizeInBytes(t));
    hide SizeInBytes, AlignInBytes, AbiSize, AbiAlign, AlignUp, RoundUp, FieldOffset, AbiOffset;
    if a == b {
      forall n: nat
        ensures FieldOffset(BytesThen(n, t), n) == AbiOffset(BytesThen(n, t), n)
      {
        PlacedAt(t, n);
        PowerAligns(n, b);
      }
    } else {
      var n := AlignmentsDiffer(a, b);
      PlacedAt(t, n);
    }
  }
}
