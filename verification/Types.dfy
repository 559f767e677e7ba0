/**
 IR types and their memory layout.  Types are trees: the interned ids of the
 original stand for the same tree exactly when they are equal.
 */
module Types {
  import opened Words

  datatype Kind =
    | I1 | I8 | I16 | I32 | I64 | I128
    | U8 | U16 | U32 | U64 | U128
    | F32 | F64 | Void | Undef

  datatype Type =
    | NoType                     // a negative type id
    | Prim(kind: Kind)
    | Ptr(to: Type)
    | Func
    | Struct(fields: seq<Type>)

  predicate IsFloat(t: Type) { t == Prim(F32) || t == Prim(F64) }

  predicate IsUnsigned(t: Type) {
    t == Prim(U8) || t == Prim(U16) || t == Prim(U32) || t == Prim(U64) || t == Prim(U128)
  }

  predicate Is128(t: Type) { t == Prim(I128) || t == Prim(U128) }

  // ---------- alignment ----------

  function AndNat(x: nat, m: nat): (r: nat)
    ensures r <= m && r <= x
  {
    if x == 0 || m == 0 then 0
    else 2 * AndNat(x / 2, m / 2) + (if x % 2 == 1 && m % 2 == 1 then 1 else 0)
  }

  /** `(value + align - 1) & ~(align - 1)`; zero for alignment zero, whose mask is all ones. */
  function AlignUp(value: nat, align: nat): (r: nat)
    ensures align > 0 ==> value <= r < value + align
    ensures align == 0 ==> r == 0
  {
    if align == 0 then 0
    else value + align - 1 - AndNat(value + align - 1, align - 1)
  }

  lemma HalveModulo(x: nat, p: nat)
    requires p > 0
    ensures x % (2 * p) == 2 * ((x / 2) % p) + x % 2
  {
    var q, r := x / 2 / p, (x / 2) % p;
    assert x / 2 == p * q + r;
    assert (2 * p) * q == 2 * (p * q);
    ModUnique(x, 2 * p, q, 2 * r + x % 2);
  }

  lemma {:induction false} LowBits(x: nat, k: nat)
    ensures AndNat(x, Pow2(k) - 1) == x % Pow2(k)
    decreases k
  {
    if k > 0 {
      var p := Pow2(k - 1);
      LowBits(x / 2, k - 1);
      HalveModulo(x, p);
      assert Pow2(k) == 2 * p;
      HalvedMask(x, p);
    }
  }

  lemma HalvedMask(x: nat, p: nat)
    requires p > 0
    ensures AndNat(x, 2 * p - 1) == 2 * AndNat(x / 2, p - 1) + x % 2
  {
    assert (2 * p - 1) / 2 == p - 1 && (2 * p - 1) % 2 == 1;
  }

  lemma MultiplesApart(m: nat, r: nat, a: nat)
    requires a > 0 && m % a == 0 && r % a == 0 && m < r
    ensures r - m >= a
  {
    MultipleGap(a, m / a, r / a);
  }

  lemma MultipleGap(a: nat, i: int, j: int)
    requires a > 0 && a * i < a * j
    ensures a * j - a * i >= a
  {
    if j <= i {
      MulMonotone(a, j, i);
    } else {
      MulMonotone(a, i + 1, j);
    }
  }

  lemma MulMonotone(a: nat, i: int, j: int)
    requires i <= j
    ensures a * i <= a * j
  {
    assert a * (j - i) >= 0;
    assert a * j == a * i + a * (j - i);
  }

  lemma RoundDown(x: nat, a: nat)
    requires a > 0
    ensures (x - x % a) % a == 0
  {
    assert x - x % a == a * (x / a);
    ModUnique(x - x % a, a, x / a, 0);
  }

  /** For a power of two, `AlignUp` is the least multiple that is not below `value`. */
  lemma AlignUpIsLeastMultiple(value: nat, k: nat)
    ensures AlignUp(value, Pow2(k)) % Pow2(k) == 0
    ensures forall m: nat :: value <= m && m % Pow2(k) == 0 ==> AlignUp(value, Pow2(k)) <= m
  {
    var a := Pow2(k);
    LowBits(value + a - 1, k);
    RoundDown(value + a - 1, a);
    var r := AlignUp(value, a);
    forall m: nat | value <= m && m % a == 0
      ensures r <= m
    {
      if m < r { MultiplesApart(m, r, a); }
    }
  }

  lemma AlignUpEight(value: nat)
    ensures AlignUp(value, 8) % 8 == 0
  {
    assert Pow2(3) == 8;
    AlignUpIsLeastMultiple(value, 3);
  }

  // ---------- sizes and offsets ----------

  const POINTER_SIZE: nat := 8

  function Min(a: nat, b: nat): nat { if a <= b then a else b }

  function Max(a: nat, b: nat): nat { if a >= b then a else b }

  function SizeInBytes(t: Type): nat
    decreases t, 0
  {
    match t
    case NoType => 8
    case Prim(k) => PrimSize(k)
    case Ptr(_) => POINTER_SIZE
    case Func => POINTER_SIZE
    case Struct(fields) =>
      AlignUp(FieldsEnd(fields, |fields|), Min(FieldsAlign(fields, |fields|), 16))
  }

  function PrimSize(k: Kind): nat {
    match k
    case I1 => 1
    case I8 => 1
    case U8 => 1
    case I16 => 2
    case U16 => 2
    case I32 => 4
    case U32 => 4
    case I128 => 16
    case U128 => 16
    case Void => 0
    case _ => 8
  }

  function AlignInBytes(t: Type): nat
    decreases t, 1
  {
    Min(SizeInBytes(t), if Is128(t) then 16 else 8)
  }

  /** End of the first `n` fields, before the padding of the next one. */
  function FieldsEnd(fields: seq<Type>, n: nat): nat
    requires n <= |fields|
    decreases fields, 0, n
  {
    if n == 0 then 0
    else AlignUp(FieldsEnd(fields, n - 1), AlignInBytes(fields[n - 1])) + SizeInBytes(fields[n - 1])
  }

  function FieldsAlign(fields: seq<Type>, n: nat): (r: nat)
    requires n <= |fields|
    ensures r >= 1
    decreases fields, 0, n
  {
    if n == 0 then 1 else Max(FieldsAlign(fields, n - 1), AlignInBytes(fields[n - 1]))
  }

  function FieldOffset(fields: seq<Type>, i: nat): nat {
    if i < |fields| then AlignUp(FieldsEnd(fields, i), AlignInBytes(fields[i]))
    else FieldsEnd(fields, |fields|)
  }

  method ComputeSizeInBytes(t: Type) returns (size: nat)
    ensures size == SizeInBytes(t)
    decreases t, 0
  {
    match t
    case NoType => return 8;
    case Prim(k) => return PrimSize(k);
    case Ptr(_) => return POINTER_SIZE;
    case Func => return POINTER_SIZE;
    case Struct(fields) =>
      var offset, maxAlign := 0, 1;
      for i := 0 to |fields|
        invariant offset == FieldsEnd(fields, i)
        invariant maxAlign == FieldsAlign(fields, i)
      {
        var fieldSize := ComputeSizeInBytes(fields[i]);
        var fieldAlign := ComputeAlignInBytes(fields[i]);
        offset := AlignUp(offset, fieldAlign);
        maxAlign := Max(maxAlign, fieldAlign);
        offset := offset + fieldSize;
      }
      return AlignUp(offset, Min(maxAlign, 16));
  }

  method ComputeAlignInBytes(t: Type) returns (align: nat)
    ensures align == AlignInBytes(t)
    decreases t, 1
  {
    var size := ComputeSizeInBytes(t);
    return Min(size, if Is128(t) then 16 else 8);
  }

  method ComputeFieldOffset(fields: seq<Type>, fieldIndex: nat) returns (offset: nat)
    ensures offset == FieldOffset(fields, fieldIndex)
  {
    offset := 0;
    for i := 0 to |fields|
      invariant offset == FieldsEnd(fields, i)
      invariant i <= fieldIndex
    {
      var fieldSize := ComputeSizeInBytes(fields[i]);
      var fieldAlign := ComputeAlignInBytes(fields[i]);
      offset := AlignUp(offset, fieldAlign);
      if i == fieldIndex { return; }
      offset := offset + fieldSize;
    }
  }
}
