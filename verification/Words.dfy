/**
 Machine words: 64-bit register words and 128-bit wide words as naturals, their
 little-endian byte images, and two's complement arithmetic.
 */
module Words {

  const TWO64: int := 0x1_0000_0000_0000_0000
  const TWO63: int := 0x8000_0000_0000_0000
  const TWO128: int := 0x1_0000_0000_0000_0000_0000_0000_0000_0000

  type Byte = n: nat | n < 256
  type Word = n: nat | n < TWO64
  type Quad = n: nat | n < TWO128
  type Int32 = n: int | -0x8000_0000 <= n < 0x8000_0000
  type Int64 = n: int | -TWO63 <= n < TWO63

  datatype Option<+T> = None | Some(value: T)

  // ---------- little-endian byte images ----------

  function Pow256(n: nat): (r: nat)
    ensures r > 0
  {
    if n == 0 then 1 else 256 * Pow256(n - 1)
  }

  /** The `n` low bytes of `v`, lowest first: what `memcpy` from a register stores. */
  function ToBytes(v: nat, n: nat): (s: seq<Byte>)
    ensures |s| == n
  {
    if n == 0 then [] else [v % 256] + ToBytes(v / 256, n - 1)
  }

  function FromBytes(s: seq<Byte>): (v: nat)
    ensures v < Pow256(|s|)
  {
    if s == [] then 0 else s[0] + 256 * FromBytes(s[1..])
  }

  lemma {:induction false} ZeroImage(n: nat)
    ensures forall i :: 0 <= i < n ==> ToBytes(0, n)[i] == 0
    decreases n
  {
    if n > 0 { ZeroImage(n - 1); }
  }

  /** Storing and reloading a value that fits loses nothing. */
  lemma {:induction false} BytesRoundTrip(v: nat, n: nat)
    requires v < Pow256(n)
    ensures FromBytes(ToBytes(v, n)) == v
  {
    if n > 0 {
      var s := ToBytes(v, n);
      assert s[1..] == ToBytes(v / 256, n - 1);
      BytesRoundTrip(v / 256, n - 1);
    }
  }

  lemma {:induction false} ImageRoundTrip(s: seq<Byte>)
    ensures ToBytes(FromBytes(s), |s|) == s
  {
    if s != [] {
      ImageRoundTrip(s[1..]);
      var v := FromBytes(s);
      assert v % 256 == s[0] && v / 256 == FromBytes(s[1..]);
      assert [s[0]] + s[1..] == s;
    }
  }

  lemma PowersOf256()
    ensures Pow256(8) == TWO64 && Pow256(16) == TWO128
  {
    assert Pow256(4) == 0x1_0000_0000;
    assert Pow256(8) == 0x1_0000_0000 * Pow256(4);
    assert Pow256(12) == 0x1_0000_0000 * Pow256(8);
    assert Pow256(16) == 0x1_0000_0000 * Pow256(12);
  }

  lemma Pow256Monotone(m: nat, n: nat)
    requires m <= n
    ensures Pow256(m) <= Pow256(n)
    decreases n
  {
    if m < n { Pow256Monotone(m, n - 1); }
  }

  function WordOf(s: seq<Byte>): Word
    requires |s| <= 8
  {
    PowersOf256();
    Pow256Monotone(|s|, 8);
    FromBytes(s)
  }

  function QuadOf(s: seq<Byte>): Quad
    requires |s| == 16
  {
    PowersOf256();
    FromBytes(s)
  }

  lemma WordRoundTrip(w: Word)
    ensures WordOf(ToBytes(w, 8)) == w
  {
    PowersOf256();
    BytesRoundTrip(w, 8);
  }

  lemma QuadRoundTrip(q: Quad)
    ensures QuadOf(ToBytes(q, 16)) == q
  {
    PowersOf256();
    BytesRoundTrip(q, 16);
  }

  // ---------- two's complement ----------

  datatype Width = W64 | W128

  function Modulus(w: Width): (m: nat)
    ensures m > 0
  {
    match w case W64 => TWO64 case W128 => TWO128
  }

  function Bits(w: Width): nat {
    match w case W64 => 64 case W128 => 128
  }

  function Wrap(w: Width, x: int): (r: nat)
    ensures r < Modulus(w)
  {
    x % Modulus(w)
  }

  function Signed(w: Width, a: nat): int {
    if 2 * a < Modulus(w) then a else a - Modulus(w)
  }

  /** The integer a word stands for at a signed or unsigned type. */
  function Meaning(w: Width, signed: bool, a: nat): int {
    if signed then Signed(w, a) else a
  }

  /** 64-bit signed arithmetic that leaves its range by one step wraps around. */
  function Wrapped(n: int): Int64
    requires -TWO64 <= n < TWO64
  {
    if n >= TWO63 then n - TWO64 else if n < -TWO63 then n + TWO64 else n
  }

  function WordOfInt(v: int): Word { v % TWO64 }

  function QuadOfInt(v: int): Quad { v % TWO128 }

  lemma {:induction false} WrapMultiple(w: Width, x: int, k: int)
    ensures Wrap(w, x + k * Modulus(w)) == Wrap(w, x)
    decreases if k < 0 then -k else k
  {
    if k > 0 {
      WrapMultiple(w, x, k - 1);
      WrapOnce(w, x + (k - 1) * Modulus(w));
      assert x + k * Modulus(w) == x + (k - 1) * Modulus(w) + Modulus(w);
    } else if k < 0 {
      WrapMultiple(w, x, k + 1);
      WrapOnce(w, x + k * Modulus(w));
      assert x + (k + 1) * Modulus(w) == x + k * Modulus(w) + Modulus(w);
    }
  }

  lemma WrapOnce(w: Width, x: int)
    ensures Wrap(w, x + Modulus(w)) == Wrap(w, x)
  {
    var m := Modulus(w);
    ModUnique(x + m, m, x / m + 1, x % m);
  }

  lemma ModUnique(x: int, m: int, q: int, r: int)
    requires m > 0 && 0 <= r < m && x == m * q + r
    ensures x % m == r
  {
    var d := q - x / m;
    assert m * d == x % m - r;
    assert d >= 1 ==> m * d >= m;
    assert d <= -1 ==> m * d <= -m;
  }

  function SignBit(w: Width, a: nat): int {
    if 2 * a < Modulus(w) then 0 else 1
  }

  lemma SignedIsShifted(w: Width, a: nat)
    ensures Signed(w, a) == a - SignBit(w, a) * Modulus(w)
  {
  }

  /** Addition, subtraction, multiplication and negation do not see the sign of their operands. */
  lemma SignIrrelevant(w: Width, a: nat, b: nat)
    ensures Wrap(w, Signed(w, a) + Signed(w, b)) == Wrap(w, a + b)
    ensures Wrap(w, Signed(w, a) - Signed(w, b)) == Wrap(w, a - b)
    ensures Wrap(w, Signed(w, a) * Signed(w, b)) == Wrap(w, a * b)
    ensures Wrap(w, -Signed(w, a)) == Wrap(w, 0 - a)
  {
    var m := Modulus(w);
    var j, k := SignBit(w, a), SignBit(w, b);
    SignedIsShifted(w, a);
    SignedIsShifted(w, b);
    WrapMultiple(w, a + b, -(j + k));
    assert Signed(w, a) + Signed(w, b) == a + b + (-(j + k)) * m;
    WrapMultiple(w, a - b, k - j);
    assert Signed(w, a) - Signed(w, b) == a - b + (k - j) * m;
    SignedProduct(w, a, b, j, k, m);
    WrapMultiple(w, a * b, j * k * m - j * b - k * a);
    WrapMultiple(w, 0 - a, j);
    assert -Signed(w, a) == 0 - a + j * m;
  }

  lemma SignedProduct(w: Width, a: int, b: int, j: int, k: int, m: int)
    ensures (a - j * m) * (b - k * m) == a * b + (j * k * m - j * b - k * a) * m
  {
    assert (a - j * m) * (b - k * m) == a * b - a * (k * m) - (j * m) * b + (j * m) * (k * m);
    assert (j * k * m - j * b - k * a) * m == (j * k * m) * m - (j * b) * m - (k * a) * m;
    assert (j * m) * (k * m) == (j * k * m) * m;
    assert a * (k * m) == (k * a) * m;
    assert (j * m) * b == (j * b) * m;
  }

  lemma SignedInjective(w: Width, a: nat, b: nat)
    requires a < Modulus(w) && b < Modulus(w)
    ensures Signed(w, a) == Signed(w, b) <==> a == b
  {
  }

  /** Division as the hardware does it: the quotient is cut off toward zero. */
  function TruncDiv(a: int, b: int): int
    requires b != 0
  {
    if (a >= 0) == (b > 0) || a == 0 then Abs(a) / Abs(b) else -(Abs(a) / Abs(b))
  }

  function TruncRem(a: int, b: int): int
    requires b != 0
  {
    a - b * TruncDiv(a, b)
  }

  function Abs(a: int): nat {
    if a < 0 then -a else a
  }

  // ---------- arithmetic modulo the word ----------

  function AddW(w: Width, x: int, y: int): (r: nat)
    ensures r < Modulus(w)
  {
    Wrap(w, x + y)
  }

  function SubW(w: Width, x: int, y: int): (r: nat)
    ensures r < Modulus(w)
  {
    Wrap(w, x - y)
  }

  function MulW(w: Width, x: int, y: int): (r: nat)
    ensures r < Modulus(w)
  {
    Wrap(w, x * y)
  }

  predicate Representable(w: Width, signed: bool, x: int) {
    if signed then 0 - Modulus(w) <= 2 * x < Modulus(w) else 0 <= x < Modulus(w)
  }

  /** Quotient cut off toward zero; no value for a zero divisor or a quotient out of range. */
  function DivW(w: Width, signed: bool, x: int, y: int): (r: Option<nat>)
    ensures r.Some? ==> r.value < Modulus(w)
  {
    if y == 0 || !Representable(w, signed, TruncDiv(x, y)) then None else Some(Wrap(w, TruncDiv(x, y)))
  }

  function RemW(w: Width, signed: bool, x: int, y: int): (r: Option<nat>)
    ensures r.Some? ==> r.value < Modulus(w)
  {
    if y == 0 || !Representable(w, signed, TruncDiv(x, y)) then None else Some(Wrap(w, TruncRem(x, y)))
  }

  /** Unsigned division of two words. */
  function UDivW(w: Width, a: nat, b: nat): (r: Option<nat>)
    requires a < Modulus(w)
    ensures r.Some? ==> r.value < Modulus(w)
  {
    if b == 0 then None else QuotientBound(a, b); Some(a / b)
  }

  function URemW(w: Width, a: nat, b: nat): (r: Option<nat>)
    requires a < Modulus(w)
    ensures r.Some? ==> r.value < Modulus(w)
  {
    if b == 0 then None else QuotientBound(a, b); Some(a % b)
  }

  lemma MulBounds(b: nat, q: int)
    requires b > 0
    ensures q >= 0 ==> b * q >= q
    ensures q <= -1 ==> b * q <= 0 - b
  {
    if q >= 0 {
      assert b * q == q + (b - 1) * q;
    } else {
      assert b * q == b * (q + 1) - b;
      assert b * (q + 1) <= 0;
    }
  }

  lemma QuotientBound(a: nat, b: nat)
    requires b > 0
    ensures 0 <= a / b <= a && 0 <= a % b <= a && a == b * (a / b) + a % b
  {
    MulBounds(b, a / b);
  }

  lemma TruncOfNats(a: nat, b: nat)
    requires b > 0
    ensures TruncDiv(a, b) == a / b && TruncRem(a, b) == a % b
  {
    QuotientBound(a, b);
  }

  /** On non-negative operands signed and unsigned division are the same. */
  lemma UnsignedDivision(w: Width, a: nat, b: nat)
    requires a < Modulus(w)
    ensures DivW(w, false, a, b) == UDivW(w, a, b)
    ensures RemW(w, false, a, b) == URemW(w, a, b)
  {
    if b > 0 {
      TruncOfNats(a, b);
      QuotientBound(a, b);
      WrapSmall(w, a / b);
      WrapSmall(w, a % b);
    }
  }

  lemma WrapSmall(w: Width, x: nat)
    requires x < Modulus(w)
    ensures Wrap(w, x) == x
  {
  }

  function ShlW(w: Width, a: nat, s: nat): (r: nat)
    ensures r < Modulus(w)
  {
    Wrap(w, a * Pow2(s % Bits(w)))
  }

  /** Arithmetic for a signed `x`, logical for an unsigned one. */
  function ShrW(w: Width, x: int, s: nat): (r: nat)
    ensures r < Modulus(w)
  {
    Wrap(w, x / Pow2(s % Bits(w)))
  }

  // ---------- bitwise operations ----------

  datatype BitOp = BAnd | BOr | BXor

  function Bit(op: BitOp, a: nat, b: nat): (r: nat)
    ensures r <= 1
  {
    match op
    case BAnd => if a == 1 && b == 1 then 1 else 0
    case BOr => if a == 1 || b == 1 then 1 else 0
    case BXor => if a != b then 1 else 0
  }

  function Pow2(n: nat): (r: nat)
    ensures r > 0
  {
    if n == 0 then 1 else 2 * Pow2(n - 1)
  }

  function Bitwise(op: BitOp, a: nat, b: nat, n: nat): (r: nat)
    ensures r < Pow2(n)
  {
    if n == 0 then 0 else 2 * Bitwise(op, a / 2, b / 2, n - 1) + Bit(op, a % 2, b % 2)
  }

  lemma Pow2Sum(m: nat, n: nat)
    ensures Pow2(m + n) == Pow2(m) * Pow2(n)
  {
    if m > 0 {
      Pow2Sum(m - 1, n);
      assert Pow2(m + n) == 2 * (Pow2(m - 1) * Pow2(n));
    }
  }

  lemma Pow2Doubled(n: nat, c: int)
    requires Pow2(n) == c
    ensures Pow2(n + n) == c * c
  {
    Pow2Sum(n, n);
  }

  lemma PowersOf2()
    ensures Pow2(64) == TWO64 && Pow2(128) == TWO128
  {
    assert Pow2(4) == 16;
    Pow2Doubled(4, 16);
    Pow2Doubled(8, 0x100);
    Pow2Doubled(16, 0x1_0000);
    Pow2Doubled(32, 0x1_0000_0000);
    Pow2Doubled(64, TWO64);
  }

  function BitwiseOp(w: Width, op: BitOp, a: nat, b: nat): (r: nat)
    ensures r < Modulus(w)
  {
    PowersOf2();
    Bitwise(op, a, b, Bits(w))
  }
}
