/**
 What the opcodes compute, said in integers: sums and products up to multiples of the word size, quotients
 with their remainders, shifts by powers of two, bits one by one.  Signed operands appear as the integers
 that their words stand for.
 */
module OpcodeLaws {
  import opened Words
  import opened Types
  import opened Ir
  import opened VmMachine
  import opened VmCompiler

  predicate Congruent(m: int, x: int, y: int)
    requires m > 0
  {
    (x - y) % m == 0
  }

  /** The word `a` of a machine with `m` words stands for `x` in two's complement. */
  predicate StandsFor(m: int, a: int, x: int)
    requires m > 0
  {
    0 - m <= 2 * x < m && Congruent(m, a, x)
  }

  // ---------- words and integers ----------

  lemma MultipleIsCongruent(m: int, x: int, y: int, k: int)
    requires m > 0 && x - y == m * k
    ensures Congruent(m, x, y)
  {
    ModUnique(x - y, m, k, 0);
  }

  lemma Apart(m: int, x: int, y: int) returns (k: int)
    requires m > 0 && Congruent(m, x, y)
    ensures x - y == m * k
  {
    k := (x - y) / m;
  }

  lemma Scaled(m: int, k: int)
    requires m > 0
    ensures k >= 1 ==> m * k >= m && m * k >= k
    ensures k <= -1 ==> m * k <= 0 - m && m * k <= k
  {
    var d := m - 1;
    assert m * k == d * k + k && m * k == m * (k - 1) + m && m * k == m * (k + 1) - m;
    assert k >= 1 ==> d * k >= 0 && m * (k - 1) >= 0;
    assert k <= -1 ==> d * k <= 0 && m * (k + 1) <= 0;
  }

  lemma OneMultiple(m: int, k: int)
    requires m > 0 && 0 - m < m * k < m
    ensures k == 0
  {
    Scaled(m, k);
  }

  /** A word stands for one integer only. */
  lemma StandsUniquely(m: int, a: int, x: int, y: int)
    requires m > 0 && StandsFor(m, a, x) && StandsFor(m, a, y)
    ensures x == y
  {
    var j := Apart(m, a, x);
    var k := Apart(m, a, y);
    assert x - y == m * (k - j);
    OneMultiple(m, k - j);
  }

  lemma SignedStands(w: Width, a: nat)
    requires a < Modulus(w)
    ensures StandsFor(Modulus(w), a, Signed(w, a))
  {
    MultipleIsCongruent(Modulus(w), a, Signed(w, a), SignBit(w, a));
  }

  lemma StandsForSigned(w: Width, a: nat, x: int)
    requires a < Modulus(w) && StandsFor(Modulus(w), a, x)
    ensures x == Signed(w, a)
  {
    SignedStands(w, a);
    StandsUniquely(Modulus(w), a, x, Signed(w, a));
  }

  lemma WrapCongruent(w: Width, x: int)
    ensures Congruent(Modulus(w), Wrap(w, x), x)
  {
    MultipleIsCongruent(Modulus(w), Wrap(w, x), x, 0 - x / Modulus(w));
  }

  lemma WrapStands(w: Width, x: int)
    requires Representable(w, true, x)
    ensures StandsFor(Modulus(w), Wrap(w, x), x)
  {
    WrapCongruent(w, x);
  }

  // ---------- sums and products ----------

  lemma MovedOver(m: int, r: int, a: int, b: int)
    requires m > 0
    ensures Congruent(m, r, a - b) == Congruent(m, r + b, a)
  {
    assert r - (a - b) == r + b - a;
  }

  /** The words of sum, difference, product and negation, without signs. */
  lemma UnsignedForms(w: Width, a: nat, b: nat)
    ensures var x, y := Signed(w, a), Signed(w, b);
            AddW(w, x, y) == Wrap(w, a + b) && SubW(w, x, y) == Wrap(w, a - b) && MulW(w, x, y) == Wrap(w, a * b) &&
            MulW(w, a, b) == Wrap(w, a * b) && Wrap(w, -x) == Wrap(w, 0 - a)
  {
    hide Wrap, Signed;
    SignIrrelevant(w, a, b);
  }

  lemma SumsOf(w: Width, a: nat, b: nat)
    ensures var m, x, y := Modulus(w), Signed(w, a), Signed(w, b);
            Congruent(m, AddW(w, x, y), a + b) && Congruent(m, SubW(w, x, y) + b, a) &&
            Congruent(m, MulW(w, x, y), a * b) && MulW(w, a, b) == MulW(w, x, y) &&
            Congruent(m, Wrap(w, -x) + a, 0)
  {
    hide AddW, SubW, MulW, Wrap, Signed, Congruent;
    UnsignedForms(w, a, b);
    WrapCongruent(w, a + b);
    WrapCongruent(w, a - b);
    WrapCongruent(w, a * b);
    WrapCongruent(w, 0 - a);
    MovedOver(Modulus(w), Wrap(w, a - b), a, b);
    MovedOver(Modulus(w), Wrap(w, 0 - a), 0, a);
  }

  lemma SumOpcodes64(fpu: Fpu, a: Word, b: Word)
    ensures var x, y := Signed(W64, a), Signed(W64, b);
            Bin64(fpu, IAdd, a, b) == Some(AddW(W64, x, y)) && Bin64(fpu, ISub, a, b) == Some(SubW(W64, x, y)) &&
            Bin64(fpu, IMulS, a, b) == Some(MulW(W64, x, y)) && Bin64(fpu, IMulU, a, b) == Some(MulW(W64, a, b)) &&
            Un64(fpu, INeg, a) == Wrap(W64, -x)
  {
    hide AddW, SubW, MulW, Signed;
  }

  lemma SumOpcodes128(a: Quad, b: Quad)
    ensures var x, y := Signed(W128, a), Signed(W128, b);
            Bin128(IAdd128, a, b) == Some(AddW(W128, x, y)) && Bin128(ISub128, a, b) == Some(SubW(W128, x, y)) &&
            Bin128(IMul128, a, b) == Some(MulW(W128, x, y)) && Un128(INeg128, a) == Wrap(W128, -x)
  {
    hide AddW, SubW, MulW, Signed;
  }

  lemma Sums64(fpu: Fpu, a: Word, b: Word)
    ensures var sum, dif := Bin64(fpu, IAdd, a, b), Bin64(fpu, ISub, a, b);
            sum.Some? && Congruent(TWO64, sum.value, a + b) && dif.Some? && Congruent(TWO64, dif.value + b, a)
    ensures var p, q := Bin64(fpu, IMulS, a, b), Bin64(fpu, IMulU, a, b);
            p.Some? && Congruent(TWO64, p.value, a * b) && q == p
    ensures Congruent(TWO64, Un64(fpu, INeg, a) + a, 0)
  {
    hide AddW, SubW, MulW, Wrap, Signed, Bin64, Un64, Congruent;
    SumsOf(W64, a, b);
    SumOpcodes64(fpu, a, b);
  }

  lemma Sums128(a: Quad, b: Quad)
    ensures var sum, dif := Bin128(IAdd128, a, b), Bin128(ISub128, a, b);
            sum.Some? && Congruent(TWO128, sum.value, a + b) && dif.Some? && Congruent(TWO128, dif.value + b, a)
    ensures var p := Bin128(IMul128, a, b);
            p.Some? && Congruent(TWO128, p.value, a * b)
    ensures Congruent(TWO128, Un128(INeg128, a) + a, 0)
  {
    hide AddW, SubW, MulW, Wrap, Signed, Bin128, Un128, Congruent;
    SumsOf(W128, a, b);
    SumOpcodes128(a, b);
  }

  // ---------- quotients and remainders ----------

  /** Cut off toward zero: the remainder is smaller than the divisor and has the sign of the dividend. */
  predicate Divides(x: int, y: int, q: int, r: int) {
    x == y * q + r && Abs(r) < Abs(y) && (r > 0 ==> x > 0) && (r < 0 ==> x < 0)
  }

  /** Quotient and remainder of the absolute values, with signs. */
  lemma TruncSigns(x: int, y: int)
    requires y != 0
    ensures var a, b := Abs(x), Abs(y);
            b > 0 && a == b * (a / b) + a % b && 0 <= a / b <= a && 0 <= a % b < b &&
            TruncDiv(x, y) == if (x >= 0) == (y > 0) || x == 0 then a / b else 0 - (a / b)
  {
    QuotientBound(Abs(x), Abs(y));
  }

  lemma TruncDivides(x: int, y: int)
    requires y != 0
    ensures Divides(x, y, TruncDiv(x, y), TruncRem(x, y))
  {
    TruncSigns(x, y);
    var b: int := Abs(y);
    var q: int := Abs(x) / b;
    assert y * (0 - q) == 0 - y * q;
    assert y < 0 ==> y * q == 0 - b * q;
  }

  lemma SmallQuotient(a: nat, b: nat)
    requires b >= 2
    ensures 2 * (a / b) <= a
  {
    var q := a / b;
    assert b * q == 2 * q + (b - 2) * q;
  }

  lemma DividedByOne(a: nat)
    ensures a / 1 == a
  {
  }

  /** The one quotient that is no word is that of the lowest number and -1. */
  lemma QuotientRange(w: Width, x: int, y: int)
    requires Representable(w, true, x) && y != 0
    ensures Representable(w, true, TruncDiv(x, y)) <==> !(2 * x == 0 - Modulus(w) && y == -1)
  {
    TruncSigns(x, y);
    hide TruncDiv;
    var a, b := Abs(x), Abs(y);
    if b == 1 { DividedByOne(a); } else { SmallQuotient(a, b); }
  }

  lemma SignedDivision(w: Width, a: nat, b: nat, x: int, y: int)
    requires a < Modulus(w) && b < Modulus(w) && StandsFor(Modulus(w), a, x) && StandsFor(Modulus(w), b, y)
    ensures var q, r := DivW(w, true, Signed(w, a), Signed(w, b)), RemW(w, true, Signed(w, a), Signed(w, b));
            (q.Some? <==> y != 0 && !(2 * x == 0 - Modulus(w) && y == -1)) && (r.Some? <==> q.Some?) &&
            (q.Some? ==> StandsFor(Modulus(w), q.value, TruncDiv(x, y)) && StandsFor(Modulus(w), r.value, TruncRem(x, y)) &&
                         Divides(x, y, TruncDiv(x, y), TruncRem(x, y)))
  {
    StandsForSigned(w, a, x);
    StandsForSigned(w, b, y);
    if y != 0 {
      QuotientRange(w, x, y);
      TruncDivides(x, y);
      if Representable(w, true, TruncDiv(x, y)) {
        WrapStands(w, TruncDiv(x, y));
        WrapStands(w, TruncRem(x, y));
      }
    }
  }

  lemma Division64(fpu: Fpu, a: Word, b: Word, x: int, y: int)
    requires StandsFor(TWO64, a, x) && StandsFor(TWO64, b, y)
    ensures var q, r := Bin64(fpu, IDivS, a, b), Bin64(fpu, IRemS, a, b);
            (q.Some? <==> y != 0 && !(x == 0 - TWO63 && y == -1)) && (r.Some? <==> q.Some?) &&
            (q.Some? ==> exists i, j :: StandsFor(TWO64, q.value, i) && StandsFor(TWO64, r.value, j) && Divides(x, y, i, j))
    ensures var q, r := Bin64(fpu, IDivU, a, b), Bin64(fpu, IRemU, a, b);
            (q.Some? <==> b != 0) && (r.Some? <==> b != 0) && (b != 0 ==> Divides(a, b, q.value, r.value))
  {
    SignedDivision(W64, a, b, x, y);
    if b != 0 { QuotientBound(a, b); }
  }

  lemma Division128(a: Quad, b: Quad, x: int, y: int)
    requires StandsFor(TWO128, a, x) && StandsFor(TWO128, b, y)
    ensures var q, r := Bin128(IDivS128, a, b), Bin128(IRemS128, a, b);
            (q.Some? <==> y != 0 && !(2 * x == 0 - TWO128 && y == -1)) && (r.Some? <==> q.Some?) &&
            (q.Some? ==> exists i, j :: StandsFor(TWO128, q.value, i) && StandsFor(TWO128, r.value, j) && Divides(x, y, i, j))
    ensures var q, r := Bin128(IDivU128, a, b), Bin128(IRemU128, a, b);
            (q.Some? <==> b != 0) && (r.Some? <==> b != 0) && (b != 0 ==> Divides(a, b, q.value, r.value))
  {
    SignedDivision(W128, a, b, x, y);
    if b != 0 { QuotientBound(a, b); }
  }

  // ---------- shifts ----------

  /** `q` is `x` over 2^s, rounded down. */
  predicate Shifted(x: int, s: nat, q: int) { Pow2(s) * q <= x < Pow2(s) * (q + 1) }

  lemma FloorShift(x: int, s: nat)
    ensures Shifted(x, s, x / Pow2(s))
  {
    var p := Pow2(s);
    assert p * (x / p + 1) == p * (x / p) + p;
  }

  lemma FloorInRange(x: int, p: nat)
    requires p > 0
    ensures x >= 0 ==> 0 <= x / p <= x
    ensures x < 0 ==> x <= x / p < 0
  {
    var q := x / p;
    assert p * q <= x < p * q + p;
    assert p * (q + 1) == p * q + p;
    Scaled(p, q);
    Scaled(p, q + 1);
  }

  lemma ShiftsOf(w: Width, a: nat, x: int, s: nat)
    requires a < Modulus(w) && StandsFor(Modulus(w), a, x)
    ensures Congruent(Modulus(w), ShlW(w, a, s), a * Pow2(s % Bits(w)))
    ensures StandsFor(Modulus(w), ShrW(w, Signed(w, a), s), x / Pow2(s % Bits(w)))
    ensures ShrW(w, a, s) == a / Pow2(s % Bits(w))
  {
    var k := s % Bits(w);
    WrapCongruent(w, a * Pow2(k));
    StandsForSigned(w, a, x);
    FloorInRange(x, Pow2(k));
    WrapStands(w, x / Pow2(k));
    FloorInRange(a, Pow2(k));
    WrapSmall(w, a / Pow2(k));
  }

  lemma Shifts64(fpu: Fpu, a: Word, b: Word, x: int)
    requires StandsFor(TWO64, a, x)
    ensures var l := Bin64(fpu, IShl, a, b); l.Some? && Congruent(TWO64, l.value, a * Pow2(b % 64))
    ensures var s := Bin64(fpu, IShrS, a, b); s.Some? && exists q :: StandsFor(TWO64, s.value, q) && Shifted(x, b % 64, q)
    ensures var u := Bin64(fpu, IShrU, a, b); u.Some? && Shifted(a, b % 64, u.value)
  {
    ShiftsOf(W64, a, x, b);
    FloorShift(x, b % 64);
    FloorShift(a, b % 64);
  }

  lemma Shifts128(a: Quad, b: Quad, x: int)
    requires StandsFor(TWO128, a, x)
    ensures var l := Bin128(IShl128, a, b); l.Some? && Congruent(TWO128, l.value, a * Pow2(b % 128))
    ensures var s := Bin128(IShrS128, a, b); s.Some? && exists q :: StandsFor(TWO128, s.value, q) && Shifted(x, b % 128, q)
    ensures var u := Bin128(IShrU128, a, b); u.Some? && Shifted(a, b % 128, u.value)
  {
    ShiftsOf(W128, a, x, b);
    FloorShift(x, b % 128);
    FloorShift(a, b % 128);
  }

  // ---------- bits ----------

  predicate BitAt(a: nat, i: nat) { a / Pow2(i) % 2 == 1 }

  lemma HalveTwice(a: nat, p: nat)
    requires p > 0
    ensures a / (2 * p) == a / 2 / p
  {
    var q, r := a / 2 / p, a / 2 % p;
    assert a / 2 == p * q + r;
    assert (2 * p) * q == 2 * (p * q);
    DivUnique(a, 2 * p, q, 2 * r + a % 2);
  }

  lemma DivUnique(x: int, m: int, q: int, r: int)
    requires m > 0 && 0 <= r < m && x == m * q + r
    ensures x / m == q
  {
    ModUnique(x, m, q, r);
    assert m * (x / m - q) == 0;
    OneMultiple(m, x / m - q);
  }

  lemma NextBit(a: nat, i: nat)
    requires i > 0
    ensures BitAt(a, i) == BitAt(a / 2, i - 1)
  {
    HalveTwice(a, Pow2(i - 1));
  }

  lemma {:induction false} BitwiseBit(op: BitOp, a: nat, b: nat, n: nat, i: nat)
    requires i < n
    ensures BitAt(Bitwise(op, a, b, n), i) ==
            match op
            case BAnd => BitAt(a, i) && BitAt(b, i)
            case BOr => BitAt(a, i) || BitAt(b, i)
            case BXor => BitAt(a, i) != BitAt(b, i)
    decreases n
  {
    var r := Bitwise(op, a, b, n);
    assert r / 2 == Bitwise(op, a / 2, b / 2, n - 1) && r % 2 == Bit(op, a % 2, b % 2);
    if i == 0 {
      assert Pow2(0) == 1;
    } else {
      NextBit(r, i);
      NextBit(a, i);
      NextBit(b, i);
      BitwiseBit(op, a / 2, b / 2, n - 1, i - 1);
    }
  }

  lemma {:induction false} ComplementBit(a: nat, n: nat, i: nat)
    requires a < Pow2(n) && i < n
    ensures BitAt(Pow2(n) - 1 - a, i) == !BitAt(a, i)
    decreases n
  {
    var r, p := Pow2(n) - 1 - a, Pow2(n - 1);
    assert Pow2(n) == 2 * p;
    assert r / 2 == p - 1 - a / 2 && r % 2 == 1 - a % 2;
    if i == 0 {
      assert Pow2(0) == 1;
    } else {
      NextBit(r, i);
      NextBit(a, i);
      ComplementBit(a / 2, n - 1, i - 1);
    }
  }

  lemma Bits64(fpu: Fpu, a: Word, b: Word, i: nat)
    requires i < 64
    ensures var c := Bin64(fpu, IAnd, a, b); c.Some? && (BitAt(c.value, i) <==> BitAt(a, i) && BitAt(b, i))
    ensures var d := Bin64(fpu, IOr, a, b); d.Some? && (BitAt(d.value, i) <==> BitAt(a, i) || BitAt(b, i))
    ensures var x := Bin64(fpu, IXor, a, b); x.Some? && (BitAt(x.value, i) <==> BitAt(a, i) != BitAt(b, i))
    ensures BitAt(Un64(fpu, IBitNot, a), i) <==> !BitAt(a, i)
  {
    hide BitAt, Bitwise, Pow2;
    PowersOf2();
    BitwiseBit(BAnd, a, b, 64, i);
    BitwiseBit(BOr, a, b, 64, i);
    BitwiseBit(BXor, a, b, 64, i);
    ComplementBit(a, 64, i);
  }

  lemma Bits128(a: Quad, b: Quad, i: nat)
    requires i < 128
    ensures var c := Bin128(IAnd128, a, b); c.Some? && (BitAt(c.value, i) <==> BitAt(a, i) && BitAt(b, i))
    ensures var d := Bin128(IOr128, a, b); d.Some? && (BitAt(d.value, i) <==> BitAt(a, i) || BitAt(b, i))
    ensures var x := Bin128(IXor128, a, b); x.Some? && (BitAt(x.value, i) <==> BitAt(a, i) != BitAt(b, i))
    ensures BitAt(Un128(IBitNot128, a), i) <==> !BitAt(a, i)
  {
    hide BitAt, Bitwise, Pow2;
    PowersOf2();
    BitwiseBit(BAnd, a, b, 128, i);
    BitwiseBit(BOr, a, b, 128, i);
    BitwiseBit(BXor, a, b, 128, i);
    ComplementBit(a, 128, i);
  }

  // ---------- comparisons ----------

  /** A truth value in a register. */
  predicate Tells(w: Word, b: bool) { w <= 1 && (w == 1 <==> b) }

  predicate Answers(w: Option<Word>, b: bool) { w.Some? && Tells(w.value, b) }

  /** The integers of two words relate as their signed values do. */
  lemma SameOrder(w: Width, a: nat, b: nat, x: int, y: int)
    requires a < Modulus(w) && b < Modulus(w) && StandsFor(Modulus(w), a, x) && StandsFor(Modulus(w), b, y)
    ensures x == Signed(w, a) && y == Signed(w, b) && (x == y <==> a == b)
  {
    StandsForSigned(w, a, x);
    StandsForSigned(w, b, y);
    SignedInjective(w, a, b);
  }

  lemma SignedComparisons64(fpu: Fpu, a: Word, b: Word)
    ensures var x, y := Signed(W64, a), Signed(W64, b);
            Bin64(fpu, ICmpLTS, a, b) == Some(BoolWord(x < y)) && Bin64(fpu, ICmpGTS, a, b) == Some(BoolWord(x > y)) &&
            Bin64(fpu, ICmpLES, a, b) == Some(BoolWord(x <= y)) && Bin64(fpu, ICmpGES, a, b) == Some(BoolWord(x >= y)) &&
            Bin64(fpu, ICmpEQ, a, b) == Some(BoolWord(x == y)) && Bin64(fpu, ICmpNE, a, b) == Some(BoolWord(x != y))
  {
    hide Signed, BoolWord;
  }

  lemma UnsignedComparisons64(fpu: Fpu, a: Word, b: Word)
    ensures Answers(Bin64(fpu, ICmpLTU, a, b), a < b) && Answers(Bin64(fpu, ICmpGTU, a, b), a > b)
    ensures Answers(Bin64(fpu, ICmpLEU, a, b), a <= b) && Answers(Bin64(fpu, ICmpGEU, a, b), a >= b)
    ensures Tells(Un64(fpu, INot, a), a == 0)
  {
    hide Signed;
  }

  lemma Comparisons64(fpu: Fpu, a: Word, b: Word, x: int, y: int)
    requires StandsFor(TWO64, a, x) && StandsFor(TWO64, b, y)
    ensures Answers(Bin64(fpu, ICmpLTS, a, b), x < y) && Answers(Bin64(fpu, ICmpGTS, a, b), x > y)
    ensures Answers(Bin64(fpu, ICmpLES, a, b), x <= y) && Answers(Bin64(fpu, ICmpGES, a, b), x >= y)
    ensures Answers(Bin64(fpu, ICmpLTU, a, b), a < b) && Answers(Bin64(fpu, ICmpGTU, a, b), a > b)
    ensures Answers(Bin64(fpu, ICmpLEU, a, b), a <= b) && Answers(Bin64(fpu, ICmpGEU, a, b), a >= b)
    ensures Answers(Bin64(fpu, ICmpEQ, a, b), a == b) && Answers(Bin64(fpu, ICmpNE, a, b), a != b)
    ensures Tells(Un64(fpu, INot, a), a == 0)
  {
    hide Bin64, Un64, Signed, StandsFor;
    SameOrder(W64, a, b, x, y);
    SignedComparisons64(fpu, a, b);
    UnsignedComparisons64(fpu, a, b);
  }

  lemma SignedComparisons128(a: Quad, b: Quad)
    ensures var x, y := Signed(W128, a), Signed(W128, b);
            Cmp128(ICmpLTS128, a, b) == BoolWord(x < y) && Cmp128(ICmpGTS128, a, b) == BoolWord(x > y) &&
            Cmp128(ICmpLES128, a, b) == BoolWord(x <= y) && Cmp128(ICmpGES128, a, b) == BoolWord(x >= y) &&
            Cmp128(ICmpEQ128, a, b) == BoolWord(x == y) && Cmp128(ICmpNE128, a, b) == BoolWord(x != y)
  {
    hide Signed, BoolWord;
  }

  lemma UnsignedComparisons128(fpu: Fpu, a: Quad, b: Quad)
    ensures Tells(Cmp128(ICmpLTU128, a, b), a < b) && Tells(Cmp128(ICmpGTU128, a, b), a > b)
    ensures Tells(Cmp128(ICmpLEU128, a, b), a <= b) && Tells(Cmp128(ICmpGEU128, a, b), a >= b)
    ensures Tells(Narrow(fpu, INot128, a), a == 0)
  {
    hide Signed;
  }

  lemma Comparisons128(fpu: Fpu, a: Quad, b: Quad, x: int, y: int)
    requires StandsFor(TWO128, a, x) && StandsFor(TWO128, b, y)
    ensures Tells(Cmp128(ICmpLTS128, a, b), x < y) && Tells(Cmp128(ICmpGTS128, a, b), x > y)
    ensures Tells(Cmp128(ICmpLES128, a, b), x <= y) && Tells(Cmp128(ICmpGES128, a, b), x >= y)
    ensures Tells(Cmp128(ICmpLTU128, a, b), a < b) && Tells(Cmp128(ICmpGTU128, a, b), a > b)
    ensures Tells(Cmp128(ICmpLEU128, a, b), a <= b) && Tells(Cmp128(ICmpGEU128, a, b), a >= b)
    ensures Tells(Cmp128(ICmpEQ128, a, b), a == b) && Tells(Cmp128(ICmpNE128, a, b), a != b)
    ensures Tells(Narrow(fpu, INot128, a), a == 0)
  {
    hide Cmp128, Narrow, Signed, StandsFor;
    SameOrder(W128, a, b, x, y);
    SignedComparisons128(a, b);
    UnsignedComparisons128(fpu, a, b);
  }

  // ---------- between the widths ----------

  /** Sign extension keeps the integer, zero extension the word, truncation the low half. */
  lemma Extensions(fpu: Fpu, a: Word, b: Quad, x: int)
    requires StandsFor(TWO64, a, x)
    ensures StandsFor(TWO128, Widen(fpu, SExt128, a), x) && StandsFor(TWO128, Widen(fpu, CmovS128, a), x)
    ensures Widen(fpu, ZExt128, a) == a && Widen(fpu, CmovU128, a) == a
    ensures Congruent(TWO64, Narrow(fpu, Trunc128, b), b)
    ensures Un64(fpu, VMov, a) == Un64(fpu, Cmov, a) == Un64(fpu, VBitcast, a) == a && Un128(Mov128, b) == b
  {
    StandsForSigned(W64, a, x);
    WrapStands(W128, x);
    WrapCongruent(W64, b);
  }

  // ---------- types ----------

  /** The opcode that a type selects: by its set of kinds, which is spelled out here. */
  lemma OpcodeByType(op: Op, t: Type)
    requires op.Div? || op.Rem? || op.Shr?
    ensures SelectArith(op, t).Some? ==>
              (SelectArith(op, t).value in {OBin64(IDivU), OBin64(IRemU), OBin64(IShrU)} <==>
                 t in {Prim(U8), Prim(U16), Prim(U32), Prim(U64)}) &&
              (SelectArith(op, t).value in {OBin128(IDivU128), OBin128(IRemU128), OBin128(IShrU128)} <==> t == Prim(U128)) &&
              (SelectArith(op, t).value in {OBin128(IDivS128), OBin128(IRemS128), OBin128(IShrS128)} <==> t == Prim(I128)) &&
              (SelectArith(op, t).value == OBin64(FDiv) <==> t in {Prim(F32), Prim(F64)})
    ensures SelectArith(op, t).None? <==> t == NoType || (t in {Prim(F32), Prim(F64)} && !op.Div?)
  {
  }

  /** The unsigned comparisons, at either width. */
  const UNSIGNED_COMPARISONS: set<VmOp> :=
    {OBin64(ICmpLTU), OBin64(ICmpGTU), OBin64(ICmpLEU), OBin64(ICmpGEU),
     OCmp128(ICmpLTU128), OCmp128(ICmpGTU128), OCmp128(ICmpLEU128), OCmp128(ICmpGEU128)}

  const FLOAT_COMPARISONS: set<VmOp> :=
    {OBin64(FCmpLT), OBin64(FCmpGT), OBin64(FCmpLE), OBin64(FCmpGE), OBin64(FCmpEQ), OBin64(FCmpNE)}

  /** A comparison is one of floats if an operand is a float, wide if one is wide, and unsigned if the left one is. */
  lemma ComparisonByTypes(op: Op, lt: Type, rt: Type)
    requires IsCompare(op)
    ensures SelectCompare(op, lt, rt).Some?
    ensures SelectCompare(op, lt, rt).value in FLOAT_COMPARISONS <==>
            lt in {Prim(F32), Prim(F64)} || rt in {Prim(F32), Prim(F64)}
    ensures SelectCompare(op, lt, rt).value.OCmp128? <==>
            SelectCompare(op, lt, rt).value !in FLOAT_COMPARISONS && (lt in {Prim(I128), Prim(U128)} || rt in {Prim(I128), Prim(U128)})
    ensures SelectCompare(op, lt, rt).value in UNSIGNED_COMPARISONS <==>
            op in {Op.Lt, Op.Gt, Op.Le, Op.Ge} && SelectCompare(op, lt, rt).value !in FLOAT_COMPARISONS &&
            lt in {Prim(U8), Prim(U16), Prim(U32), Prim(U64), Prim(U128)}
  {
  }

  /** The unsigned types, one by one. */
  predicate Unsigned(t: Type) { t in {Prim(U8), Prim(U16), Prim(U32), Prim(U64), Prim(U128)} }

  /** A wide register gets the integer that a word stands for at the type it comes from: its own, or for a constant the new one. */
  lemma MoveByTypes(fpu: Fpu, t: Type, s: Type, a: Word, x: int)
    requires t in {Prim(I128), Prim(U128)} && s !in {NoType, Prim(I128), Prim(U128)} && StandsFor(TWO64, a, x)
    ensures var m := SelectUnary(Mov, t, s, false);
            m.Some? && m.value.OWiden? &&
            (if Unsigned(s) then Widen(fpu, m.value.widen, a) == a else StandsFor(TWO128, Widen(fpu, m.value.widen, a), x))
    ensures var c := SelectUnary(Mov, t, s, true);
            c.Some? && c.value.OWiden? &&
            (if Unsigned(t) then Widen(fpu, c.value.widen, a) == a else StandsFor(TWO128, Widen(fpu, c.value.widen, a), x))
  {
    Extensions(fpu, a, 0, x);
  }

  /** Conversions of wide integers to floats take the sign from the operand's type. */
  lemma ConversionByTypes(fpu: Fpu, t: Type, s: Type, a: Quad)
    requires s in {Prim(I128), Prim(U128)}
    ensures var m := SelectUnary(I2F, t, s, false);
            m.Some? && m.value.ONarrow? && Narrow(fpu, m.value.narrow, a) == fpu.fromQuad(s == Prim(I128), a)
  {
  }

  /** One-operand operations work at the width of their type: negation and complement at the result's, the others at the operand's. */
  lemma WidthByTypes(op: Op, t: Type, s: Type)
    requires op in {Op.Neg, Op.BitNot, Op.Not}
    ensures var m := SelectUnary(op, t, s, false);
            m.Some? <==> op.Neg? || t !in {Prim(F32), Prim(F64)}
    ensures var m := SelectUnary(op, t, s, false);
            m.Some? ==> (m.value == OUn64(FNeg) <==> t in {Prim(F32), Prim(F64)}) &&
                        (m.value.OUn128? <==> !op.Not? && t in {Prim(I128), Prim(U128)}) &&
                        (m.value.ONarrow? <==> op.Not? && s in {Prim(I128), Prim(U128)})
  {
  }
}
