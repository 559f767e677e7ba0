/**
 UTF-8 as the string runtime encodes and decodes it, with the masks of the code, against
 texts that are sequences of code points (RFC 3629, section 3).
 */
module Utf8 {
  import opened Words
  import opened Types

  /** Strings are terminated by a zero byte, so zero is no text. */
  type CodePoint = c: int | 0 < c <= 0x10FFFF witness 1

  type Text = seq<CodePoint>

  // ---------- bits ----------

  /** Bitwise or. */
  function OrNat(x: nat, m: nat): nat { x + m - AndNat(x, m) }

  lemma AndEven(x: nat, m: nat)
    ensures AndNat(x, 2 * m) == 2 * AndNat(x / 2, m)
  {
    assert (2 * m) / 2 == m && (2 * m) % 2 == 0;
  }

  lemma AndQuarter(x: nat, m: nat)
    ensures AndNat(x, 4 * m) == 4 * AndNat(x / 4, m)
  {
    hide AndNat;
    AndEven(x, 2 * m);
    AndEven(x / 2, m);
    assert x / 2 / 2 == x / 4;
  }

  lemma AndEighth(x: nat, m: nat)
    ensures AndNat(x, 8 * m) == 8 * AndNat(x / 8, m)
  {
    hide AndNat;
    AndQuarter(x, 2 * m);
    AndEven(x / 4, m);
    assert x / 4 / 2 == x / 8;
  }

  /** Six zero bits at the bottom of a mask. */
  lemma AndHigh(x: nat, m: nat)
    ensures AndNat(x, 64 * m) == 64 * AndNat(x / 64, m)
  {
    hide AndNat;
    AndEighth(x, 8 * m);
    AndEighth(x / 8, m);
    assert x / 8 / 8 == x / 64;
  }

  lemma {:induction false} AndComm(x: nat, y: nat)
    ensures AndNat(x, y) == AndNat(y, x)
    decreases x
  {
    if x > 0 && y > 0 { AndComm(x / 2, y / 2); }
  }

  lemma AndZero(m: nat)
    ensures AndNat(0, m) == 0 && AndNat(m, 0) == 0
  {
  }

  /** Or-ing six bits into a number whose six lowest bits are clear adds them. */
  lemma OrSix(high: nat, x: nat)
    requires x < 64
    ensures OrNat(64 * high, x) == 64 * high + x
  {
    AndComm(64 * high, x);
    AndHigh(x, high);
    AndZero(high);
  }

  /** The masks of the low bits are remainders. */
  lemma LowMasks(x: nat)
    ensures AndNat(x, 0x07) == x % 8 && AndNat(x, 0x0F) == x % 16 && AndNat(x, 0x1F) == x % 32 && AndNat(x, 0x3F) == x % 64
  {
    LowBits(x, 3);
    LowBits(x, 4);
    LowBits(x, 5);
    LowBits(x, 6);
    Powers();
  }

  lemma AllOnes(x: nat)
    ensures x < 4 ==> AndNat(x, 3) == x
    ensures x < 8 ==> AndNat(x, 7) == x
    ensures x < 16 ==> AndNat(x, 15) == x
    ensures x < 32 ==> AndNat(x, 31) == x
  {
    LowBits(x, 2);
    LowMasks(x);
    assert Pow2(2) == 4;
  }

  /** The masks of the high bits of a byte. */
  lemma HighMasks(x: nat)
    requires x < 256
    ensures AndNat(x, 0xC0) == 64 * (x / 64) && AndNat(x, 0xE0) == 32 * (x / 32)
    ensures AndNat(x, 0xF0) == 16 * (x / 16) && AndNat(x, 0xF8) == 8 * (x / 8)
  {
    hide AndNat;
    AndHigh(x, 3);
    AllOnes(x / 64);
    ThreeHighBits(x);
    FourHighBits(x);
    FiveHighBits(x);
  }

  lemma ThreeHighBits(x: nat)
    requires x < 256
    ensures AndNat(x, 0xE0) == 32 * (x / 32)
  {
    hide AndNat;
    AllOnes(x / 32);
    AndEighth(x, 0x1C);
    AndQuarter(x / 8, 0x07);
    assert x / 8 / 4 == x / 32;
  }

  lemma FourHighBits(x: nat)
    requires x < 256
    ensures AndNat(x, 0xF0) == 16 * (x / 16)
  {
    hide AndNat;
    AllOnes(x / 16);
    AndEighth(x, 0x1E);
    AndEven(x / 8, 0x0F);
    assert x / 8 / 2 == x / 16;
  }

  lemma FiveHighBits(x: nat)
    requires x < 256
    ensures AndNat(x, 0xF8) == 8 * (x / 8)
  {
    hide AndNat;
    AllOnes(x / 8);
    AndEighth(x, 0x1F);
  }

  /** Or-ing bits under a tag. */
  lemma Tags(x: nat)
    ensures x < 64 ==> OrNat(0x80, x) == 0x80 + x
    ensures x < 32 ==> OrNat(0xC0, x) == 0xC0 + x
    ensures x < 16 ==> OrNat(0xE0, x) == 0xE0 + x
    ensures x < 8 ==> OrNat(0xF0, x) == 0xF0 + x
  {
    if x < 64 {
      AndComm(0x80, x); AndComm(0xC0, x); AndComm(0xE0, x); AndComm(0xF0, x);
      HighMasks(x);
      hide AndNat;
      AndHigh(x, 2);
      AndZero(2);
    }
  }

  lemma Powers()
    ensures Pow2(3) == 8 && Pow2(4) == 16 && Pow2(5) == 32 && Pow2(6) == 64
  {
    assert Pow2(3) == 8;
  }

  // ---------- one code point ----------

  /** The bytes of a code point; none above U+10FFFF. */
  function EncodeOne(c: nat): (r: Option<seq<nat>>)
  {
    if c < 0x80 then Some([c])
    else if c < 0x800 then
      Some([OrNat(0xC0, AndNat(c / 64, 0x1F)), OrNat(0x80, AndNat(c, 0x3F))])
    else if c < 0x10000 then
      Some([OrNat(0xE0, AndNat(c / 4096, 0x0F)), OrNat(0x80, AndNat(c / 64, 0x3F)), OrNat(0x80, AndNat(c, 0x3F))])
    else if c <= 0x10FFFF then
      Some([OrNat(0xF0, AndNat(c / 262144, 0x07)), OrNat(0x80, AndNat(c / 4096, 0x3F)),
            OrNat(0x80, AndNat(c / 64, 0x3F)), OrNat(0x80, AndNat(c, 0x3F))])
    else None
  }

  /** The same bytes by arithmetic. */
  function SymbolBytes(c: CodePoint): (r: seq<Byte>)
    ensures 1 <= |r| <= 4
  {
    if c < 0x80 then [c]
    else if c < 0x800 then [0xC0 + c / 64, 0x80 + c % 64]
    else if c < 0x10000 then [0xE0 + c / 4096, 0x80 + c / 64 % 64, 0x80 + c % 64]
    else [0xF0 + c / 262144, 0x80 + c / 4096 % 64, 0x80 + c / 64 % 64, 0x80 + c % 64]
  }

  lemma TailByte(x: nat)
    ensures OrNat(0x80, AndNat(x, 0x3F)) == 0x80 + x % 64
  {
    hide AndNat, OrNat;
    LowMasks(x);
    Tags(x % 64);
  }

  lemma LeadByte(x: nat)
    ensures x < 32 ==> OrNat(0xC0, AndNat(x, 0x1F)) == 0xC0 + x
    ensures x < 16 ==> OrNat(0xE0, AndNat(x, 0x0F)) == 0xE0 + x
    ensures x < 8 ==> OrNat(0xF0, AndNat(x, 0x07)) == 0xF0 + x
  {
    hide AndNat, OrNat;
    LowMasks(x);
    Tags(x);
  }

  lemma EncodedBytes(c: CodePoint)
    ensures EncodeOne(c) == Some(SymbolBytes(c))
  {
    hide AndNat, OrNat;
    TailByte(c);
    TailByte(c / 64);
    TailByte(c / 4096);
    LeadByte(c / 64);
    LeadByte(c / 4096);
    LeadByte(c / 262144);
  }

  function Symbol(c: CodePoint): (r: seq<Byte>)
    ensures 1 <= |r| <= 4
    ensures EncodeOne(c) == Some(r)
  {
    EncodedBytes(c);
    SymbolBytes(c)
  }

  /** Reading past the end finds the terminator. */
  function ByteAt(s: seq<Byte>, i: nat): Byte { if i < |s| then s[i] else 0 }

  function Decode(b0: Byte, b1: Byte, b2: Byte, b3: Byte): Option<nat> {
    if b0 < 0x80 then Some(b0)
    else if AndNat(b0, 0xE0) == 0xC0 then Some(OrNat(64 * AndNat(b0, 0x1F), AndNat(b1, 0x3F)))
    else if AndNat(b0, 0xF0) == 0xE0 then
      Some(OrNat(OrNat(4096 * AndNat(b0, 0x0F), 64 * AndNat(b1, 0x3F)), AndNat(b2, 0x3F)))
    else if AndNat(b0, 0xF8) == 0xF0 then
      Some(OrNat(OrNat(OrNat(262144 * AndNat(b0, 0x07), 4096 * AndNat(b1, 0x3F)), 64 * AndNat(b2, 0x3F)), AndNat(b3, 0x3F)))
    else None
  }

  /** The first code point of a string, without any check of the continuation bytes. */
  function DecodeFirst(s: seq<Byte>): Option<nat> {
    Decode(ByteAt(s, 0), ByteAt(s, 1), ByteAt(s, 2), ByteAt(s, 3))
  }

  /** Or-ing two numbers shifted by six is or-ing them, shifted. */
  lemma OrShifted(x: nat, y: nat)
    ensures OrNat(64 * x, 64 * y) == 64 * OrNat(x, y)
  {
    hide AndNat;
    AndHigh(64 * x, y);
  }

  lemma Decode2(b0: Byte, b1: Byte, x: Byte, y: Byte)
    requires 0xC0 <= b0 < 0xE0
    ensures Decode(b0, b1, x, y) == Some(64 * (b0 - 0xC0) + b1 % 64)
  {
    hide AndNat, OrNat;
    HighMasks(b0);
    LowMasks(b0);
    LowMasks(b1);
    OrSix(b0 % 32, b1 % 64);
  }

  lemma Decode3(b0: Byte, b1: Byte, b2: Byte, y: Byte)
    requires 0xE0 <= b0 < 0xF0
    ensures Decode(b0, b1, b2, y) == Some(4096 * (b0 - 0xE0) + 64 * (b1 % 64) + b2 % 64)
  {
    hide AndNat, OrNat;
    HighMasks(b0);
    LowMasks(b0);
    LowMasks(b1);
    LowMasks(b2);
    var x, m := b0 % 16, b1 % 64;
    OrShifted(64 * x, m);
    OrSix(x, m);
    OrSix(64 * x + m, b2 % 64);
  }

  lemma Decode4(b0: Byte, b1: Byte, b2: Byte, b3: Byte)
    requires 0xF0 <= b0 < 0xF8
    ensures Decode(b0, b1, b2, b3) == Some(262144 * (b0 - 0xF0) + 4096 * (b1 % 64) + 64 * (b2 % 64) + b3 % 64)
  {
    hide AndNat, OrNat;
    HighMasks(b0);
    LowMasks(b0);
    LowMasks(b1);
    LowMasks(b2);
    LowMasks(b3);
    var x, m, n := b0 % 8, b1 % 64, b2 % 64;
    OrShifted(64 * (64 * x), 64 * m);
    OrShifted(64 * x, m);
    OrSix(x, m);
    OrShifted(64 * (64 * x + m), n);
    OrSix(64 * x + m, n);
    OrSix(64 * (64 * x + m) + n, b3 % 64);
  }

  lemma TailBits(x: nat)
    requires x < 64
    ensures (0x80 + x) % 64 == x
  {
  }

  /** A number by its groups of six bits. */
  lemma SixBitGroups(c: nat)
    ensures c == 64 * (c / 64) + c % 64
    ensures c / 64 == 64 * (c / 4096) + c / 64 % 64
    ensures c / 4096 == 64 * (c / 262144) + c / 4096 % 64
  {
  }

  lemma DecodeParts(c: CodePoint, b0: Byte, b1: Byte, b2: Byte, b3: Byte)
    requires var s := SymbolBytes(c);
             b0 == s[0] && (|s| > 1 ==> b1 == s[1]) && (|s| > 2 ==> b2 == s[2]) && (|s| > 3 ==> b3 == s[3])
    ensures Decode(b0, b1, b2, b3) == Some(c)
  {
    hide Decode;
    SixBitGroups(c);
    TailBits(c % 64);
    TailBits(c / 64 % 64);
    TailBits(c / 4096 % 64);
    if c < 0x80 {
      Decode1(b0, b1, b2, b3);
    } else if c < 0x800 {
      Decode2(b0, b1, b2, b3);
    } else if c < 0x10000 {
      Decode3(b0, b1, b2, b3);
    } else {
      Decode4(b0, b1, b2, b3);
    }
  }

  /** Decoding is the inverse of encoding, whatever follows. */
  lemma DecodeOne(c: CodePoint, rest: seq<Byte>)
    ensures DecodeFirst(Symbol(c) + rest) == Some(c)
  {
    hide Decode, EncodeOne, SymbolBytes;
    var s := Symbol(c) + rest;
    DecodeParts(c, ByteAt(s, 0), ByteAt(s, 1), ByteAt(s, 2), ByteAt(s, 3));
  }

  lemma Decode1(b0: Byte, x: Byte, y: Byte, z: Byte)
    requires b0 < 0x80
    ensures Decode(b0, x, y, z) == Some(b0)
  {
  }

  /** Every byte that is not a continuation byte starts a symbol. */
  predicate IsLead(b: Byte) { AndNat(b, 0xC0) != 0x80 }

  lemma LeadRange(b: Byte)
    ensures IsLead(b) <==> !(0x80 <= b < 0xC0)
  {
    hide AndNat;
    HighMasks(b);
  }

  lemma SymbolShape(c: CodePoint)
    ensures forall i :: 0 <= i < |Symbol(c)| ==> Symbol(c)[i] != 0 && (IsLead(Symbol(c)[i]) <==> i == 0)
  {
    hide IsLead, AndNat;
    forall i | 0 <= i < |Symbol(c)|
      ensures Symbol(c)[i] != 0 && (IsLead(Symbol(c)[i]) <==> i == 0)
    {
      LeadRange(Symbol(c)[i]);
    }
  }

  // ---------- texts ----------

  function Encode(t: Text): seq<Byte> {
    if t == [] then [] else Symbol(t[0]) + Encode(t[1..])
  }

  /** The byte position of symbol `i`. */
  function Offset(t: Text, i: nat): nat
    requires i <= |t|
  {
    |Encode(t[..i])|
  }

  lemma {:induction false} EncodeConcat(t: Text, u: Text)
    ensures Encode(t + u) == Encode(t) + Encode(u)
    decreases |t|
  {
    if t == [] {
      assert t + u == u;
    } else {
      assert (t + u)[1..] == t[1..] + u;
      EncodeConcat(t[1..], u);
    }
  }

  lemma EncodeSingle(c: CodePoint)
    ensures Encode([c]) == Symbol(c)
  {
    assert Encode([c][1..]) == [];
  }

  /** The bytes of a stretch of symbols. */
  lemma EncodedSlice(t: Text, i: nat, j: nat)
    requires i <= j <= |t|
    ensures Offset(t, i) <= Offset(t, j) <= |Encode(t)|
    ensures Encode(t)[Offset(t, i)..Offset(t, j)] == Encode(t[i..j])
    ensures Encode(t)[Offset(t, j)..] == Encode(t[j..])
    ensures Encode(t)[..Offset(t, i)] == Encode(t[..i])
  {
    assert t[..j] == t[..i] + t[i..j] && t == t[..j] + t[j..];
    EncodeConcat(t[..i], t[i..j]);
    EncodeConcat(t[..j], t[j..]);
  }

  lemma OffsetStep(t: Text, i: nat)
    requires i < |t|
    ensures Offset(t, i + 1) == Offset(t, i) + |Symbol(t[i])| <= |Encode(t)|
    ensures Encode(t)[Offset(t, i)..Offset(t, i + 1)] == Symbol(t[i])
  {
    EncodedSlice(t, i, i + 1);
    assert t[i..i + 1] == [t[i]];
    EncodeSingle(t[i]);
  }

  lemma OffsetEnd(t: Text)
    ensures Offset(t, |t|) == |Encode(t)| && Offset(t, 0) == 0
  {
    assert t[..|t|] == t;
  }

  lemma {:induction false} OffsetOrder(t: Text, i: nat, j: nat)
    requires i < j <= |t|
    ensures Offset(t, i) < Offset(t, j)
    decreases j
  {
    OffsetStep(t, j - 1);
    if i < j - 1 { OffsetOrder(t, i, j - 1); }
  }

  /** A byte inside symbol `i` is a lead byte only at the symbol's start. */
  lemma LeadAt(t: Text, i: nat, p: nat)
    requires i < |t| && Offset(t, i) <= p < Offset(t, i + 1)
    ensures p < |Encode(t)| && Encode(t)[p] != 0
    ensures IsLead(Encode(t)[p]) <==> p == Offset(t, i)
  {
    OffsetStep(t, i);
    SymbolShape(t[i]);
    assert Encode(t)[p] == Encode(t)[Offset(t, i)..Offset(t, i + 1)][p - Offset(t, i)];
  }

  /** Every byte belongs to a symbol. */
  lemma {:induction false} SymbolOfByte(t: Text, p: nat, n: nat) returns (i: nat)
    requires n <= |t| && p < Offset(t, n)
    ensures i < n && Offset(t, i) <= p < Offset(t, i + 1)
    decreases n
  {
    OffsetStep(t, n - 1);
    if p >= Offset(t, n - 1) { i := n - 1; } else { i := SymbolOfByte(t, p, n - 1); }
  }

  /** The code point at a symbol position is read from its byte offset. */
  lemma DecodeAt(t: Text, i: nat)
    requires i < |t|
    ensures Offset(t, i) <= |Encode(t)| && DecodeFirst(Encode(t)[Offset(t, i)..]) == Some(t[i])
  {
    hide DecodeFirst, Symbol;
    EncodedSlice(t, i, i);
    DecodeOne(t[i], Encode(t[i + 1..]));
    EncodeFirst(t[i..]);
    assert t[i..][1..] == t[i + 1..];
  }

  lemma EncodeFirst(t: Text)
    requires t != []
    ensures Encode(t) == Symbol(t[0]) + Encode(t[1..])
  {
  }

  /** Different texts have different bytes. */
  lemma {:induction false} EncodeInjective(t: Text, u: Text)
    requires Encode(t) == Encode(u)
    ensures t == u
    decreases |t|
  {
    if t != [] && u != [] {
      DecodeOne(t[0], Encode(t[1..]));
      DecodeOne(u[0], Encode(u[1..]));
      assert Encode(t)[|Symbol(t[0])|..] == Encode(t[1..]);
      assert Encode(u)[|Symbol(u[0])|..] == Encode(u[1..]);
      EncodeInjective(t[1..], u[1..]);
    }
  }

  // ---------- the symbol index ----------

  /** Positions of the lead bytes among the first `n`. */
  function Leads(s: seq<Byte>, n: nat): seq<nat>
    requires n <= |s|
  {
    if n == 0 then []
    else Leads(s, n - 1) + if IsLead(s[n - 1]) then [n - 1] else []
  }

  /** What the index has to be: the offsets of all symbols, and the length. */
  function Offsets(t: Text): (r: seq<nat>)
    ensures |r| == |t| + 1
  {
    seq(|t| + 1, i requires 0 <= i <= |t| => Offset(t, i))
  }

  /** Within a symbol, only its first byte is a lead. */
  lemma {:induction false} LeadsInSymbol(s: seq<Byte>, start: nat, end: nat)
    requires start < end <= |s| && IsLead(s[start]) && forall p :: start < p < end ==> !IsLead(s[p])
    ensures Leads(s, end) == Leads(s, start) + [start]
    decreases end
  {
    hide IsLead;
    if end > start + 1 { LeadsInSymbol(s, start, end - 1); }
  }

  lemma LeadsOfSymbol(t: Text, i: nat)
    requires i < |t|
    ensures Offset(t, i) < Offset(t, i + 1) <= |Encode(t)|
    ensures Leads(Encode(t), Offset(t, i + 1)) == Leads(Encode(t), Offset(t, i)) + [Offset(t, i)]
  {
    hide IsLead, Leads, Encode, Symbol;
    OffsetStep(t, i);
    var s, start, end := Encode(t), Offset(t, i), Offset(t, i + 1);
    forall p | start <= p < end
      ensures IsLead(s[p]) <==> p == start
    {
      LeadAt(t, i, p);
    }
    LeadsInSymbol(s, start, end);
  }

  lemma {:induction false} LeadsAreOffsets(t: Text, n: nat)
    requires n <= |t|
    ensures Offset(t, n) <= |Encode(t)| && Leads(Encode(t), Offset(t, n)) == Offsets(t)[..n]
    decreases n
  {
    hide IsLead, Encode, Symbol;
    if n == 0 {
      OffsetEnd(t);
    } else {
      LeadsAreOffsets(t, n - 1);
      LeadsOfSymbol(t, n - 1);
      assert Offsets(t)[..n] == Offsets(t)[..n - 1] + [Offset(t, n - 1)];
    }
  }

  /** The index of a string, as one pass over its bytes builds it. */
  method BuildUtf8Indices(s: seq<Byte>, ghost t: Text) returns (indices: seq<nat>, symbols: nat)
    requires s == Encode(t)
    ensures indices == Offsets(t) && symbols == |t|
  {
    hide Encode, IsLead, Symbol, Offset;
    indices := [];
    for i := 0 to |s|
      invariant indices == Leads(s, i)
    {
      if IsLead(s[i]) { indices := indices + [i]; }
    }
    OffsetEnd(t);
    LeadsAreOffsets(t, |t|);
    symbols := |indices|;
    indices := indices + [|s|];
  }
}
