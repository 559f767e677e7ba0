/**
 Comparison and search.  The runtime compares and searches bytes; this is what that means
 for the texts: lexicographic order of code points, and the least symbol position of an
 occurrence (RFC 3629, section 1: order preservation and self-synchronisation).
 */
module Utf8Search {
  import opened Words
  import opened Utf8

  // ---------- comparison ----------

  /** `memcmp` on `n` bytes, as a sign. */
  function MemCmp(a: seq<Byte>, b: seq<Byte>, n: nat): int
    requires n <= |a| && n <= |b|
  {
    if n == 0 then 0
    else if a[0] != b[0] then (if a[0] < b[0] then -1 else 1)
    else MemCmp(a[1..], b[1..], n - 1)
  }

  function CompareBytes(a: seq<Byte>, b: seq<Byte>): int {
    var minLen := if |a| <= |b| then |a| else |b|;
    var cmp := MemCmp(a, b, minLen);
    if cmp != 0 then cmp else if |a| < |b| then -1 else if |a| > |b| then 1 else 0
  }

  /** A null string is below every other, the empty one included. */
  function StrCompare(a: Option<seq<Byte>>, b: Option<seq<Byte>>): int {
    if a == b then 0 else if a.None? then -1 else if b.None? then 1 else CompareBytes(a.value, b.value)
  }

  /** Lexicographic order of code points. */
  function CompareTexts(t: Text, u: Text): int {
    if t == [] then (if u == [] then 0 else -1)
    else if u == [] then 1
    else if t[0] != u[0] then (if t[0] < u[0] then -1 else 1)
    else CompareTexts(t[1..], u[1..])
  }

  lemma {:induction false} CompareFlips(a: seq<Byte>, b: seq<Byte>, n: nat)
    requires n <= |a| && n <= |b|
    ensures MemCmp(a, b, n) == -MemCmp(b, a, n)
    decreases n
  {
    if n > 0 { CompareFlips(a[1..], b[1..], n - 1); }
  }

  lemma {:induction false} MemCmpDiffers(a: seq<Byte>, b: seq<Byte>, k: nat, n: nat)
    requires k < n && n <= |a| && n <= |b| && a[..k] == b[..k] && a[k] < b[k]
    ensures MemCmp(a, b, n) == -1
    decreases n
  {
    if k > 0 {
      assert a[0] == a[..k][0] == b[..k][0] == b[0];
      assert a[1..][..k - 1] == a[..k][1..] && b[1..][..k - 1] == b[..k][1..];
      MemCmpDiffers(a[1..], b[1..], k - 1, n - 1);
    }
  }

  lemma {:induction false} MemCmpSkips(p: seq<Byte>, a: seq<Byte>, b: seq<Byte>, n: nat)
    requires n <= |a| && n <= |b|
    ensures MemCmp(p + a, p + b, |p| + n) == MemCmp(a, b, n)
    decreases |p|
  {
    if p == [] {
      assert p + a == a && p + b == b;
    } else {
      assert (p + a)[1..] == p[1..] + a && (p + b)[1..] == p[1..] + b;
      MemCmpSkips(p[1..], a, b, n);
    }
  }

  lemma FirstByteOrder(c: CodePoint, d: CodePoint)
    requires c < d && |SymbolBytes(c)| != |SymbolBytes(d)|
    ensures SymbolBytes(c)[0] < SymbolBytes(d)[0]
  {
  }

  /** Of two different symbols the smaller code point has the smaller byte where they first differ. */
  lemma SymbolOrder(c: CodePoint, d: CodePoint) returns (k: nat)
    requires c < d
    ensures k < |Symbol(c)| && k < |Symbol(d)| && Symbol(c)[..k] == Symbol(d)[..k] && Symbol(c)[k] < Symbol(d)[k]
  {
    hide EncodeOne;
    var s, r := SymbolBytes(c), SymbolBytes(d);
    if |s| != |r| {
      FirstByteOrder(c, d);
      k := 0;
    } else {
      SameLengthOrder(c, d);
      k := if s[0] != r[0] then 0 else if s[1] != r[1] then 1 else if s[2] != r[2] then 2 else 3;
    }
  }

  lemma SameLengthOrder(c: CodePoint, d: CodePoint)
    requires c < d && |SymbolBytes(c)| == |SymbolBytes(d)|
    ensures var (s, r) := (SymbolBytes(c), SymbolBytes(d));
            s[0] < r[0] || (|s| > 1 && s[0] == r[0] &&
              (s[1] < r[1] || (|s| > 2 && s[1] == r[1] &&
                (s[2] < r[2] || (|s| > 3 && s[2] == r[2] && s[3] < r[3])))))
  {
    SixBitGroups(c);
    SixBitGroups(d);
  }

  lemma SymbolsDiffer(c: CodePoint, d: CodePoint, a: seq<Byte>, b: seq<Byte>)
    requires c < d
    ensures CompareBytes(Symbol(c) + a, Symbol(d) + b) == -1 && CompareBytes(Symbol(d) + b, Symbol(c) + a) == 1
  {
    var k := SymbolOrder(c, d);
    var x, y := Symbol(c) + a, Symbol(d) + b;
    hide Symbol;
    assert x[..k] == Symbol(c)[..k] && y[..k] == Symbol(d)[..k] && x[k] < y[k];
    var n := if |x| <= |y| then |x| else |y|;
    MemCmpDiffers(x, y, k, n);
    CompareFlips(x, y, n);
  }

  lemma SamePrefix(p: seq<Byte>, a: seq<Byte>, b: seq<Byte>)
    ensures CompareBytes(p + a, p + b) == CompareBytes(a, b)
  {
    MemCmpSkips(p, a, b, if |a| <= |b| then |a| else |b|);
  }

  lemma EmptyCompares(a: seq<Byte>, b: seq<Byte>)
    ensures a == [] ==> CompareBytes(a, b) == if b == [] then 0 else -1
    ensures b == [] && a != [] ==> CompareBytes(a, b) == 1
  {
  }

  /** Comparing bytes compares code points. */
  lemma {:induction false} CompareIsLexicographic(t: Text, u: Text)
    ensures CompareBytes(Encode(t), Encode(u)) == CompareTexts(t, u)
    decreases |t|
  {
    hide Symbol, CompareBytes;
    EmptyCompares(Encode(t), Encode(u));
    if t != [] && u != [] {
      if t[0] == u[0] {
        SamePrefix(Symbol(t[0]), Encode(t[1..]), Encode(u[1..]));
        CompareIsLexicographic(t[1..], u[1..]);
      } else if t[0] < u[0] {
        SymbolsDiffer(t[0], u[0], Encode(t[1..]), Encode(u[1..]));
      } else {
        SymbolsDiffer(u[0], t[0], Encode(u[1..]), Encode(t[1..]));
      }
    }
  }

  lemma {:induction false} TextOrderEqual(t: Text, u: Text)
    ensures CompareTexts(t, u) == 0 <==> t == u
    ensures CompareTexts(u, t) == -CompareTexts(t, u)
    decreases |t|
  {
    if t != [] && u != [] {
      TextOrderEqual(t[1..], u[1..]);
      assert t == [t[0]] + t[1..] && u == [u[0]] + u[1..];
    }
  }

  lemma {:induction false} TextOrderTransitive(t: Text, u: Text, w: Text)
    requires CompareTexts(t, u) <= 0 && CompareTexts(u, w) <= 0
    ensures CompareTexts(t, w) <= 0
    decreases |t|
  {
    if t != [] && u != [] && w != [] {
      if t[0] == u[0] == w[0] { TextOrderTransitive(t[1..], u[1..], w[1..]); }
    }
  }

  /** What a handle stands for: nothing, or the bytes of a text. */
  function Bytes(t: Option<Text>): Option<seq<Byte>> {
    match t case None => None case Some(x) => Some(Encode(x))
  }

  /** On strings the comparison is a total order in which only equal ones tie. */
  lemma StrCompareIsOrder(t: Option<Text>, u: Option<Text>, w: Option<Text>)
    ensures StrCompare(Bytes(t), Bytes(u)) == 0 <==> t == u
    ensures StrCompare(Bytes(u), Bytes(t)) == -StrCompare(Bytes(t), Bytes(u))
    ensures StrCompare(Bytes(t), Bytes(u)) <= 0 && StrCompare(Bytes(u), Bytes(w)) <= 0 ==> StrCompare(Bytes(t), Bytes(w)) <= 0
  {
    hide CompareBytes, CompareTexts, Encode;
    if t.Some? && u.Some? {
      StrCompareTexts(t.value, u.value);
      StrCompareTexts(u.value, t.value);
      TextOrderEqual(t.value, u.value);
    }
    if u.Some? && w.Some? { StrCompareTexts(u.value, w.value); }
    if t.Some? && w.Some? { StrCompareTexts(t.value, w.value); }
    if t.Some? && u.Some? && w.Some? && CompareTexts(t.value, u.value) <= 0 && CompareTexts(u.value, w.value) <= 0 {
      TextOrderTransitive(t.value, u.value, w.value);
    }
  }

  lemma StrCompareTexts(t: Text, u: Text)
    ensures StrCompare(Some(Encode(t)), Some(Encode(u))) == CompareTexts(t, u)
  {
    CompareIsLexicographic(t, u);
    TextOrderEqual(t, u);
    if Encode(t) == Encode(u) { EncodeInjective(t, u); }
  }

  /** `t` is a beginning of `u`, or has the smaller code point where they first differ. */
  ghost predicate TextBelow(t: Text, u: Text) {
    exists k: nat :: FirstDifference(t, u, k) && (k == |t| || t[k] < u[k])
  }

  predicate FirstDifference(t: Text, u: Text, k: nat) {
    k <= |t| && k < |u| && t[..k] == u[..k] && (k < |t| ==> t[k] != u[k])
  }

  /** Null is below every string, the empty one included. */
  ghost predicate Below(a: Option<Text>, b: Option<Text>) {
    b.Some? && (a.None? || TextBelow(a.value, b.value))
  }

  lemma {:induction false} LexicographicOrder(t: Text, u: Text)
    ensures CompareTexts(t, u) == -1 <==> TextBelow(t, u)
    ensures CompareTexts(t, u) in {-1, 0, 1}
    decreases |t|
  {
    if t == [] {
      if u != [] { assert FirstDifference(t, u, 0); }
    } else if u != [] {
      if t[0] != u[0] {
        if t[0] < u[0] { assert FirstDifference(t, u, 0); }
        NotBelow(t, u);
      } else {
        LexicographicOrder(t[1..], u[1..]);
        BelowTail(t, u);
      }
    }
  }

  lemma NotBelow(t: Text, u: Text)
    requires t != [] && u != [] && t[0] != u[0]
    ensures TextBelow(t, u) ==> t[0] < u[0]
  {
    if TextBelow(t, u) {
      var k: nat :| FirstDifference(t, u, k) && (k == |t| || t[k] < u[k]);
      SharedFirst(t, u, k);
    }
  }

  lemma SharedFirst(t: Text, u: Text, k: nat)
    requires FirstDifference(t, u, k) && t != []
    ensures k > 0 ==> t[0] == u[0]
  {
    if k > 0 { assert t[0] == t[..k][0] == u[..k][0] == u[0]; }
  }

  lemma BelowTail(t: Text, u: Text)
    requires t != [] && u != [] && t[0] == u[0]
    ensures TextBelow(t, u) <==> TextBelow(t[1..], u[1..])
  {
    if TextBelow(t, u) {
      var k: nat :| FirstDifference(t, u, k) && (k == |t| || t[k] < u[k]);
      assert k > 0;
      assert t[1..][..k - 1] == t[..k][1..] && u[1..][..k - 1] == u[..k][1..];
      assert FirstDifference(t[1..], u[1..], k - 1);
    }
    if TextBelow(t[1..], u[1..]) {
      var k: nat :| FirstDifference(t[1..], u[1..], k) && (k == |t| - 1 || t[1..][k] < u[1..][k]);
      assert t[..k + 1] == [t[0]] + t[1..][..k] && u[..k + 1] == [u[0]] + u[1..][..k];
      assert FirstDifference(t, u, k + 1);
    }
  }

  /** The whole result of the comparison: the sign of the lexicographic order with null at the bottom. */
  lemma StrCompareIsBelow(a: Option<Text>, b: Option<Text>)
    ensures StrCompare(Bytes(a), Bytes(b)) == -1 <==> Below(a, b)
    ensures StrCompare(Bytes(a), Bytes(b)) == 0 <==> a == b
    ensures StrCompare(Bytes(a), Bytes(b)) == 1 <==> Below(b, a)
  {
    hide CompareBytes, CompareTexts, Encode, TextBelow;
    if a.Some? && b.Some? {
      StrCompareTexts(a.value, b.value);
      TextOrderEqual(a.value, b.value);
      LexicographicOrder(a.value, b.value);
      LexicographicOrder(b.value, a.value);
    }
  }

  // ---------- search ----------

  predicate BytesAt(s: seq<Byte>, needle: seq<Byte>, p: nat) {
    p + |needle| <= |s| && s[p..p + |needle|] == needle
  }

  /** `strstr` from byte `p`. */
  function FindBytes(s: seq<Byte>, needle: seq<Byte>, p: nat): (r: Option<nat>)
    ensures r.Some? ==> r.value >= p && BytesAt(s, needle, r.value) && forall q :: p <= q < r.value ==> !BytesAt(s, needle, q)
    ensures r.None? ==> forall q :: p <= q ==> !BytesAt(s, needle, q)
    decreases |s| - p
  {
    if p + |needle| > |s| then None
    else if s[p..p + |needle|] == needle then Some(p)
    else FindBytes(s, needle, p + 1)
  }

  predicate TextAt(t: Text, u: Text, i: nat) {
    i + |u| <= |t| && t[i..i + |u|] == u
  }

  /** An occurrence of symbols is an occurrence of bytes. */
  lemma TextToBytes(t: Text, u: Text, i: nat)
    requires TextAt(t, u, i)
    ensures BytesAt(Encode(t), Encode(u), Offset(t, i))
  {
    hide Encode, Offset;
    EncodedSlice(t, i, i + |u|);
    EncodedLength(t, i, i + |u|);
  }

  lemma EncodedLength(t: Text, i: nat, j: nat)
    requires i <= j <= |t|
    ensures Offset(t, i) + |Encode(t[i..j])| == Offset(t, j) <= |Encode(t)|
  {
    hide Encode;
    EncodedSlice(t, i, j);
  }

  lemma {:induction false} PrefixSymbols(t: Text, u: Text)
    requires |Encode(u)| <= |Encode(t)| && Encode(t)[..|Encode(u)|] == Encode(u)
    ensures TextAt(t, u, 0)
    decreases |u|
  {
    hide Symbol, Encode;
    if u == [] {
    } else {
      EmptyText(t);
      EmptyText(u);
      EncodeFirst(u);
      EncodeFirst(t);
      var n, s, needle := |Symbol(u[0])|, Encode(t), Encode(u);
      assert s == needle + s[|needle|..];
      SameFirst(t[0], u[0], Encode(t[1..]), Encode(u[1..]) + s[|needle|..]);
      assert s[n..] == Encode(t[1..]) && needle[n..] == Encode(u[1..]);
      assert s[n..][..|needle| - n] == needle[n..];
      PrefixSymbols(t[1..], u[1..]);
      assert t[..|u|] == [t[0]] + t[1..][..|u| - 1];
      assert u == [u[0]] + u[1..];
    }
  }

  lemma EmptyText(t: Text)
    ensures |Encode(t)| == 0 <==> t == []
  {
  }

  lemma SameFirst(c: CodePoint, d: CodePoint, a: seq<Byte>, b: seq<Byte>)
    requires Symbol(c) + a == Symbol(d) + b
    ensures c == d
  {
    hide Symbol, DecodeFirst;
    DecodeOne(c, a);
    DecodeOne(d, b);
  }

  lemma FirstIsLead(u: Text)
    requires u != []
    ensures Encode(u) != [] && IsLead(Encode(u)[0])
  {
    SymbolShape(u[0]);
  }

  /**
   Self-synchronisation: the bytes of a text that is not empty occur in those of another only
   where its symbols do.
   */
  lemma BytesToText(t: Text, u: Text, p: nat) returns (i: nat)
    requires u != [] && BytesAt(Encode(t), Encode(u), p)
    ensures i < |t| && p == Offset(t, i) && TextAt(t, u, i)
  {
    hide Symbol, IsLead, Encode, Offset;
    FirstIsLead(u);
    OffsetEnd(t);
    var s, needle := Encode(t), Encode(u);
    assert s[p..p + |needle|][0] == s[p];
    i := SymbolOfByte(t, p, |t|);
    LeadAt(t, i, p);
    EncodedSlice(t, i, i);
    TakeOfDrop(s, p, |needle|);
    PrefixSymbols(t[i..], u);
    TakeOfDrop(t, i, |u|);
  }

  lemma TakeOfDrop<T>(s: seq<T>, p: nat, n: nat)
    ensures p + n <= |s| ==> s[p..][..n] == s[p..p + n]
  {
  }

  /** The least position of `u` from symbol `from` on, plus one; 0 if there is none. */
  ghost predicate FirstFrom(t: Text, u: Text, from: nat, r: nat) {
    if r == 0 then forall i :: from <= i ==> !TextAt(t, u, i)
    else r - 1 >= from && TextAt(t, u, r - 1) && forall i :: from <= i < r - 1 ==> !TextAt(t, u, i)
  }

  /** Byte position `p` is behind the leads of exactly the first `from` symbols. */
  ghost predicate PastSymbols(t: Text, from: nat, p: nat) {
    && from <= |t| && p <= |Encode(t)|
    && (from < |t| ==> p <= Offset(t, from))
    && (from > 0 ==> Offset(t, from - 1) < p)
  }

  /** A byte search that starts inside a symbol finds what a search on symbols finds. */
  lemma SearchFrom(t: Text, u: Text, from: nat, p: nat)
    requires u != [] && PastSymbols(t, from, p)
    ensures var found := FindBytes(Encode(t), Encode(u), p);
            match found
            case None => FirstFrom(t, u, from, 0)
            case Some(q) => exists i :: from <= i < |t| && q == Offset(t, i) && FirstFrom(t, u, from, i + 1)
  {
    hide Encode, TextAt, BytesAt;
    match FindBytes(Encode(t), Encode(u), p)
    case None =>
      forall i | from <= i
        ensures !TextAt(t, u, i)
      {
        if TextAt(t, u, i) {
          TextInside(t, u, i);
          TextToBytes(t, u, i);
          LaterOffset(t, from, i, p);
        }
      }
    case Some(q) =>
      var i := BytesToText(t, u, q);
      EarlierOffset(t, from, i, p);
      forall j | from <= j < i
        ensures !TextAt(t, u, j)
      {
        if TextAt(t, u, j) {
          TextToBytes(t, u, j);
          LaterOffset(t, from, j, p);
          OffsetOrder(t, j, i);
        }
      }
      assert FirstFrom(t, u, from, i + 1);
  }

  lemma TextInside(t: Text, u: Text, i: nat)
    requires u != [] && TextAt(t, u, i)
    ensures i < |t|
  {
  }

  lemma LaterOffset(t: Text, from: nat, i: nat, p: nat)
    requires PastSymbols(t, from, p) && from <= i < |t|
    ensures p <= Offset(t, i)
  {
    if from < i { OffsetOrder(t, from, i); }
  }

  lemma EarlierOffset(t: Text, from: nat, i: nat, p: nat)
    requires PastSymbols(t, from, p) && i < |t| && p <= Offset(t, i)
    ensures from <= i
  {
    if i < from - 1 { OffsetOrder(t, i, from - 1); }
  }

  /** The leads among the bytes from `p` to the start of symbol `i`. */
  function CountLeads(s: seq<Byte>, p: nat, q: nat): nat
    requires p <= q <= |s|
    decreases q - p
  {
    if p == q then 0 else (if IsLead(s[p]) then 1 else 0) + CountLeads(s, p + 1, q)
  }

  lemma {:induction false} CountToSymbol(t: Text, from: nat, p: nat, i: nat)
    requires PastSymbols(t, from, p) && from <= i < |t| && p <= Offset(t, i)
    ensures Offset(t, i) <= |Encode(t)| && CountLeads(Encode(t), p, Offset(t, i)) == i - from
    decreases Offset(t, i) - p
  {
    hide IsLead, Encode;
    OffsetStep(t, i);
    if p < Offset(t, i) {
      var k := SymbolOfByte(t, p, i);
      LeadAt(t, k, p);
      OffsetStep(t, k);
      StepPast(t, from, p, k);
      CountToSymbol(t, if p == Offset(t, k) then from + 1 else from, p + 1, i);
    } else {
      if from < i { OffsetOrder(t, from, i); }
    }
  }

  lemma StepPast(t: Text, from: nat, p: nat, k: nat)
    requires PastSymbols(t, from, p) && k < |t| && Offset(t, k) <= p < Offset(t, k + 1)
    requires p < |Encode(t)|
    ensures p == Offset(t, k) ==> from == k && PastSymbols(t, from + 1, p + 1)
    ensures p > Offset(t, k) ==> from == k + 1 && PastSymbols(t, from, p + 1)
  {
    if k + 1 < from { OffsetOrder(t, k + 1, from - 1 + 1); OffsetBefore(t, k + 1, from - 1); }
    if from < k { OffsetOrder(t, from, k); }
  }

  lemma OffsetBefore(t: Text, i: nat, j: nat)
    requires i <= j <= |t|
    ensures Offset(t, i) <= Offset(t, j)
  {
    if i < j { OffsetOrder(t, i, j); }
  }

  /** Stepping over one byte. */
  lemma NextByte(t: Text, from: nat, p: nat)
    requires PastSymbols(t, from, p) && p < |Encode(t)|
    ensures Encode(t)[p] != 0
    ensures var next := from + (if IsLead(Encode(t)[p]) then 1 else 0);
            PastSymbols(t, next, p + 1)
  {
    hide Encode, IsLead;
    OffsetEnd(t);
    var k := SymbolOfByte(t, p, |t|);
    LeadAt(t, k, p);
    StepPast(t, from, p, k);
  }

  lemma PastAll(t: Text, from: nat)
    requires PastSymbols(t, from, |Encode(t)|)
    ensures from == |t|
  {
    hide Encode;
    OffsetEnd(t);
    if from < |t| { OffsetOrder(t, from, |t|); }
  }

  /** The number of lead bytes between two positions. */
  method CountSymbols(s: seq<Byte>, start: nat, end: nat) returns (n: nat)
    requires start <= end <= |s|
    ensures n == CountLeads(s, start, end)
  {
    n := 0;
    var p := start;
    while p < end
      invariant start <= p <= end
      invariant n + CountLeads(s, p, end) == CountLeads(s, start, end)
    {
      if IsLead(s[p]) { n := n + 1; }
      p := p + 1;
    }
  }

  /** The 1-based symbol position of the first occurrence; 0 if there is none or a string is null. */
  method StrStr(needle: Option<seq<Byte>>, haystack: Option<seq<Byte>>, ghost u: Text, ghost t: Text) returns (r: nat)
    requires needle.Some? ==> needle.value == Encode(u)
    requires haystack.Some? ==> haystack.value == Encode(t)
    ensures if needle.Some? && haystack.Some? then FirstFrom(t, u, 0, r) else r == 0
  {
    hide Encode;
    if haystack.None? || needle.None? { return 0; }
    var pos := FindBytes(haystack.value, needle.value, 0);
    FoundPosition(t, u, 0, 0);
    if pos.None? { return 0; }
    var n := CountSymbols(haystack.value, 0, pos.value);
    return n + 1;
  }

  lemma EmptyBytes(u: Text)
    ensures Encode(u) == [] <==> u == []
  {
    EmptyText(u);
  }

  /** What a byte search from `p` says once lead bytes are counted, for empty needles too. */
  lemma FoundPosition(t: Text, u: Text, from: nat, p: nat)
    requires PastSymbols(t, from, p)
    ensures var found := FindBytes(Encode(t), Encode(u), p);
            match found
            case None => FirstFrom(t, u, from, 0)
            case Some(q) => p <= q <= |Encode(t)| && FirstFrom(t, u, from, from + CountLeads(Encode(t), p, q) + 1)
  {
    hide Encode, BytesAt, FirstFrom;
    EmptyBytes(u);
    if u == [] {
      EmptyNeedle(t, u, from, p);
    } else {
      SearchFrom(t, u, from, p);
      match FindBytes(Encode(t), Encode(u), p)
      case None =>
      case Some(q) =>
        var i :| from <= i < |t| && q == Offset(t, i) && FirstFrom(t, u, from, i + 1);
        CountToSymbol(t, from, p, i);
    }
  }

  lemma EmptyNeedle(t: Text, u: Text, from: nat, p: nat)
    requires PastSymbols(t, from, p) && u == []
    ensures FindBytes(Encode(t), Encode(u), p) == Some(p) && FirstFrom(t, u, from, from + 1)
  {
    EmptyText(u);
    assert TextAt(t, u, from);
  }

  function Clamp(x: int, hi: nat): (r: nat)
    ensures r <= hi
  {
    if x < 0 then 0 else if x > hi then hi else x
  }

  /** Of the numbers up to `hi` it is the nearest. */
  lemma ClampIsNearest(x: int, hi: nat, y: nat)
    requires y <= hi
    ensures Abs(x - Clamp(x, hi)) <= Abs(x - y)
  {
  }

  /** How many symbols the search from `startPos` passes over. */
  function SymbolsBefore(startPos: Int64, t: Text): nat { Clamp(Wrapped(startPos - 1), |t|) }

  /** They are those before the position, clamped to the string, for all positions but the lowest number, which wraps. */
  lemma SymbolsBeforeExact(startPos: Int64, t: Text)
    requires |t| < TWO63
    ensures SymbolsBefore(startPos, t) == Clamp(startPos - 1, |t|) <==> startPos > -TWO63 || t == []
  {
  }

  /**
   The same from symbol `startPos` on, positions outside the string being moved to its ends.
   The byte search may start in the middle of a symbol.
   */
  method StrStrFrom(startPos: Int64, needle: Option<seq<Byte>>, haystack: Option<seq<Byte>>, ghost u: Text, ghost t: Text)
    returns (r: nat)
    requires needle.Some? ==> needle.value == Encode(u)
    requires haystack.Some? ==> haystack.value == Encode(t)
    ensures if needle.Some? && haystack.Some? then FirstFrom(t, u, SymbolsBefore(startPos, t), r) else r == 0
  {
    hide Encode, FirstFrom, FindBytes, IsLead;
    if haystack.None? || needle.None? { return 0; }
    var s, last := haystack.value, Wrapped(startPos - 1);
    var p: nat, haystackIndex: nat := 0, 0;
    assert PastSymbols(t, 0, 0) by { OffsetEnd(t); }
    while haystackIndex < last && p < |s| && s[p] != 0
      invariant PastSymbols(t, haystackIndex, p)
      invariant haystackIndex > 0 ==> haystackIndex <= last
      decreases |s| - p
    {
      NextByte(t, haystackIndex, p);
      if IsLead(s[p]) { haystackIndex := haystackIndex + 1; }
      p := p + 1;
    }
    if p == |s| { PastAll(t, haystackIndex); } else { NextByte(t, haystackIndex, p); }
    assert haystackIndex == SymbolsBefore(startPos, t);
    FoundPosition(t, u, haystackIndex, p);
    var pos := FindBytes(s, needle.value, p);
    if pos.None? { return 0; }
    var needleIndex := CountSymbols(s, p, pos.value);
    return haystackIndex + needleIndex + 1;
  }
}
