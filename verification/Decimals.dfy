/** Decimal numbers as texts. */
module Decimals {
  predicate IsDigit(c: char) { '0' <= c <= '9' }

  function DigitChar(d: nat): (c: char)
    requires d < 10
    ensures IsDigit(c) && DigitValue(c) == d
  {
    '0' + d as char
  }

  function DigitValue(c: char): (d: nat)
    requires IsDigit(c)
    ensures d < 10
  {
    c as nat - '0' as nat
  }

  /** Decimal form, without leading zeros. */
  function Decimal(n: nat): (s: string)
    ensures s != [] && forall i :: 0 <= i < |s| ==> IsDigit(s[i])
  {
    if n < 10 then [DigitChar(n)] else Decimal(n / 10) + [DigitChar(n % 10)]
  }

  /** The leading digits of a text, and their value after `acc`. */
  function ScanDigits(s: string, acc: nat): nat {
    if s == [] || !IsDigit(s[0]) then acc else ScanDigits(s[1..], 10 * acc + DigitValue(s[0]))
  }

  lemma {:induction false} ScanAppended(s: string, c: char, tail: string, acc: nat)
    requires (forall i :: 0 <= i < |s| ==> IsDigit(s[i])) && IsDigit(c)
    requires tail == [] || !IsDigit(tail[0])
    ensures ScanDigits(s + [c] + tail, acc) == 10 * ScanDigits(s + tail, acc) + DigitValue(c)
    decreases |s|
  {
    if s == [] {
      assert [c] + tail == [] + [c] + tail && ([c] + tail)[1..] == tail && [] + tail == tail;
    } else {
      assert (s + [c] + tail)[1..] == s[1..] + [c] + tail && (s + tail)[1..] == s[1..] + tail;
      ScanAppended(s[1..], c, tail, 10 * acc + DigitValue(s[0]));
    }
  }

  lemma {:induction false} ScanDecimal(n: nat, tail: string)
    requires tail == [] || !IsDigit(tail[0])
    ensures ScanDigits(Decimal(n) + tail, 0) == n
    decreases n
  {
    if n < 10 {
      assert (Decimal(n) + tail)[1..] == tail;
    } else {
      ScanAppended(Decimal(n / 10), DigitChar(n % 10), tail, 0);
      ScanDecimal(n / 10, tail);
    }
  }

  /** Different numbers are written differently. */
  lemma DecimalInjective(m: nat, n: nat)
    requires Decimal(m) == Decimal(n)
    ensures m == n
  {
    ScanDecimal(m, []);
    ScanDecimal(n, []);
    assert Decimal(m) + [] == Decimal(m);
  }
}
