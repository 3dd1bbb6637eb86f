/** Decimal text: fixed-width and plain digit strings, their values, and their lexicographic order. */
module Decimal {

  function Pow10(w: nat): (p: nat)
    ensures p >= 1
  {
    if w == 0 then 1 else 10 * Pow10(w - 1)
  }

  predicate IsDigit(c: char) {
    '0' <= c <= '9'
  }

  function DigitChar(d: nat): (c: char)
    requires d < 10
    ensures IsDigit(c) && DigitValue(c) == d
  {
    '0' + d as char
  }

  function DigitValue(c: char): (d: nat)
    requires IsDigit(c)
    ensures d < 10
  {
    (c - '0') as nat
  }

  predicate AllDigits(s: string) {
    forall i :: 0 <= i < |s| ==> IsDigit(s[i])
  }

  /** The number a digit string denotes. */
  function Value(s: string): nat
    requires AllDigits(s)
  {
    if s == [] then 0 else 10 * Value(s[..|s| - 1]) + DigitValue(s[|s| - 1])
  }

  /** The last `w` decimal digits of `n`, zero-filled on the left. */
  function Pad(w: nat, n: nat): (s: string)
    ensures |s| == w && AllDigits(s)
  {
    if w == 0 then [] else Pad(w - 1, n / 10) + [DigitChar(n % 10)]
  }

  /** `n` without leading zeros, as an output stream prints it. */
  function NatText(n: nat): (s: string)
    ensures s != [] && AllDigits(s)
  {
    if n < 10 then [DigitChar(n)] else NatText(n / 10) + [DigitChar(n % 10)]
  }

  lemma {:induction false} PadValue(w: nat, n: nat)
    requires n < Pow10(w)
    ensures Value(Pad(w, n)) == n
  {
    if w > 0 {
      PadValue(w - 1, n / 10);
      assert Pad(w, n)[..w - 1] == Pad(w - 1, n / 10);
    }
  }

  lemma {:induction false} NatTextValue(n: nat)
    ensures Value(NatText(n)) == n
  {
    if n < 10 {
      assert NatText(n)[..0] == [];
    } else {
      NatTextValue(n / 10);
      assert NatText(n)[..|NatText(n)| - 1] == NatText(n / 10);
    }
  }

  /** Numbers of the width agree with the padded form. */
  lemma {:induction false} NatTextIsPad(w: nat, n: nat)
    requires w > 0 && n < Pow10(w) && (w > 1 ==> Pow10(w - 1) <= n)
    ensures NatText(n) == Pad(w, n)
  {
    if w > 1 {
      assert Pow10(w - 1) >= 10;
      NatTextIsPad(w - 1, n / 10);
    } else {
      assert Pow10(1) == 10;
      assert Pad(1, n) == Pad(0, n / 10) + [DigitChar(n)];
    }
  }

  lemma {:induction false} ValueAppend(a: string, b: string)
    requires AllDigits(a) && AllDigits(b)
    ensures AllDigits(a + b) && Value(a + b) == Value(a) * Pow10(|b|) + Value(b)
  {
    if b == [] {
      assert a + b == a;
    } else {
      var b' := b[..|b| - 1];
      ValueAppend(a, b');
      assert (a + b)[..|a + b| - 1] == a + b';
      TenTimes(Value(a), Pow10(|b'|), Value(b'));
    }
  }

  lemma TenTimes(a: nat, p: nat, b: nat)
    ensures 10 * (a * p + b) == a * (10 * p) + 10 * b
  {
  }

  lemma SmallPowers()
    ensures Pow10(1) == 10 && Pow10(2) == 100 && Pow10(4) == 10000 && Pow10(6) == 1000000
  {
    assert Pow10(3) == 10 * Pow10(2);
    assert Pow10(5) == 10 * Pow10(4);
  }

  /** Where the run of digits that starts at `i` ends. */
  function RunEnd(s: string, i: nat): (j: nat)
    requires i <= |s|
    ensures i <= j <= |s| && AllDigits(s[i..j])
    ensures j < |s| ==> !IsDigit(s[j])
    decreases |s| - i
  {
    if i < |s| && IsDigit(s[i]) then
      var j := RunEnd(s, i + 1);
      assert s[i..j] == [s[i]] + s[i + 1..j];
      j
    else i
  }

  /** A digit run followed by a non-digit, or by the end, is found whole. */
  lemma {:induction false} RunEndAt(a: string, d: string, b: string)
    requires AllDigits(d) && (b != [] ==> !IsDigit(b[0]))
    ensures RunEnd(a + d + b, |a|) == |a| + |d|
    decreases |d|
  {
    var s := a + d + b;
    if d != [] {
      RunEndAt(a + [d[0]], d[1..], b);
      assert a + [d[0]] + d[1..] + b == s;
      assert s[|a|] == d[0];
    } else if b != [] {
      assert s[|a|] == b[0];
    }
  }

  predicate IsSpace(c: char) {
    c in " \t\n\r"
  }

  /** Formatted extraction starts at the first character that is not white space. */
  function SkipSpace(s: string, i: nat): (j: nat)
    requires i <= |s|
    ensures i <= j <= |s|
    decreases |s| - i
  {
    if i < |s| && IsSpace(s[i]) then SkipSpace(s, i + 1) else i
  }

  // ----- order

  /** Dictionary order on strings, as comparing timestamps as text does. */
  predicate LexLess(s: string, t: string) {
    t != [] && (s == [] || s[0] < t[0] || (s[0] == t[0] && LexLess(s[1..], t[1..])))
  }

  lemma {:induction false} LexAsymmetric(s: string, t: string)
    requires LexLess(s, t)
    ensures !LexLess(t, s) && s != t
  {
    if s != [] && s[0] == t[0] {
      LexAsymmetric(s[1..], t[1..]);
    }
  }

  lemma {:induction false} LexSamePrefix(a: string, c: string, d: string)
    requires LexLess(c, d)
    ensures LexLess(a + c, a + d)
  {
    if a == [] {
      assert a + c == c && a + d == d;
    } else {
      LexSamePrefix(a[1..], c, d);
      assert (a + c)[1..] == a[1..] + c && (a + d)[1..] == a[1..] + d;
    }
  }

  lemma {:induction false} LexDecidedEarly(a: string, b: string, c: string, d: string)
    requires |a| == |b| && LexLess(a, b)
    ensures LexLess(a + c, b + d)
  {
    if a[0] == b[0] {
      LexDecidedEarly(a[1..], b[1..], c, d);
      assert (a + c)[1..] == a[1..] + c && (b + d)[1..] == b[1..] + d;
    }
  }

  lemma {:induction false} LexPad(w: nat, m: nat, n: nat)
    requires m < n < Pow10(w)
    ensures LexLess(Pad(w, m), Pad(w, n))
  {
    if m / 10 < n / 10 {
      LexPad(w - 1, m / 10, n / 10);
      LexDecidedEarly(Pad(w - 1, m / 10), Pad(w - 1, n / 10), [DigitChar(m % 10)], [DigitChar(n % 10)]);
    } else {
      LexSamePrefix(Pad(w - 1, n / 10), [DigitChar(m % 10)], [DigitChar(n % 10)]);
    }
  }
}
