/** Decimal digit strings: the building block of every number the writer
    prints, from the zero-padded fields of a timestamp to counts. */
module Decimal {

  predicate IsDigit(c: char) {
    '0' <= c <= '9'
  }

  predicate AllDigits(s: string) {
    forall i :: 0 <= i < |s| ==> IsDigit(s[i])
  }

  /** A digit string with no superfluous leading zero ("0" itself is fine). */
  predicate Canonical(s: string) {
    |s| >= 1 && AllDigits(s) && (|s| == 1 || s[0] != '0')
  }

  function Pow10(k: nat): (p: nat)
    ensures p >= 1
  {
    if k == 0 then 1 else 10 * Pow10(k - 1)
  }

  function CharValue(c: char): (d: nat)
    requires IsDigit(c)
    ensures d < 10
  {
    c as int - '0' as int
  }

  function DigitChar(d: nat): (c: char)
    requires d < 10
    ensures IsDigit(c) && CharValue(c) == d
  {
    ('0' as int + d) as char
  }

  /** The number a digit string denotes, most significant digit first;
      the empty string denotes 0. */
  function Value(s: string): (n: nat)
    requires AllDigits(s)
    ensures n < Pow10(|s|)
  {
    if |s| == 0 then 0 else 10 * Value(s[..|s| - 1]) + CharValue(s[|s| - 1])
  }

  /** Exactly `width` digits of `n`, zero-padded on the left: the shape of
      every field of a timestamp. */
  function Fixed(n: nat, width: nat): (s: string)
    requires n < Pow10(width)
    ensures |s| == width
    ensures AllDigits(s)
    ensures Value(s) == n
  {
    if width == 0 then ""
    else
      var s := Fixed(n / 10, width - 1) + [DigitChar(n % 10)];
      assert s[..|s| - 1] == Fixed(n / 10, width - 1);
      s
  }

  /** The shortest decimal rendering of `n`, as Java prints an integer. */
  function ToString(n: nat): (s: string)
    ensures Canonical(s)
    ensures Value(s) == n
  {
    if n < 10 then [DigitChar(n)]
    else
      var s := ToString(n / 10) + [DigitChar(n % 10)];
      assert s[..|s| - 1] == ToString(n / 10);
      s
  }

  /** A digit string that starts with a non-zero digit denotes a non-zero number. */
  lemma {:induction false} LeadingDigitPositive(s: string)
    requires AllDigits(s) && |s| >= 1 && s[0] != '0'
    ensures Value(s) >= 1
  {
    if |s| > 1 {
      LeadingDigitPositive(s[..|s| - 1]);
    }
  }

  /** Reading a fixed-width field back and re-printing it at the same
      width gives the field unchanged. */
  lemma {:induction false} FixedOfValue(s: string)
    requires AllDigits(s)
    ensures Fixed(Value(s), |s|) == s
  {
    if |s| > 0 {
      var p := s[..|s| - 1];
      FixedOfValue(p);
      var n := Value(s);
      assert n / 10 == Value(p) && n % 10 == CharValue(s[|s| - 1]);
      assert DigitChar(CharValue(s[|s| - 1])) == s[|s| - 1];
      assert s == p + [s[|s| - 1]];
    }
  }

  /** Canonical digit strings and natural numbers are in one-to-one
      correspondence through `ToString` and `Value`. */
  lemma {:induction false} ToStringOfValue(s: string)
    requires Canonical(s)
    ensures ToString(Value(s)) == s
  {
    var n := Value(s);
    if |s| == 1 {
      assert DigitChar(CharValue(s[0])) == s[0];
    } else {
      var p := s[..|s| - 1];
      assert p[0] == s[0];
      LeadingDigitPositive(p);
      ToStringOfValue(p);
      assert n / 10 == Value(p) && n % 10 == CharValue(s[|s| - 1]);
      assert DigitChar(CharValue(s[|s| - 1])) == s[|s| - 1];
      assert s == p + [s[|s| - 1]];
    }
  }
}
