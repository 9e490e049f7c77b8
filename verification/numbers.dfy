/** How the document's numeric fields print. Integer-typed fields (a
    timer's or summary's `count`, a long task timer's `activeTasks`) print
    as plain decimals; double-typed fields always carry a fraction, so a
    whole value prints as `123.0` and never as `123`. */
module Numbers {
  import opened Wrappers
  import opened Decimal

  /** Java prints a double of magnitude below 10^7 in plain decimal
      notation; from 10^7 on it switches to computerized scientific
      notation (`1.0E7`), which is not modelled. */
  const DoubleLimit := 10000000

  /** A double-typed field holding a whole number that prints in plain notation. */
  type WholeDouble = x: int | -DoubleLimit < x < DoubleLimit

  /** An integer-typed field, printed without a fraction. */
  function RenderLong(n: nat): (s: string)
    ensures Canonical(s)
    ensures Value(s) == n
  {
    ToString(n)
  }

  function ParseLong(s: string): Option<nat> {
    if Canonical(s) then Some(Value(s)) else None
  }

  lemma ParseLongRoundTrip(n: nat, s: string)
    ensures ParseLong(s) == Some(n) <==> s == RenderLong(n)
  {
    if ParseLong(s) == Some(n) {
      ToStringOfValue(s);
    }
  }

  /** A double-typed field holding a whole number: an optional minus sign,
      the digits, then `.0`. */
  function RenderDouble(x: WholeDouble): (s: string)
    ensures |s| >= 3 && s[|s| - 2..] == ".0"
    ensures x < 0 <==> s[0] == '-'
    ensures forall i :: 0 <= i < |s| ==> IsDigit(s[i]) || s[i] == '-' || s[i] == '.'
  {
    var sign := if x < 0 then "-" else "";
    var digits := ToString(if x < 0 then -x else x);
    var s := sign + digits + ".0";
    assert forall i :: 0 <= i < |digits| ==> IsDigit(digits[i]);
    assert s[|s| - 2..] == ".0";
    assert s[0] == (if x < 0 then '-' else digits[0]);
    s
  }

  /** Reads back a whole double; refuses `-0.0`, which a whole number never prints as. */
  function ParseDouble(s: string): Option<WholeDouble> {
    if |s| < 3 || s[|s| - 2..] != ".0" then None
    else
      var body := s[..|s| - 2];
      if body[0] == '-' then
        var digits := body[1..];
        if Canonical(digits) && 0 < Value(digits) < DoubleLimit then Some(-(Value(digits) as int)) else None
      else if Canonical(body) && Value(body) < DoubleLimit then Some(Value(body))
      else None
  }

  lemma ParseDoubleRoundTrip(x: WholeDouble, s: string)
    ensures ParseDouble(s) == Some(x) <==> s == RenderDouble(x)
  {
    var r := RenderDouble(x);
    var digits := ToString(if x < 0 then -x else x);
    if x < 0 {
      assert r == "-" + digits + ".0";
      assert r[..|r| - 2][1..] == digits;
    } else {
      assert r == digits + ".0";
      assert r[..|r| - 2] == digits;
    }
    if ParseDouble(s) == Some(x) {
      var body := s[..|s| - 2];
      assert s == body + ".0";
      if body[0] == '-' {
        ToStringOfValue(body[1..]);
        assert body == "-" + body[1..];
      } else {
        ToStringOfValue(body);
      }
    }
  }
}
