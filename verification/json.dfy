/** The one-level JSON objects the writer assembles by hand: members are
    spliced in order as `"key":"text"` or `"key":number`, with no escaping. */
module FlatJson {
  import opened Wrappers
  import opened Decimal

  datatype JsonValue = Str(text: string) | Num(token: string)

  datatype Member = Member(key: string, value: JsonValue)

  /** Text that needs no escaping inside a JSON string (section 7 of
      RFC 8259): no quotation mark, no reverse solidus, no control character. */
  predicate Plain(s: string) {
    forall i :: 0 <= i < |s| ==> s[i] != '"' && s[i] != '\\' && s[i] >= ' '
  }

  predicate NumberChar(c: char) {
    IsDigit(c) || c == '-' || c == '.'
  }

  /** A number as the writer prints it: digits, a sign and a decimal point. */
  predicate NumberToken(s: string) {
    |s| > 0 && forall i :: 0 <= i < |s| ==> NumberChar(s[i])
  }

  predicate WellFormed(m: Member) {
    && Plain(m.key)
    && match m.value
       case Str(t) => Plain(t)
       case Num(t) => NumberToken(t)
  }

  predicate AllWellFormed(ms: seq<Member>) {
    forall i :: 0 <= i < |ms| ==> WellFormed(ms[i])
  }

  function Quote(t: string): string {
    "\"" + t + "\""
  }

  function RenderValue(v: JsonValue): string {
    match v
    case Str(t) => Quote(t)
    case Num(t) => t
  }

  function RenderMember(m: Member): string {
    Quote(m.key) + ":" + RenderValue(m.value)
  }

  /** The members in order, separated by commas. */
  function RenderMembers(ms: seq<Member>): string {
    if |ms| == 0 then ""
    else if |ms| == 1 then RenderMember(ms[0])
    else RenderMember(ms[0]) + "," + RenderMembers(ms[1..])
  }

  function RenderObject(ms: seq<Member>): string {
    "{" + RenderMembers(ms) + "}"
  }

  // Reading the objects back. The reader knows no escape sequences: a
  // string runs to the next quotation mark and a number to the next comma
  // or closing brace.

  /** The position of the first quotation mark of `s`, or `|s|` when there is none. */
  function QuoteAt(s: string): (i: nat)
    ensures i <= |s|
    ensures forall j :: 0 <= j < i ==> s[j] != '"'
    ensures i < |s| ==> s[i] == '"'
  {
    if |s| == 0 || s[0] == '"' then 0 else 1 + QuoteAt(s[1..])
  }

  /** The position of the first comma or closing brace of `s`, or `|s|`. */
  function NumberEnd(s: string): (i: nat)
    ensures i <= |s|
    ensures forall j :: 0 <= j < i ==> s[j] != ',' && s[j] != '}'
    ensures i < |s| ==> s[i] == ',' || s[i] == '}'
  {
    if |s| == 0 || s[0] == ',' || s[0] == '}' then 0 else 1 + NumberEnd(s[1..])
  }

  /** Reads a quoted string; returns its text and what follows the closing quote. */
  function ParseString(s: string): (r: Option<(string, string)>)
    ensures r.Some? ==> |r.value.1| < |s|
  {
    if |s| == 0 || s[0] != '"' then None
    else
      var i := QuoteAt(s[1..]);
      if i == |s| - 1 then None else Some((s[1..i + 1], s[i + 2..]))
  }

  function ParseValue(s: string): (r: Option<(JsonValue, string)>)
    ensures r.Some? ==> |r.value.1| < |s|
  {
    if |s| > 0 && s[0] == '"' then
      match ParseString(s)
      case None => None
      case Some((t, rest)) => Some((Str(t), rest))
    else
      var i := NumberEnd(s);
      if i == 0 then None else Some((Num(s[..i]), s[i..]))
  }

  function ParseMember(s: string): (r: Option<(Member, string)>)
    ensures r.Some? ==> |r.value.1| < |s|
  {
    match ParseString(s)
    case None => None
    case Some((key, rest)) =>
      if |rest| == 0 || rest[0] != ':' then None
      else
        match ParseValue(rest[1..])
        case None => None
        case Some((v, rest')) => Some((Member(key, v), rest'))
  }

  /** Reads one or more comma-separated members followed by the closing
      brace, which must end the text. */
  function ParseMembers(s: string): Option<seq<Member>>
    decreases |s|
  {
    match ParseMember(s)
    case None => None
    case Some((m, rest)) =>
      if rest == "}" then Some([m])
      else if |rest| == 0 || rest[0] != ',' then None
      else
        match ParseMembers(rest[1..])
        case None => None
        case Some(ms) => Some([m] + ms)
  }

  function ParseObject(s: string): Option<seq<Member>> {
    if s == "{}" then Some([])
    else if |s| == 0 || s[0] != '{' then None
    else ParseMembers(s[1..])
  }

  lemma ParseStringQuote(t: string, rest: string)
    requires forall j :: 0 <= j < |t| ==> t[j] != '"'
    ensures ParseString(Quote(t) + rest) == Some((t, rest))
  {
    var s := Quote(t) + rest;
    assert s[1..] == t + ("\"" + rest);
    QuoteAtPrefix(t, "\"" + rest);
    assert s[1..|t| + 1] == t;
    assert s[|t| + 2..] == rest;
  }

  lemma {:induction false} QuoteAtPrefix(t: string, rest: string)
    requires forall j :: 0 <= j < |t| ==> t[j] != '"'
    requires |rest| > 0 && rest[0] == '"'
    ensures QuoteAt(t + rest) == |t|
  {
    if |t| > 0 {
      assert (t + rest)[1..] == t[1..] + rest;
      QuoteAtPrefix(t[1..], rest);
    }
  }

  lemma {:induction false} NumberEndPrefix(t: string, rest: string)
    requires forall j :: 0 <= j < |t| ==> t[j] != ',' && t[j] != '}'
    requires |rest| > 0 && (rest[0] == ',' || rest[0] == '}')
    ensures NumberEnd(t + rest) == |t|
  {
    if |t| > 0 {
      assert (t + rest)[1..] == t[1..] + rest;
      NumberEndPrefix(t[1..], rest);
    }
  }

  /** A rendered member is read back whole, provided what follows a number
      is the comma or brace that ends it. */
  lemma ParseRenderedMember(m: Member, rest: string)
    requires WellFormed(m)
    requires m.value.Num? ==> |rest| > 0 && (rest[0] == ',' || rest[0] == '}')
    ensures ParseMember(RenderMember(m) + rest) == Some((m, rest))
  {
    var tail := RenderValue(m.value) + rest;
    assert RenderMember(m) + rest == Quote(m.key) + (":" + tail);
    ParseStringQuote(m.key, ":" + tail);
    ParseRenderedValue(m.value, rest);
    ParseMemberStep(Quote(m.key) + (":" + tail), m.key, tail, m.value, rest);
  }

  lemma ParseMemberStep(s: string, key: string, tail: string, v: JsonValue, rest: string)
    requires ParseString(s) == Some((key, ":" + tail))
    requires ParseValue(tail) == Some((v, rest))
    ensures ParseMember(s) == Some((Member(key, v), rest))
  {
    assert (":" + tail)[1..] == tail;
  }

  lemma ParseRenderedValue(v: JsonValue, rest: string)
    requires match v
      case Str(t) => Plain(t)
      case Num(t) => NumberToken(t) && |rest| > 0 && (rest[0] == ',' || rest[0] == '}')
    ensures ParseValue(RenderValue(v) + rest) == Some((v, rest))
  {
    match v
    case Str(t) =>
      ParseStringQuote(t, rest);
    case Num(t) =>
      var s := t + rest;
      NumberEndPrefix(t, rest);
      assert s[..|t|] == t && s[|t|..] == rest;
      assert s[0] != '"' by { assert NumberChar(t[0]); }
  }

  lemma ParseRenderedLast(m: Member)
    requires WellFormed(m)
    ensures ParseMembers(RenderMembers([m]) + "}") == Some([m])
  {
    ParseRenderedMember(m, "}");
  }

  lemma ParseMembersStep(s: string, m: Member, x: string, ms: seq<Member>)
    requires ParseMember(s) == Some((m, "," + x))
    requires ParseMembers(x) == Some(ms)
    ensures ParseMembers(s) == Some([m] + ms)
  {
    var rest := "," + x;
    assert rest[1..] == x;
  }

  lemma RenderMembersCons(m: Member, tl: seq<Member>)
    requires |tl| > 0
    ensures RenderMembers([m] + tl) + "}" == RenderMember(m) + ("," + (RenderMembers(tl) + "}"))
  {
    var ms := [m] + tl;
    assert ms[0] == m && ms[1..] == tl;
    assert RenderMembers(ms) == RenderMember(m) + "," + RenderMembers(tl);
    CommaRegroup(RenderMember(m), RenderMembers(tl));
  }

  lemma CommaRegroup(a: string, b: string)
    ensures (a + "," + b) + "}" == a + ("," + (b + "}"))
  {
  }

  /** One more member in front of a list that reads back reads back too. */
  lemma ParseRenderedCons(m: Member, tl: seq<Member>)
    requires WellFormed(m) && |tl| > 0
    ensures ParseMembers(RenderMembers(tl) + "}") == Some(tl)
            ==> ParseMembers(RenderMembers([m] + tl) + "}") == Some([m] + tl)
  {
    var x := RenderMembers(tl) + "}";
    if ParseMembers(x) == Some(tl) {
      ParseRenderedMember(m, "," + x);
      ParseMembersStep(RenderMember(m) + ("," + x), m, x, tl);
      RenderMembersCons(m, tl);
    }
  }

  lemma {:induction false} ParseRenderedMembers(ms: seq<Member>)
    requires |ms| > 0 && AllWellFormed(ms)
    ensures ParseMembers(RenderMembers(ms) + "}") == Some(ms)
  {
    assert WellFormed(ms[0]);
    if |ms| == 1 {
      assert ms == [ms[0]];
      ParseRenderedLast(ms[0]);
    } else {
      var tl := ms[1..];
      assert AllWellFormed(tl) by {
        forall i | 0 <= i < |tl|
          ensures WellFormed(tl[i])
        {
          assert tl[i] == ms[i + 1];
        }
      }
      ParseRenderedMembers(tl);
      ParseRenderedCons(ms[0], tl);
      assert [ms[0]] + tl == ms;
    }
  }

  /** Every object of well-formed members reads back as those members, in order. */
  lemma ParseRenderedObject(ms: seq<Member>)
    requires AllWellFormed(ms)
    ensures ParseObject(RenderObject(ms)) == Some(ms)
  {
    if |ms| > 0 {
      var s := RenderObject(ms);
      assert s[1..] == RenderMembers(ms) + "}";
      ParseRenderedMembers(ms);
      assert s != "{}" by {
        assert |RenderMembers(ms)| > 0;
      }
    }
  }
}
