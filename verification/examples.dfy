/** The exact outputs the writer's tests pin down, reproduced from the model. */
module WriterExamples {
  import opened Wrappers
  import opened Decimal
  import opened Calendar
  import opened Timestamp
  import opened Numbers
  import opened FlatJson
  import opened ElasticWriter

  lemma EpochInstant(ms: nat)
    requires ms < 1000
    ensures FromEpochMillis(ms) == Instant(Date(1970, 1, 1), 0, 0, 0, ms)
  {
    assert YearAndDay(0, 1970) == (1970, 0);
    assert MonthAndDay(1970, 0, 1) == (1, 1);
  }

  lemma Year1970()
    ensures Fixed(1970, 4) == "1970"
  {
    assert Fixed(1, 1) == "1";
    assert Fixed(19, 2) == "19";
    assert Fixed(197, 3) == "197";
  }

  lemma TwoDigitsZero()
    ensures Fixed(0, 2) == "00"
  {
    assert Fixed(0, 1) == "0";
  }

  lemma TwoDigitsOne()
    ensures Fixed(1, 2) == "01"
  {
    assert Fixed(0, 1) == "0";
  }

  lemma Join3Literal(a: string, sep: char, b: string, c: string, s: string)
    requires a + [sep] + b + [sep] + c == s
    ensures Join3(a, sep, b, c) == s
  {
  }

  lemma EpochDate()
    ensures FormatDate(Date(1970, 1, 1)) == "1970-01-01"
  {
    var y, m := Fixed(1970, 4), Fixed(1, 2);
    assert FormatDate(Date(1970, 1, 1)) == Join3(y, '-', m, m);
    Year1970();
    TwoDigitsOne();
    assert "1970" + ['-'] == "1970-";
    assert "1970-" + "01" == "1970-01";
    assert "1970-01" + ['-'] == "1970-01-";
    assert "1970-01-" + "01" == "1970-01-01";
    Join3Literal(y, '-', m, m, "1970-01-01");
  }

  lemma MidnightTime(ms: nat)
    requires ms < 1000
    ensures FormatTime(Instant(Date(1970, 1, 1), 0, 0, 0, ms)) == "00:00:00"
  {
    var z := Fixed(0, 2);
    assert FormatTime(Instant(Date(1970, 1, 1), 0, 0, 0, ms)) == Join3(z, ':', z, z);
    TwoDigitsZero();
    ZeroClock();
  }

  lemma ZeroClock()
    ensures Join3("00", ':', "00", "00") == "00:00:00"
  {
    assert "00" + [':'] == "00:";
    assert "00:" + "00" == "00:00";
    assert "00:00" + [':'] == "00:00:";
    assert "00:00:" + "00" == "00:00:00";
    Join3Literal("00", ':', "00", "00", "00:00:00");
  }

  lemma OneMilliFraction()
    ensures Fraction(1) == ".001"
  {
    ThreeDigitsOne();
    assert Fraction(1) == "." + Fixed(1, 3);
    assert "." + "001" == ".001";
  }

  lemma ThreeDigitsOne()
    ensures Fixed(1, 3) == "001"
  {
    assert Fixed(0, 1) == "0";
    assert Fixed(0, 2) == "00";
  }

  lemma FirstSecondInstant(ms: nat)
    requires ms < 1000
    ensures FormatTimestamp(ms) == FormatInstant(Instant(Date(1970, 1, 1), 0, 0, 0, ms))
  {
    EpochInstant(ms);
  }

  lemma FirstSecondPieces(ms: nat)
    requires ms < 1000
    ensures FormatInstant(Instant(Date(1970, 1, 1), 0, 0, 0, ms)) == "1970-01-01T00:00:00" + Fraction(ms) + "Z"
  {
    var t := Instant(Date(1970, 1, 1), 0, 0, 0, ms);
    EpochDate();
    MidnightTime(ms);
    assert "1970-01-01" + "T" + "00:00:00" == "1970-01-01T00:00:00";
    calc {
      FormatInstant(t);
      FormatDate(t.date) + "T" + FormatTime(t) + Fraction(ms) + "Z";
      "1970-01-01" + "T" + "00:00:00" + Fraction(ms) + "Z";
      "1970-01-01T00:00:00" + Fraction(ms) + "Z";
    }
  }

  /** Within the first second after the epoch only the fraction varies. */
  lemma FirstSecond(ms: nat)
    requires ms < 1000
    ensures FormatTimestamp(ms) == "1970-01-01T00:00:00" + Fraction(ms) + "Z"
  {
    FirstSecondInstant(ms);
    FirstSecondPieces(ms);

  }

  lemma EpochFraction()
    ensures "1970-01-01T00:00:00" + Fraction(0) + "Z" == "1970-01-01T00:00:00Z"
  {
  }

  lemma OneMilliText()
    ensures "1970-01-01T00:00:00" + Fraction(1) + "Z" == "1970-01-01T00:00:00.001Z"
  {
    OneMilliFraction();
  }

  /** The epoch itself: no fraction is printed for a zero millisecond part. */
  lemma FormatEpoch()
    ensures FormatTimestamp(0) == "1970-01-01T00:00:00Z"
  {
    FirstSecond(0);
    EpochFraction();
  }

  /** One millisecond after the epoch: a three-digit, zero-padded fraction. */
  lemma FormatOneMilli()
    ensures FormatTimestamp(1) == "1970-01-01T00:00:00.001Z"
  {
    FirstSecond(1);
    OneMilliText();
  }

  // The writer's outputs, as its tests expect them. Each expected text is
  // written one piece per line and member, in the order the entry prints them.

  /** The action line, as the tests write it. */
  const IndexLine := "{ \"index\" : {} }\n"

  /** Members one after another, each preceded by its comma. */
  function Trailing(ms: seq<Member>): string {
    if |ms| == 0 then "" else "," + RenderMember(ms[0]) + Trailing(ms[1..])
  }

  lemma {:induction false} RenderMembersLead(m: Member, rest: seq<Member>)
    ensures RenderMembers([m] + rest) == RenderMember(m) + Trailing(rest)
    decreases |rest|
  {
    var ms := [m] + rest;
    assert ms[0] == m && ms[1..] == rest;
    if |rest| > 0 {
      RenderMembersLead(rest[0], rest[1..]);
      assert [rest[0]] + rest[1..] == rest;
      var a, b, c := RenderMember(m), RenderMember(rest[0]), Trailing(rest[1..]);
      assert a + "," + (b + c) == a + ("," + b + c);
    }
  }

  lemma {:induction false} TrailingAppend(a: seq<Member>, b: seq<Member>)
    ensures Trailing(a + b) == Trailing(a) + Trailing(b)
  {
    if |a| == 0 {
      assert a + b == b;
    } else {
      assert (a + b)[0] == a[0] && (a + b)[1..] == a[1..] + b;
      TrailingAppend(a[1..], b);
      var x, y, z := "," + RenderMember(a[0]), Trailing(a[1..]), Trailing(b);
      assert x + (y + z) == x + y + z;
    }
  }

  /** The members of a document with a three-member header, as text. */
  lemma MembersLayout(h0: Member, h: seq<Member>, tags: seq<Member>, fields: seq<Member>)
    ensures RenderMembers([h0] + (h + tags + fields))
         == RenderMember(h0) + (Trailing(h) + Trailing(tags) + Trailing(fields))
  {
    RenderMembersLead(h0, h + tags + fields);
    TrailingAppend(h + tags, fields);
    TrailingAppend(h, tags);
  }

  /** A bulk entry's text: the action line, the opening brace, the members, the closing brace. */
  lemma EntryLayout(doc: seq<Member>, a: string, b: string, c: string, d: string)
    requires RenderMembers(doc) == a + (b + c + d)
    ensures BulkEntry(doc) == IndexLine + "{" + a + b + c + d + "}\n"
  {
    assert IndexAction + "\n" == IndexLine;
    assert IndexLine + ("{" + (a + (b + c + d)) + "}") + "\n" == IndexLine + "{" + a + b + c + d + "}\n";
  }

  lemma DocumentSplit(id: MeterId, m: Meter, stamp: string)
    requires Defined(m)
    ensures Document(id, m, stamp)
         == [Member("@timestamp", Str(stamp))]
            + ([Member("name", Str(id.name)), Member("type", Str(TypeName(TypeOf(m))))]
               + TagMembers(id.tags) + Fields(m))
  {
    var header := [Member("@timestamp", Str(stamp)), Member("name", Str(id.name)), Member("type", Str(TypeName(TypeOf(m))))];
    assert Document(id, m, stamp) == header + TagMembers(id.tags) + Fields(m);
    HeaderSplit(header, TagMembers(id.tags), Fields(m));
  }

  lemma HeaderSplit(header: seq<Member>, tags: seq<Member>, fs: seq<Member>)
    requires |header| == 3
    ensures header + tags + fs == [header[0]] + ([header[1], header[2]] + tags + fs)
  {
    assert header == [header[0]] + [header[1], header[2]];
  }

  /** A document's entry, member by member. */
  lemma DocumentLayout(id: MeterId, m: Meter, stamp: string)
    requires Defined(m)
    ensures BulkEntry(Document(id, m, stamp))
         == IndexLine + "{" + RenderMember(Member("@timestamp", Str(stamp)))
            + Trailing([Member("name", Str(id.name)), Member("type", Str(TypeName(TypeOf(m))))])
            + Trailing(TagMembers(id.tags)) + Trailing(Fields(m)) + "}\n"
  {
    var h0 := Member("@timestamp", Str(stamp));
    var h := [Member("name", Str(id.name)), Member("type", Str(TypeName(TypeOf(m))))];
    var tags, fields := TagMembers(id.tags), Fields(m);
    DocumentSplit(id, m, stamp);
    MembersLayout(h0, h, tags, fields);
    EntryLayout(Document(id, m, stamp), RenderMember(h0), Trailing(h), Trailing(tags), Trailing(fields));
  }

  lemma Assoc(x: string, y: string, z: string)
    ensures x + y + z == x + (y + z)
  {
  }

  lemma StampPiece(stamp: string)
    ensures "{" + RenderMember(Member("@timestamp", Str(stamp))) == "{\"@timestamp\":\"" + stamp + "\""
  {
  }

  lemma StrPiece(key: string, value: string)
    ensures "," + RenderMember(Member(key, Str(value))) == ",\"" + key + "\":\"" + value + "\""
  {
  }

  lemma NumPiece(key: string, token: string)
    ensures "," + RenderMember(Member(key, Num(token))) == (",\"" + key + "\":") + token
  {
  }

  /** The text before each numeric field's value. */
  lemma KeyTexts()
    ensures ",\"" + "count" + "\":" == ",\"count\":"
    ensures ",\"" + "value" + "\":" == ",\"value\":"
    ensures ",\"" + "sum" + "\":" == ",\"sum\":"
    ensures ",\"" + "mean" + "\":" == ",\"mean\":"
    ensures ",\"" + "max" + "\":" == ",\"max\":"
    ensures ",\"" + "activeTasks" + "\":" == ",\"activeTasks\":"
    ensures ",\"" + "duration" + "\":" == ",\"duration\":"
  {
  }

  lemma NamePiece(name: string)
    ensures "," + RenderMember(Member("name", Str(name))) == ",\"name\":\"" + name + "\""
  {
    StrPiece("name", name);
    Assoc(",\"", "name", "\":\"");
  }

  lemma TypePiece(typeName: string)
    ensures "," + RenderMember(Member("type", Str(typeName))) == ",\"type\":\"" + typeName + "\""
  {
    StrPiece("type", typeName);
    Assoc(",\"", "type", "\":\"");
  }

  lemma TrailingOne(x: Member)
    ensures Trailing([x]) == "," + RenderMember(x)
  {
    assert [x][1..] == [];
  }

  lemma TrailingTwo(x: Member, y: Member)
    ensures Trailing([x, y]) == "," + RenderMember(x) + ("," + RenderMember(y))
  {
    assert [x, y][1..] == [y];
    TrailingOne(y);
  }

  /** How the tags print: each as a string member after a comma, in order. */
  function TagText(tags: seq<Tag>): string {
    if |tags| == 0 then "" else ",\"" + tags[0].key + "\":\"" + tags[0].value + "\"" + TagText(tags[1..])
  }

  lemma {:induction false} TagsText(tags: seq<Tag>)
    ensures Trailing(TagMembers(tags)) == TagText(tags)
  {
    var ms := TagMembers(tags);
    if |tags| > 0 {
      assert ms[1..] == TagMembers(tags[1..]);
      TagsText(tags[1..]);
      StrPiece(tags[0].key, tags[0].value);
    }
  }

  /** How the fields of each kind print: integer-typed counts without a
      fraction and double-typed values with one, in a fixed order. */
  function FieldText(m: Meter): string
    requires Defined(m)
  {
    match m
    case Counter(c) => ",\"count\":" + RenderDouble(c)
    case FunctionCounter(c) => ",\"count\":" + RenderDouble(c)
    case Gauge(v) => ",\"value\":" + RenderDouble(v.value)
    case TimeGauge(v) => ",\"value\":" + RenderDouble(v.value)
    case Timer(n, sum, mean, max) => StatisticsText(n, sum, mean, max)
    case DistributionSummary(n, sum, mean, max) => StatisticsText(n, sum, mean, max)
    case LongTaskTimer(active, duration) =>
      (",\"activeTasks\":" + RenderLong(active)) + (",\"duration\":" + RenderDouble(duration))
  }

  function StatisticsText(n: nat, sum: WholeDouble, mean: WholeDouble, max: WholeDouble): string {
    (",\"count\":" + RenderLong(n)) + (",\"sum\":" + RenderDouble(sum))
    + (",\"mean\":" + RenderDouble(mean)) + (",\"max\":" + RenderDouble(max))
  }

  lemma TrailingFour(a: Member, b: Member, c: Member, d: Member)
    ensures Trailing([a, b, c, d])
         == ("," + RenderMember(a)) + ("," + RenderMember(b)) + ("," + RenderMember(c)) + ("," + RenderMember(d))
  {
    assert [a, b, c, d] == [a, b] + [c, d];
    TrailingAppend([a, b], [c, d]);
    TrailingTwo(a, b);
    TrailingTwo(c, d);
    Assoc(("," + RenderMember(a)) + ("," + RenderMember(b)), "," + RenderMember(c), "," + RenderMember(d));
  }

  lemma SingleFieldText(key: string, x: WholeDouble)
    requires Plain(key)
    ensures Trailing(SingleField(key, x)) == (",\"" + key + "\":") + RenderDouble(x)
  {
    TrailingOne(DoubleMember(key, x));
    NumPiece(key, RenderDouble(x));
  }

  lemma StatisticsFieldsText(n: nat, sum: WholeDouble, mean: WholeDouble, max: WholeDouble)
    ensures Trailing(StatisticsFields(n, sum, mean, max)) == StatisticsText(n, sum, mean, max)
  {
    TrailingFour(LongMember("count", n), DoubleMember("sum", sum), DoubleMember("mean", mean), DoubleMember("max", max));
    NumPiece("count", RenderLong(n));
    NumPiece("sum", RenderDouble(sum));
    NumPiece("mean", RenderDouble(mean));
    NumPiece("max", RenderDouble(max));
    KeyTexts();
  }

  lemma LongTaskTimerFieldsText(active: nat, duration: WholeDouble)
    ensures Trailing(LongTaskTimerFields(active, duration))
         == (",\"activeTasks\":" + RenderLong(active)) + (",\"duration\":" + RenderDouble(duration))
  {
    TrailingTwo(LongMember("activeTasks", active), DoubleMember("duration", duration));
    NumPiece("activeTasks", RenderLong(active));
    NumPiece("duration", RenderDouble(duration));
    KeyTexts();
  }

  lemma FieldsText(m: Meter)
    requires Defined(m)
    ensures Trailing(Fields(m)) == FieldText(m)
  {
    match m
    case Counter(c) => SingleFieldText("count", c); KeyTexts();
    case FunctionCounter(c) => SingleFieldText("count", c); KeyTexts();
    case Gauge(v) => SingleFieldText("value", v.value); KeyTexts();
    case TimeGauge(v) => SingleFieldText("value", v.value); KeyTexts();
    case Timer(n, sum, mean, max) => StatisticsFieldsText(n, sum, mean, max);
    case DistributionSummary(n, sum, mean, max) => StatisticsFieldsText(n, sum, mean, max);
    case LongTaskTimer(active, duration) => LongTaskTimerFieldsText(active, duration);
  }

  lemma HeaderText(name: string, typeName: string)
    ensures Trailing([Member("name", Str(name)), Member("type", Str(typeName))])
         == (",\"name\":\"" + name + "\"") + (",\"type\":\"" + typeName + "\"")
  {
    TrailingTwo(Member("name", Str(name)), Member("type", Str(typeName)));
    NamePiece(name);
    TypePiece(typeName);
  }

  /** The whole text the writer prints for a meter with defined fields:
      the action line, then the document's members in order (`@timestamp`,
      `name`, `type`, the tags, the kind's fields), the first after the
      opening brace and every other one after a comma, each string value
      quoted as it is, then the closing brace and a newline. */
  lemma WriteLayout(id: MeterId, m: Meter, ms: nat)
    requires Defined(m) && ms < MaxEpochMillis
    ensures Write(id, m, ms)
         == IndexLine + ("{\"@timestamp\":\"" + FormatTimestamp(ms) + "\"")
            + (",\"name\":\"" + id.name + "\"") + (",\"type\":\"" + TypeName(TypeOf(m)) + "\"")
            + TagText(id.tags) + FieldText(m) + "}\n"
  {
    var stamp := FormatTimestamp(ms);
    var h0 := Member("@timestamp", Str(stamp));
    var h := [Member("name", Str(id.name)), Member("type", Str(TypeName(TypeOf(m))))];
    DocumentLayout(id, m, stamp);
    StampPiece(stamp);
    HeaderText(id.name, TypeName(TypeOf(m)));
    TagsText(id.tags);
    FieldsText(m);
    Assoc(IndexLine, "{", RenderMember(h0));
    HeaderRegroup(IndexLine + ("{" + RenderMember(h0)), ",\"name\":\"" + id.name + "\"",
             ",\"type\":\"" + TypeName(TypeOf(m)) + "\"", TagText(id.tags), FieldText(m), "}\n");
  }

  /** Groups the name and type members of an entry's text. */
  lemma HeaderRegroup(x: string, b: string, c: string, d: string, e: string, f: string)
    ensures x + b + c + d + e + f == x + (b + c) + d + e + f
  {
  }

  lemma ZeroDouble()
    ensures RenderDouble(0) == "0.0"
  {
    assert ToString(0) == "0";
  }

  /** `WriteLayout` with the timestamp's text given. */
  lemma WriteLayoutAt(id: MeterId, m: Meter, ms: nat, stamp: string)
    requires Defined(m) && ms < MaxEpochMillis
    requires FormatTimestamp(ms) == stamp
    ensures Write(id, m, ms)
         == IndexLine + ("{\"@timestamp\":\"" + stamp + "\"")
            + (",\"name\":\"" + id.name + "\"") + (",\"type\":\"" + TypeName(TypeOf(m)) + "\"")
            + TagText(id.tags) + FieldText(m) + "}\n"
  {
    WriteLayout(id, m, ms);
  }

  /** The timestamp piece of every test: the epoch, which prints without a fraction. */
  lemma EpochPiece()
    ensures "{\"@timestamp\":\"" + "1970-01-01T00:00:00Z" + "\"" == "{\"@timestamp\":\"1970-01-01T00:00:00Z\""
  {
  }

  lemma ZeroLong()
    ensures RenderLong(0) == "0"
  {
    assert ToString(0) == "0";
  }

  lemma WholeDoubleText(n: nat, digits: string)
    requires 0 < n < DoubleLimit && ToString(n) == digits
    ensures RenderDouble(n) == digits + ".0"
  {
  }

  lemma Double123()
    ensures RenderDouble(123) == "123.0"
  {
    assert ToString(123) == "123" by {
      assert ToString(1) == "1";
      assert ToString(12) == "12";
    }
    WholeDoubleText(123, "123");
  }

  lemma Double456()
    ensures RenderDouble(456) == "456.0"
  {
    assert ToString(456) == "456" by {
      assert ToString(4) == "4";
      assert ToString(45) == "45";
    }
    WholeDoubleText(456, "456");
  }

  /** The `name` members of the tests. */
  lemma NameTexts()
    ensures ",\"name\":\"" + "myTimer" + "\"" == ",\"name\":\"myTimer\""
    ensures ",\"name\":\"" + "myCounter" + "\"" == ",\"name\":\"myCounter\""
    ensures ",\"name\":\"" + "myGauge" + "\"" == ",\"name\":\"myGauge\""
    ensures ",\"name\":\"" + "longTaskTimer" + "\"" == ",\"name\":\"longTaskTimer\""
    ensures ",\"name\":\"" + "summary" + "\"" == ",\"name\":\"summary\""
    ensures ",\"name\":\"" + "counter" + "\"" == ",\"name\":\"counter\""
  {
  }

  /** The `type` member of each type of document. */
  lemma TypeTexts()
    ensures ",\"type\":\"" + TypeName(CounterType) + "\"" == ",\"type\":\"counter\""
    ensures ",\"type\":\"" + TypeName(GaugeType) + "\"" == ",\"type\":\"gauge\""
    ensures ",\"type\":\"" + TypeName(TimerType) + "\"" == ",\"type\":\"timer\""
    ensures ",\"type\":\"" + TypeName(SummaryType) + "\"" == ",\"type\":\"distribution_summary\""
    ensures ",\"type\":\"" + TypeName(LongTaskTimerType) + "\"" == ",\"type\":\"long_task_timer\""
  {
    assert TypeName(SummaryType) == "distribution_summary" && TypeName(LongTaskTimerType) == "long_task_timer";
  }

  /** The members after `type` when a counter of either kind counts 0 and has no tags. */
  lemma CounterMembers()
    ensures TagText([]) + FieldText(Counter(0)) == ",\"count\":0.0"
    ensures TagText([]) + FieldText(FunctionCounter(0)) == ",\"count\":0.0"
  {
    ZeroDouble();
  }

  lemma GaugeMembers()
    ensures TagText([]) + FieldText(Gauge(Some(123))) == ",\"value\":123.0"
    ensures TagText([]) + FieldText(TimeGauge(Some(123))) == ",\"value\":123.0"
  {
    Double123();
  }

  lemma TimerMembers()
    ensures TagText([]) + FieldText(Timer(0, 0, 0, 0))
         == ",\"count\":0" + ",\"sum\":0.0" + ",\"mean\":0.0" + ",\"max\":0.0"
  {
    ZeroLong();
    ZeroDouble();
  }

  lemma SummaryMembers()
    ensures TagText([]) + FieldText(DistributionSummary(0, 0, 0, 456))
         == ",\"count\":0" + ",\"sum\":0.0" + ",\"mean\":0.0" + ",\"max\":456.0"
  {
    ZeroLong();
    ZeroDouble();
    Double456();
  }

  lemma LongTaskTimerMembers()
    ensures TagText([]) + FieldText(LongTaskTimer(0, 0)) == ",\"activeTasks\":0" + ",\"duration\":0.0"
  {
    ZeroLong();
    ZeroDouble();
  }

  lemma TwoTags()
    ensures TagText([Tag("foo", "bar"), Tag("spam", "eggs")]) == ",\"foo\":\"bar\"" + ",\"spam\":\"eggs\""
  {
    var tags := [Tag("foo", "bar"), Tag("spam", "eggs")];
    assert tags[1..] == [Tag("spam", "eggs")];
    assert TagText([Tag("spam", "eggs")]) == ",\"spam\":\"eggs\"" by {
      assert [Tag("spam", "eggs")][1..] == [];
    }
  }

  lemma TaggedMembers()
    ensures TagText([Tag("foo", "bar"), Tag("spam", "eggs")]) + FieldText(Counter(0))
         == ",\"foo\":\"bar\"" + ",\"spam\":\"eggs\"" + ",\"count\":0.0"
  {
    TwoTags();
    CounterMembers();
  }

  /** The entry of every test: written at an instant that prints as the
      epoch, with the `name` member, the `type` member and the members after
      them given as text. */
  lemma EpochEntry(id: MeterId, m: Meter, ms: nat)
    requires Defined(m) && ms < MaxEpochMillis && FormatTimestamp(ms) == "1970-01-01T00:00:00Z"
    ensures Write(id, m, ms)
         == IndexLine + "{\"@timestamp\":\"1970-01-01T00:00:00Z\"" + (",\"name\":\"" + id.name + "\"")
            + (",\"type\":\"" + TypeName(TypeOf(m)) + "\"") + (TagText(id.tags) + FieldText(m)) + "}\n"
  {
    var name, typeName := ",\"name\":\"" + id.name + "\"", ",\"type\":\"" + TypeName(TypeOf(m)) + "\"";
    WriteLayoutAt(id, m, ms, "1970-01-01T00:00:00Z");
    EpochPiece();
    Assoc(IndexLine + "{\"@timestamp\":\"1970-01-01T00:00:00Z\"" + name + typeName, TagText(id.tags), FieldText(m));
  }

  // One lemma per test. Each holds at every instant that prints as the
  // epoch, which `FormatEpoch` shows the instant 0 does. The members after
  // `type` are grouped in parentheses.

  /** `writeTimer` and `writeMeter`: a timer with no samples; its count prints without a fraction and the rest with one. */
  lemma WriteTimerExample(ms: nat)
    requires ms < MaxEpochMillis && FormatTimestamp(ms) == "1970-01-01T00:00:00Z"
    ensures Write(MeterId("myTimer", []), Timer(0, 0, 0, 0), ms)
         == IndexLine + "{\"@timestamp\":\"1970-01-01T00:00:00Z\"" + ",\"name\":\"myTimer\"" + ",\"type\":\"timer\""
            + (",\"count\":0" + ",\"sum\":0.0" + ",\"mean\":0.0" + ",\"max\":0.0") + "}\n"
  {
    NameTexts();
    TypeTexts();
    TimerMembers();
    assert TypeOf(Timer(0, 0, 0, 0)) == TimerType;
    EpochEntry(MeterId("myTimer", []), Timer(0, 0, 0, 0), ms);
  }

  /** `writeCounter`: a counter's step count prints with a fraction. */
  lemma WriteCounterExample(ms: nat)
    requires ms < MaxEpochMillis && FormatTimestamp(ms) == "1970-01-01T00:00:00Z"
    ensures Write(MeterId("myCounter", []), Counter(0), ms)
         == IndexLine + "{\"@timestamp\":\"1970-01-01T00:00:00Z\"" + ",\"name\":\"myCounter\"" + ",\"type\":\"counter\""
            + ",\"count\":0.0" + "}\n"
  {
    NameTexts();
    TypeTexts();
    CounterMembers();
    assert TypeOf(Counter(0)) == CounterType;
    EpochEntry(MeterId("myCounter", []), Counter(0), ms);
  }

  /** `writeFunctionCounter`: a function counter's document is typed `counter`. */
  lemma WriteFunctionCounterExample(ms: nat)
    requires ms < MaxEpochMillis && FormatTimestamp(ms) == "1970-01-01T00:00:00Z"
    ensures Write(MeterId("myCounter", []), FunctionCounter(0), ms)
         == IndexLine + "{\"@timestamp\":\"1970-01-01T00:00:00Z\"" + ",\"name\":\"myCounter\"" + ",\"type\":\"counter\""
            + ",\"count\":0.0" + "}\n"
  {
    NameTexts();
    TypeTexts();
    CounterMembers();
    assert TypeOf(FunctionCounter(0)) == CounterType;
    EpochEntry(MeterId("myCounter", []), FunctionCounter(0), ms);
  }

  /** `writeGauge`: a gauge's value prints with a fraction. */
  lemma WriteGaugeExample(ms: nat)
    requires ms < MaxEpochMillis && FormatTimestamp(ms) == "1970-01-01T00:00:00Z"
    ensures Write(MeterId("myGauge", []), Gauge(Some(123)), ms)
         == IndexLine + "{\"@timestamp\":\"1970-01-01T00:00:00Z\"" + ",\"name\":\"myGauge\"" + ",\"type\":\"gauge\""
            + ",\"value\":123.0" + "}\n"
  {
    NameTexts();
    TypeTexts();
    GaugeMembers();
    assert TypeOf(Gauge(Some(123))) == GaugeType;
    EpochEntry(MeterId("myGauge", []), Gauge(Some(123)), ms);
  }

  /** `writeTimeGauge`: a time gauge's document is typed `gauge`. */
  lemma WriteTimeGaugeExample(ms: nat)
    requires ms < MaxEpochMillis && FormatTimestamp(ms) == "1970-01-01T00:00:00Z"
    ensures Write(MeterId("myGauge", []), TimeGauge(Some(123)), ms)
         == IndexLine + "{\"@timestamp\":\"1970-01-01T00:00:00Z\"" + ",\"name\":\"myGauge\"" + ",\"type\":\"gauge\""
            + ",\"value\":123.0" + "}\n"
  {
    NameTexts();
    TypeTexts();
    GaugeMembers();
    assert TypeOf(TimeGauge(Some(123))) == GaugeType;
    EpochEntry(MeterId("myGauge", []), TimeGauge(Some(123)), ms);
  }

  /** `writeLongTaskTimer`: the active task count is integer-typed, the duration double-typed. */
  lemma WriteLongTaskTimerExample(ms: nat)
    requires ms < MaxEpochMillis && FormatTimestamp(ms) == "1970-01-01T00:00:00Z"
    ensures Write(MeterId("longTaskTimer", []), LongTaskTimer(0, 0), ms)
         == IndexLine + "{\"@timestamp\":\"1970-01-01T00:00:00Z\"" + ",\"name\":\"longTaskTimer\"" + ",\"type\":\"long_task_timer\""
            + (",\"activeTasks\":0" + ",\"duration\":0.0") + "}\n"
  {
    NameTexts();
    TypeTexts();
    LongTaskTimerMembers();
    assert TypeOf(LongTaskTimer(0, 0)) == LongTaskTimerType;
    EpochEntry(MeterId("longTaskTimer", []), LongTaskTimer(0, 0), ms);
  }

  /** `writeSummary`: the step count, sum and mean are 0 while the max is
      456, so the max is printed as given, not derived from the others. */
  lemma WriteSummaryExample(ms: nat)
    requires ms < MaxEpochMillis && FormatTimestamp(ms) == "1970-01-01T00:00:00Z"
    ensures Write(MeterId("summary", []), DistributionSummary(0, 0, 0, 456), ms)
         == IndexLine + "{\"@timestamp\":\"1970-01-01T00:00:00Z\"" + ",\"name\":\"summary\"" + ",\"type\":\"distribution_summary\""
            + (",\"count\":0" + ",\"sum\":0.0" + ",\"mean\":0.0" + ",\"max\":456.0") + "}\n"
  {
    NameTexts();
    TypeTexts();
    SummaryMembers();
    assert TypeOf(DistributionSummary(0, 0, 0, 456)) == SummaryType;
    EpochEntry(MeterId("summary", []), DistributionSummary(0, 0, 0, 456), ms);
  }

  /** `writeTags`: tags print as string members between the type and the fields, in the order the id lists them. */
  lemma WriteTaggedExample(ms: nat)
    requires ms < MaxEpochMillis && FormatTimestamp(ms) == "1970-01-01T00:00:00Z"
    ensures Write(MeterId("myCounter", [Tag("foo", "bar"), Tag("spam", "eggs")]), Counter(0), ms)
         == IndexLine + "{\"@timestamp\":\"1970-01-01T00:00:00Z\"" + ",\"name\":\"myCounter\"" + ",\"type\":\"counter\""
            + (",\"foo\":\"bar\"" + ",\"spam\":\"eggs\"" + ",\"count\":0.0") + "}\n"
  {
    NameTexts();
    TypeTexts();
    TaggedMembers();
    assert TypeOf(Counter(0)) == CounterType;
    EpochEntry(MeterId("myCounter", [Tag("foo", "bar"), Tag("spam", "eggs")]), Counter(0), ms);
  }

  /** `wholeCountIsReportedWithDecimal`: a whole counter value keeps its `.0`. */
  lemma WriteWholeCountExample(ms: nat)
    requires ms < MaxEpochMillis && FormatTimestamp(ms) == "1970-01-01T00:00:00Z"
    ensures Write(MeterId("counter", []), Counter(0), ms)
         == IndexLine + "{\"@timestamp\":\"1970-01-01T00:00:00Z\"" + ",\"name\":\"counter\"" + ",\"type\":\"counter\""
            + ",\"count\":0.0" + "}\n"
  {
    NameTexts();
    TypeTexts();
    CounterMembers();
    assert TypeOf(Counter(0)) == CounterType;
    EpochEntry(MeterId("counter", []), Counter(0), ms);
  }

  /** `nullGauge`: a gauge or time gauge whose value is gone writes nothing at all. */
  lemma NullGaugeExample(ms: nat)
    requires ms < MaxEpochMillis
    ensures |Write(MeterId("gauge", []), Gauge(None), ms)| == 0
    ensures |Write(MeterId("time.gauge", []), TimeGauge(None), ms)| == 0
  {
  }
}
