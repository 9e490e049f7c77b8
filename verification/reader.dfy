/** Reading a bulk entry back into the meter it was written from: the
    inverse of the writer. Its lemmas state what the writer's output
    determines and under which condition on the tag text. */
module BulkReader {
  import opened Wrappers
  import opened Decimal
  import opened Calendar
  import opened Numbers
  import opened Timestamp
  import opened FlatJson
  import opened ElasticWriter

  predicate SingleLine(s: string) {
    forall i :: 0 <= i < |s| ==> s[i] != '\n'
  }

  /** A name and tags that need no JSON escaping. The writer splices them
      in unescaped, so only such text is guaranteed to read back. */
  predicate SafeId(id: MeterId) {
    && Plain(id.name)
    && forall i :: 0 <= i < |id.tags| ==> Plain(id.tags[i].key) && Plain(id.tags[i].value)
  }

  /** Splits a bulk entry into the members of its document: the action
      line, then exactly one more line holding one object. */
  function ParseBulkEntry(out: string): Option<seq<Member>> {
    var prefix := IndexAction + "\n";
    if |out| <= |prefix| || out[..|prefix|] != prefix || out[|out| - 1] != '\n' then None
    else
      var line := out[|prefix|..|out| - 1];
      if SingleLine(line) then ParseObject(line) else None
  }

  /** The meter as its document describes it: a function counter reads as
      a counter and a time gauge as a gauge. */
  function Documented(m: Meter): Meter {
    match m
    case FunctionCounter(c) => Counter(c)
    case TimeGauge(v) => Gauge(v)
    case _ => m
  }

  function DoubleOf(member: Member): Option<WholeDouble> {
    match member.value
    case Num(t) => ParseDouble(t)
    case Str(_) => None
  }

  function LongOf(member: Member): Option<nat> {
    match member.value
    case Num(t) => ParseLong(t)
    case Str(_) => None
  }

  /** The document type a `type` member names. */
  function ParseTypeName(s: string): Option<DocType> {
    if s == "counter" then Some(CounterType)
    else if s == "gauge" then Some(GaugeType)
    else if s == "timer" then Some(TimerType)
    else if s == "distribution_summary" then Some(SummaryType)
    else if s == "long_task_timer" then Some(LongTaskTimerType)
    else None
  }

  /** The type names are distinct and each reads back as its type. */
  lemma ParseTypeNameOf(t: DocType, s: string)
    ensures ParseTypeName(s) == Some(t) <==> s == TypeName(t)
  {
  }

  /** The meter a document's numeric members describe, given its type. */
  function DecodeFields(t: DocType, fs: seq<Member>): Option<Meter> {
    if Keys(fs) != FieldNames(t) then None
    else
      match t
      case CounterType =>
        var c :- DoubleOf(fs[0]);
        Some(Counter(c))
      case GaugeType =>
        var v :- DoubleOf(fs[0]);
        Some(Gauge(Some(v)))
      case LongTaskTimerType =>
        var active :- LongOf(fs[0]);
        var duration :- DoubleOf(fs[1]);
        Some(LongTaskTimer(active, duration))
      case TimerType =>
        var n :- LongOf(fs[0]);
        var sum :- DoubleOf(fs[1]);
        var mean :- DoubleOf(fs[2]);
        var max :- DoubleOf(fs[3]);
        Some(Timer(n, sum, mean, max))
      case SummaryType =>
        var n :- LongOf(fs[0]);
        var sum :- DoubleOf(fs[1]);
        var mean :- DoubleOf(fs[2]);
        var max :- DoubleOf(fs[3]);
        Some(DistributionSummary(n, sum, mean, max))
  }

  predicate AllStrings(ms: seq<Member>) {
    forall i :: 0 <= i < |ms| ==> ms[i].value.Str?
  }

  function DecodeTags(ms: seq<Member>): Option<seq<Tag>> {
    if AllStrings(ms) then Some(seq(|ms|, i requires 0 <= i < |ms| && AllStrings(ms) => Tag(ms[i].key, ms[i].value.text)))
    else None
  }

  /** The meter, its identity and the instant a document records. */
  function DecodeDocument(doc: seq<Member>): Option<(MeterId, nat, Meter)> {
    if |doc| < 3 || doc[0].key != "@timestamp" || doc[1].key != "name" || doc[2].key != "type"
       || !doc[0].value.Str? || !doc[1].value.Str? || !doc[2].value.Str?
    then None
    else
      var ms :- ParseTimestamp(doc[0].value.text);
      var t :- ParseTypeName(doc[2].value.text);
      var k := |FieldNames(t)|;
      if |doc| < 3 + k then None
      else
        var tags :- DecodeTags(doc[3..|doc| - k]);
        var m :- DecodeFields(t, doc[|doc| - k..]);
        Some((MeterId(doc[1].value.text, tags), ms, m))
  }

  function Decode(out: string): Option<(MeterId, nat, Meter)> {
    var doc :- ParseBulkEntry(out);
    DecodeDocument(doc)
  }

  lemma DoubleOfMember(key: string, x: WholeDouble)
    requires Plain(key)
    ensures DoubleOf(DoubleMember(key, x)) == Some(x)
  {
    ParseDoubleRoundTrip(x, RenderDouble(x));
  }

  lemma LongOfMember(key: string, n: nat)
    requires Plain(key)
    ensures LongOf(LongMember(key, n)) == Some(n)
  {
    ParseLongRoundTrip(n, RenderLong(n));
  }

  /** Reading a counter's or a gauge's one field, whatever its text. */
  lemma DecodeSingle(t: DocType, fs: seq<Member>, x: WholeDouble)
    requires t == CounterType || t == GaugeType
    requires Keys(fs) == FieldNames(t) && DoubleOf(fs[0]) == Some(x)
    ensures DecodeFields(t, fs) == Some(if t == CounterType then Counter(x) else Gauge(Some(x)))
  {
  }

  /** Reading a timer's or a summary's four fields, whatever their text. */
  lemma DecodeStatistics(t: DocType, fs: seq<Member>, n: nat, sum: WholeDouble, mean: WholeDouble, max: WholeDouble)
    requires t == TimerType || t == SummaryType
    requires Keys(fs) == FieldNames(t)
    requires LongOf(fs[0]) == Some(n) && DoubleOf(fs[1]) == Some(sum)
    requires DoubleOf(fs[2]) == Some(mean) && DoubleOf(fs[3]) == Some(max)
    ensures DecodeFields(t, fs)
         == Some(if t == TimerType then Timer(n, sum, mean, max) else DistributionSummary(n, sum, mean, max))
  {
  }

  /** Reading a long task timer's two fields, whatever their text. */
  lemma DecodeLongTask(fs: seq<Member>, active: nat, duration: WholeDouble)
    requires Keys(fs) == FieldNames(LongTaskTimerType)
    requires LongOf(fs[0]) == Some(active) && DoubleOf(fs[1]) == Some(duration)
    ensures DecodeFields(LongTaskTimerType, fs) == Some(LongTaskTimer(active, duration))
  {
  }

  lemma DecodeSingleField(t: DocType, key: string, x: WholeDouble)
    requires (t == CounterType && key == "count") || (t == GaugeType && key == "value")
    ensures DecodeFields(t, SingleField(key, x)) == Some(if t == CounterType then Counter(x) else Gauge(Some(x)))
  {
    var fs := SingleField(key, x);
    DoubleOfMember(key, x);
    assert fs[0] == DoubleMember(key, x);
    DecodeSingle(t, fs, x);
  }

  lemma DecodeStatisticsFields(n: nat, sum: WholeDouble, mean: WholeDouble, max: WholeDouble)
    ensures DecodeFields(TimerType, StatisticsFields(n, sum, mean, max)) == Some(Timer(n, sum, mean, max))
    ensures DecodeFields(SummaryType, StatisticsFields(n, sum, mean, max)) == Some(DistributionSummary(n, sum, mean, max))
  {
    var fs := StatisticsFields(n, sum, mean, max);
    LongOfMember("count", n);
    DoubleOfMember("sum", sum);
    DoubleOfMember("mean", mean);
    DoubleOfMember("max", max);
    assert fs == [LongMember("count", n), DoubleMember("sum", sum), DoubleMember("mean", mean), DoubleMember("max", max)];
    DecodeStatistics(TimerType, fs, n, sum, mean, max);
    DecodeStatistics(SummaryType, fs, n, sum, mean, max);
  }

  lemma DecodeLongTaskTimerFields(active: nat, duration: WholeDouble)
    ensures DecodeFields(LongTaskTimerType, LongTaskTimerFields(active, duration)) == Some(LongTaskTimer(active, duration))
  {
    var fs := LongTaskTimerFields(active, duration);
    LongOfMember("activeTasks", active);
    DoubleOfMember("duration", duration);
    assert fs == [LongMember("activeTasks", active), DoubleMember("duration", duration)];
    DecodeLongTask(fs, active, duration);
  }

  /** The numeric members of a document give back the values they were printed from. */
  lemma DecodeFieldsOf(m: Meter)
    requires Defined(m)
    ensures DecodeFields(TypeOf(m), Fields(m)) == Some(Documented(m))
  {
    match m
    case Counter(c) => DecodeSingleField(CounterType, "count", c);
    case FunctionCounter(c) => DecodeSingleField(CounterType, "count", c);
    case Gauge(v) => DecodeSingleField(GaugeType, "value", v.value);
    case TimeGauge(v) => DecodeSingleField(GaugeType, "value", v.value);
    case Timer(n, sum, mean, max) => DecodeStatisticsFields(n, sum, mean, max);
    case DistributionSummary(n, sum, mean, max) => DecodeStatisticsFields(n, sum, mean, max);
    case LongTaskTimer(active, duration) => DecodeLongTaskTimerFields(active, duration);
  }

  lemma DecodeTagsOf(tags: seq<Tag>)
    ensures DecodeTags(TagMembers(tags)) == Some(tags)
  {
    var ms := TagMembers(tags);
    assert AllStrings(ms);
    var r := seq(|ms|, i requires 0 <= i < |ms| && AllStrings(ms) => Tag(ms[i].key, ms[i].value.text));
    assert r == tags;
  }

  /** A document records exactly the meter it was made from, up to the
      kinds the document does not distinguish. */
  lemma DecodeDocumentOf(id: MeterId, m: Meter, ms: nat)
    requires Defined(m) && ms < MaxEpochMillis
    ensures DecodeDocument(Document(id, m, FormatTimestamp(ms))) == Some((id, ms, Documented(m)))
  {
    ParseFormat(ms);
    DecodeStamped(id, m, FormatTimestamp(ms), ms);
  }

  lemma DecodeStamped(id: MeterId, m: Meter, stamp: string, ms: nat)
    requires Defined(m) && ParseTimestamp(stamp) == Some(ms)
    ensures DecodeDocument(Document(id, m, stamp)) == Some((id, ms, Documented(m)))
  {
    var typeText := TypeName(TypeOf(m));
    var header := [Member("@timestamp", Str(stamp)), Member("name", Str(id.name)), Member("type", Str(typeText))];
    assert Document(id, m, stamp) == header + TagMembers(id.tags) + Fields(m);
    assert |FieldNames(TypeOf(m))| == |Fields(m)|;
    ParseTypeNameOf(TypeOf(m), typeText);
    DecodeTagsOf(id.tags);
    DecodeFieldsOf(m);
    DecodeAssembled(Document(id, m, stamp), stamp, id.name, typeText, TagMembers(id.tags), Fields(m),
                    ms, TypeOf(m), id.tags, Documented(m));
  }

  /** Reading a document laid out as header, tag members and fields, whatever their contents. */
  lemma DecodeAssembled(doc: seq<Member>, stamp: string, name: string, typeText: string,
                        tagMembers: seq<Member>, fs: seq<Member>, ms: nat, t: DocType, tags: seq<Tag>, m: Meter)
    requires doc == [Member("@timestamp", Str(stamp)), Member("name", Str(name)), Member("type", Str(typeText))]
                    + tagMembers + fs
    requires ParseTimestamp(stamp) == Some(ms) && ParseTypeName(typeText) == Some(t)
    requires |FieldNames(t)| == |fs| && DecodeTags(tagMembers) == Some(tags) && DecodeFields(t, fs) == Some(m)
    ensures DecodeDocument(doc) == Some((MeterId(name, tags), ms, m))
  {
    var k := |fs|;
    assert doc[3..|doc| - k] == tagMembers;
    assert doc[|doc| - k..] == fs;
  }

  lemma PlainConcat(a: string, b: string)
    requires Plain(a) && Plain(b)
    ensures Plain(a + b)
  {
  }

  lemma DigitsArePlain(s: string)
    requires AllDigits(s)
    ensures Plain(s)
  {
  }

  lemma Join3Plain(a: string, sep: char, b: string, c: string)
    requires AllDigits(a) && AllDigits(b) && AllDigits(c)
    requires sep == '-' || sep == ':'
    ensures Plain(Join3(a, sep, b, c))
  {
    DigitsArePlain(a);
    DigitsArePlain(b);
    DigitsArePlain(c);
    PlainConcat(a, [sep]);
    PlainConcat(a + [sep], b);
    PlainConcat(a + [sep] + b, [sep]);
    PlainConcat(a + [sep] + b + [sep], c);
  }

  lemma FractionPlain(milli: int)
    requires 0 <= milli < 1000
    ensures Plain(Fraction(milli))
  {
    if milli != 0 {
      DigitsArePlain(Fixed(milli, 3));
      PlainConcat(".", Fixed(milli, 3));
    }
  }

  lemma DatePlain(d: Date)
    requires ValidDate(d) && d.year <= 9999
    ensures Plain(FormatDate(d))
  {
    Join3Plain(Fixed(d.year, 4), '-', Fixed(d.month, 2), Fixed(d.day, 2));
  }

  lemma TimePlain(t: Instant)
    requires ValidInstant(t)
    ensures Plain(FormatTime(t))
  {
    Join3Plain(Fixed(t.hour, 2), ':', Fixed(t.minute, 2), Fixed(t.second, 2));
  }

  lemma InstantPlain(t: Instant)
    requires ValidInstant(t)
    ensures Plain(FormatInstant(t))
  {
    var date, time, frac := FormatDate(t.date), FormatTime(t), Fraction(t.milli);
    DatePlain(t.date);
    TimePlain(t);
    FractionPlain(t.milli);
    PlainConcat(date, "T");
    PlainConcat(date + "T", time);
    PlainConcat(date + "T" + time, frac);
    PlainConcat(date + "T" + time + frac, "Z");
  }

  /** A timestamp needs no escaping: it is digits and the separators `-T:.Z`. */
  lemma TimestampPlain(ms: nat)
    requires ms < MaxEpochMillis
    ensures Plain(FormatTimestamp(ms))
  {
    InstantPlain(FromEpochMillis(ms));
  }

  lemma AllWellFormedConcat(a: seq<Member>, b: seq<Member>)
    requires AllWellFormed(a) && AllWellFormed(b)
    ensures AllWellFormed(a + b)
  {
    forall i | 0 <= i < |a + b|
      ensures WellFormed((a + b)[i])
    {
      if i >= |a| {
        assert (a + b)[i] == b[i - |a|];
      }
    }
  }

  lemma TypeNamePlain(t: DocType)
    ensures Plain(TypeName(t))
  {
    match t
    case CounterType =>
    case GaugeType =>
    case TimerType =>
    case SummaryType =>
    case LongTaskTimerType =>
  }

  lemma HeaderWellFormed(stamp: string, name: string, typeName: string)
    requires Plain(stamp) && Plain(name) && Plain(typeName)
    ensures AllWellFormed([Member("@timestamp", Str(stamp)), Member("name", Str(name)), Member("type", Str(typeName))])
  {
  }

  /** With a safe name and tags, every member of the document is well formed. */
  lemma DocumentWellFormed(id: MeterId, m: Meter, stamp: string)
    requires SafeId(id) && Defined(m) && Plain(stamp)
    ensures AllWellFormed(Document(id, m, stamp))
  {
    var header := [Member("@timestamp", Str(stamp)),
                   Member("name", Str(id.name)),
                   Member("type", Str(TypeName(TypeOf(m))))];
    TypeNamePlain(TypeOf(m));
    HeaderWellFormed(stamp, id.name, TypeName(TypeOf(m)));
    var tags := TagMembers(id.tags);
    assert AllWellFormed(tags) by {
      forall i | 0 <= i < |tags|
        ensures WellFormed(tags[i])
      {
        assert tags[i] == Member(id.tags[i].key, Str(id.tags[i].value));
      }
    }
    AllWellFormedConcat(header, tags);
    AllWellFormedConcat(header + tags, Fields(m));
    assert Document(id, m, stamp) == header + tags + Fields(m);
  }

  lemma SingleLineConcat(a: string, b: string)
    requires SingleLine(a) && SingleLine(b)
    ensures SingleLine(a + b)
  {
  }

  lemma MemberSingleLine(m: Member)
    requires WellFormed(m)
    ensures SingleLine(RenderMember(m))
  {
    var key := Quote(m.key);
    var value := RenderValue(m.value);
    SingleLineConcat("\"", m.key);
    SingleLineConcat("\"" + m.key, "\"");
    if m.value.Str? {
      SingleLineConcat("\"", m.value.text);
      SingleLineConcat("\"" + m.value.text, "\"");
    }
    SingleLineConcat(key, ":");
    SingleLineConcat(key + ":", value);
  }

  lemma {:induction false} MembersSingleLine(ms: seq<Member>)
    requires AllWellFormed(ms)
    ensures SingleLine(RenderMembers(ms))
  {
    if |ms| == 1 {
      MemberSingleLine(ms[0]);
    } else if |ms| > 1 {
      assert AllWellFormed(ms[1..]) by {
        forall i | 0 <= i < |ms[1..]|
          ensures WellFormed(ms[1..][i])
        {
          assert ms[1..][i] == ms[i + 1];
        }
      }
      MembersSingleLine(ms[1..]);
      MemberSingleLine(ms[0]);
      SingleLineConcat(RenderMember(ms[0]), ",");
      SingleLineConcat(RenderMember(ms[0]) + ",", RenderMembers(ms[1..]));
    }
  }

  /** A document of well-formed members occupies exactly one line. */
  lemma ObjectSingleLine(ms: seq<Member>)
    requires AllWellFormed(ms)
    ensures SingleLine(RenderObject(ms))
  {
    MembersSingleLine(ms);
    SingleLineConcat("{", RenderMembers(ms));
    SingleLineConcat("{" + RenderMembers(ms), "}");
  }

  /** A bulk entry of well-formed members splits back into exactly its
      action line and its document. */
  lemma ParseBulkEntryOf(doc: seq<Member>)
    requires AllWellFormed(doc)
    ensures ParseBulkEntry(BulkEntry(doc)) == Some(doc)
  {
    var prefix := IndexAction + "\n";
    var body := RenderObject(doc);
    var out := BulkEntry(doc);
    assert out == prefix + body + "\n";
    assert out[|prefix|..|out| - 1] == body;
    ObjectSingleLine(doc);
    ParseRenderedObject(doc);
  }

  /** The writer is inverted by the reader: a meter with a safe name and
      tags is read back from its bulk entry, with its identity, instant and
      values, up to the kinds the document does not distinguish. */
  lemma WriteDecode(id: MeterId, m: Meter, ms: nat)
    requires SafeId(id) && Defined(m) && ms < MaxEpochMillis
    ensures Decode(Write(id, m, ms)) == Some((id, ms, Documented(m)))
  {
    TimestampPlain(ms);
    DocumentWellFormed(id, m, FormatTimestamp(ms));
    ParseBulkEntryOf(Document(id, m, FormatTimestamp(ms)));
    DecodeDocumentOf(id, m, ms);
  }

  /** The writer cannot tell a function counter from a counter, nor a time
      gauge from a gauge: both pairs write the same bytes. */
  lemma WriteDocumented(id: MeterId, m: Meter, ms: nat)
    requires ms < MaxEpochMillis
    ensures Write(id, m, ms) == Write(id, Documented(m), ms)
    ensures TypeOf(Documented(m)) == TypeOf(m)
  {
    assert Defined(Documented(m)) == Defined(m);
    if Defined(m) {
      var stamp := FormatTimestamp(ms);
      assert Fields(Documented(m)) == Fields(m);
      assert Document(id, Documented(m), stamp) == Document(id, m, stamp);
    }
  }
}
