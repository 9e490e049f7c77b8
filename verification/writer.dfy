/** The Elasticsearch bulk writer: one meter snapshot becomes either
    nothing or two NDJSON lines, the index action `{ "index" : {} }` and a
    flat JSON document whose members come in a fixed order: `@timestamp`,
    `name`, `type`, the tags in the order the meter's id lists them, then
    the fields of the meter's kind. */
module ElasticWriter {
  import opened Wrappers
  import opened Numbers
  import opened Timestamp
  import opened FlatJson

  /** The bulk API's action line, written before every document. */
  const IndexAction := "{ \"index\" : {} }"

  datatype Tag = Tag(key: string, value: string)

  /** A meter's name and its tags, in the order the writer prints them. */
  datatype MeterId = MeterId(name: string, tags: seq<Tag>)

  /** What the registry hands the writer for one meter, per kind, with the
      step (per-reporting-window) values already resolved. A gauge's value
      is `None` when the object it reads has been garbage collected. */
  datatype Meter =
    | Counter(count: WholeDouble)
    | FunctionCounter(count: WholeDouble)
    | Gauge(value: Option<WholeDouble>)
    | TimeGauge(value: Option<WholeDouble>)
    | Timer(samples: nat, sum: WholeDouble, mean: WholeDouble, max: WholeDouble)
    | DistributionSummary(samples: nat, sum: WholeDouble, mean: WholeDouble, max: WholeDouble)
    | LongTaskTimer(activeTasks: nat, duration: WholeDouble)

  /** Every field the document needs has a value: only gauges can lack one. */
  predicate Defined(m: Meter) {
    match m
    case Gauge(v) => v.Some?
    case TimeGauge(v) => v.Some?
    case _ => true
  }

  /** The types of document; each has its own set of numeric fields. */
  datatype DocType = CounterType | GaugeType | TimerType | SummaryType | LongTaskTimerType

  /** The text of a document's `type` member. */
  function TypeName(t: DocType): string {
    match t
    case CounterType => "counter"
    case GaugeType => "gauge"
    case TimerType => "timer"
    case SummaryType => "distribution_summary"
    case LongTaskTimerType => "long_task_timer"
  }

  /** Counters of both kinds share one document type, and so do gauges of both kinds. */
  function TypeOf(m: Meter): DocType {
    match m
    case Counter(_) => CounterType
    case FunctionCounter(_) => CounterType
    case Gauge(_) => GaugeType
    case TimeGauge(_) => GaugeType
    case Timer(_, _, _, _) => TimerType
    case DistributionSummary(_, _, _, _) => SummaryType
    case LongTaskTimer(_, _) => LongTaskTimerType
  }

  /** The numeric members each type of document carries, in order. */
  function FieldNames(t: DocType): seq<string> {
    match t
    case CounterType => ["count"]
    case GaugeType => ["value"]
    case TimerType => ["count", "sum", "mean", "max"]
    case SummaryType => ["count", "sum", "mean", "max"]
    case LongTaskTimerType => ["activeTasks", "duration"]
  }

  function Keys(ms: seq<Member>): seq<string> {
    seq(|ms|, i requires 0 <= i < |ms| => ms[i].key)
  }

  /** The keys of two member lists joined are their keys joined. */
  lemma KeysAppend(a: seq<Member>, b: seq<Member>)
    ensures Keys(a + b) == Keys(a) + Keys(b)
  {
  }

  function DoubleMember(key: string, x: WholeDouble): (m: Member)
    requires Plain(key)
    ensures WellFormed(m)
  {
    Member(key, Num(RenderDouble(x)))
  }

  function LongMember(key: string, n: nat): (m: Member)
    requires Plain(key)
    ensures WellFormed(m)
  {
    Member(key, Num(RenderLong(n)))
  }

  /** The numeric members of a meter's document: integer-typed counts print
      without a fraction, every double-typed value with one. */
  function Fields(m: Meter): (fs: seq<Member>)
    requires Defined(m)
    ensures AllWellFormed(fs)
    ensures Keys(fs) == FieldNames(TypeOf(m))
  {
    FieldKeysPlain();
    match m
    case Counter(c) => SingleField("count", c)
    case FunctionCounter(c) => SingleField("count", c)
    case Gauge(v) => SingleField("value", v.value)
    case TimeGauge(v) => SingleField("value", v.value)
    case Timer(n, sum, mean, max) => StatisticsFields(n, sum, mean, max)
    case DistributionSummary(n, sum, mean, max) => StatisticsFields(n, sum, mean, max)
    case LongTaskTimer(active, duration) => LongTaskTimerFields(active, duration)
  }

  /** The one field of a counter (`count`) or of a gauge (`value`), double-typed. */
  function SingleField(key: string, x: WholeDouble): (fs: seq<Member>)
    requires Plain(key)
    ensures AllWellFormed(fs)
    ensures Keys(fs) == [key]
  {
    var fs := [DoubleMember(key, x)];
    assert Keys(fs)[0] == key;
    fs
  }

  /** Every field key is plain text. */
  lemma FieldKeysPlain()
    ensures Plain("count") && Plain("value") && Plain("sum") && Plain("mean") && Plain("max")
    ensures Plain("activeTasks") && Plain("duration")
  {
  }

  /** The fields timers and distribution summaries share. */
  function StatisticsFields(count: nat, sum: WholeDouble, mean: WholeDouble, max: WholeDouble): (fs: seq<Member>)
    ensures AllWellFormed(fs)
    ensures Keys(fs) == FieldNames(TimerType) == FieldNames(SummaryType)
  {
    FieldKeysPlain();
    var fs := [LongMember("count", count), DoubleMember("sum", sum), DoubleMember("mean", mean), DoubleMember("max", max)];
    assert Keys(fs) == ["count", "sum", "mean", "max"];
    fs
  }

  function LongTaskTimerFields(activeTasks: nat, duration: WholeDouble): (fs: seq<Member>)
    ensures AllWellFormed(fs)
    ensures Keys(fs) == FieldNames(LongTaskTimerType)
  {
    FieldKeysPlain();
    var fs := [LongMember("activeTasks", activeTasks), DoubleMember("duration", duration)];
    assert Keys(fs)[0] == "activeTasks" && Keys(fs)[1] == "duration";
    fs
  }

  /** Each tag becomes a string member, key and value spliced in as they are. */
  function TagMembers(tags: seq<Tag>): seq<Member> {
    seq(|tags|, i requires 0 <= i < |tags| => Member(tags[i].key, Str(tags[i].value)))
  }

  /** The document of a meter whose fields are all defined, stamped with
      the formatted instant `stamp`. */
  function Document(id: MeterId, m: Meter, stamp: string): (doc: seq<Member>)
    requires Defined(m)
    ensures Keys(doc) == ["@timestamp", "name", "type"] + Keys(TagMembers(id.tags)) + FieldNames(TypeOf(m))
  {
    var header := [Member("@timestamp", Str(stamp)),
                   Member("name", Str(id.name)),
                   Member("type", Str(TypeName(TypeOf(m))))];
    var doc := header + TagMembers(id.tags) + Fields(m);
    KeysAppend(header, TagMembers(id.tags));
    KeysAppend(header + TagMembers(id.tags), Fields(m));
    doc
  }

  /** The two lines of one bulk entry. */
  function BulkEntry(doc: seq<Member>): (out: string)
    ensures |out| > |IndexAction| + 1
    ensures out[..|IndexAction| + 1] == IndexAction + "\n" && out[|out| - 1] == '\n'
  {
    TwoLines(IndexAction, RenderObject(doc));
    IndexAction + "\n" + RenderObject(doc) + "\n"
  }

  lemma TwoLines(a: string, b: string)
    ensures var out := a + "\n" + b + "\n";
      out[..|a| + 1] == a + "\n" && out[|out| - 1] == '\n'
  {
    var out := a + "\n" + b + "\n";
    assert out == (a + "\n") + (b + "\n");
  }

  /** Writes one meter at epoch-millisecond instant `ms`: nothing at all
      when a gauge has no value, otherwise the action line then the document,
      each ending in a newline. */
  function Write(id: MeterId, m: Meter, ms: nat): (out: string)
    requires ms < MaxEpochMillis
    ensures out == "" <==> !Defined(m)
    ensures Defined(m) ==>
              && |out| > |IndexAction| + 1
              && out[..|IndexAction| + 1] == IndexAction + "\n"
              && out[|out| - 1] == '\n'
  {
    if Defined(m) then BulkEntry(Document(id, m, FormatTimestamp(ms))) else ""
  }
}
