# Elasticsearch bulk writer of micrometer-registry-elastic, in Dafny

This project models how the Elastic registry of Micrometer turns one meter
snapshot into text for the Elasticsearch bulk API. Its behaviour is taken
from the assertions of the registry's test suite. There are two pieces.

- **The `@timestamp` formatter** (`ElasticMeterRegistry.FORMATTER`).
  - Input: an epoch-millisecond instant.
  - Output: UTC text `YYYY-MM-DDTHH:MM:SS`, then `.mmm` only when the millisecond part is non-zero, then `Z`.
  - This is the extended format of ISO 8601, as in section 5.6 of RFC 3339.
  - Modules: `Calendar` converts epoch days to proleptic Gregorian dates; `Decimal` handles zero-padded digits; `Timestamp` does the formatting.
- **The per-kind document writer** (`writeCounter`, `writeGauge`, `writeTimer`, `writeSummary` and `writeLongTaskTimer`).
  - Output: nothing when a gauge has lost its value. Otherwise two lines: the action line `{ "index" : {} }`, then a flat JSON document.
  - Document member order: `@timestamp`, `name`, `type`, the tags in the order the meter's id lists them, then the numeric fields of the meter's kind.
  - Type names: counters and function counters are typed `counter`; gauges and time gauges are typed `gauge`.
  - Number printing (`Numbers`): integer-typed fields print without a fraction; double-typed fields always print one (`0.0`, `123.0`).
  - Escaping: tag keys, tag values and the name are spliced in without escaping.
  - Modules: `ElasticWriter` is the writer; `FlatJson` renders and reads the flat objects.

Each operation has a partner that reads its output back:

- `Timestamp.ParseTimestamp` for the formatter;
- `Numbers.ParseLong` and `Numbers.ParseDouble` for the numbers;
- `FlatJson.ParseObject` for the objects;
- `BulkReader.Decode` for a whole bulk entry.

The round-trip lemmas connect each operation to its partner for all inputs; for objects and whole entries, for all names and tags that need no JSON escaping (see `## Left out`).

`WriterExamples` first proves the general textual layout of a written entry (`WriteLayout`). From that layout it reproduces every expected string of the tests.

Files:

| file | module |
|---|---|
| `wrappers.dfy` | `Option` |
| `decimal.dfy` | digit strings |
| `calendar.dfy` | epoch days and civil dates |
| `timestamp.dfy` | the formatter and its parser |
| `numbers.dfy` | numeric fields |
| `json.dfy` | flat JSON objects |
| `writer.dfy` | the writer |
| `reader.dfy` | the reader and the write/read round trip |
| `examples.dfy` | the layout lemma and the test expectations |

## Model

All source paths below are `implementations/micrometer-registry-elastic/src/test/java/io/micrometer/elastic/ElasticMeterRegistryTest.java`.

| member | source | states |
|---|---|---|
| Calendar.EpochDayToDate | implementations/micrometer-registry-elastic/src/test/java/io/micrometer/elastic/ElasticMeterRegistryTest.java:55 | the civil date of an epoch day is a valid date whose epoch day is the input |
| Calendar.DateRoundTrip | implementations/micrometer-registry-elastic/src/test/java/io/micrometer/elastic/ElasticMeterRegistryTest.java:55 | every valid date from 1970 on is recovered from its epoch day, so days and dates correspond one to one |
| Timestamp.FromEpochMillis | implementations/micrometer-registry-elastic/src/test/java/io/micrometer/elastic/ElasticMeterRegistryTest.java:55 | the UTC instant of an epoch-millisecond count has a four-digit year and in-range fields, and converts back to the same count |
| Timestamp.InstantRoundTrip | implementations/micrometer-registry-elastic/src/test/java/io/micrometer/elastic/ElasticMeterRegistryTest.java:55 | every instant with a four-digit year is recovered from its epoch millis |
| Timestamp.FormatTimestampShape | implementations/micrometer-registry-elastic/src/test/java/io/micrometer/elastic/ElasticMeterRegistryTest.java:53-56 | a timestamp is 20 characters ending in `Z` when the millisecond part is zero; otherwise it is 24, with `.` at offset 19 and three digits whose value is the millisecond part |
| Timestamp.ParseFractionRoundTrip | implementations/micrometer-registry-elastic/src/test/java/io/micrometer/elastic/ElasticMeterRegistryTest.java:53-56 | a fraction text reads back as a millisecond part exactly when it is the text printed for it: empty for zero, `.` and three zero-padded digits otherwise |
| Timestamp.ParseFormat | implementations/micrometer-registry-elastic/src/test/java/io/micrometer/elastic/ElasticMeterRegistryTest.java:53-56 | reading a formatted timestamp gives back exactly the epoch millis it was printed from, so no two instants print alike |
| Timestamp.FormatParse | implementations/micrometer-registry-elastic/src/test/java/io/micrometer/elastic/ElasticMeterRegistryTest.java:53-56 | every text that reads as a timestamp is exactly what the formatter prints for the instant it denotes |
| WriterExamples.FormatOneMilli | implementations/micrometer-registry-elastic/src/test/java/io/micrometer/elastic/ElasticMeterRegistryTest.java:53-56 | epoch millis 1 print as `1970-01-01T00:00:00.001Z` |
| WriterExamples.FormatEpoch | implementations/micrometer-registry-elastic/src/test/java/io/micrometer/elastic/ElasticMeterRegistryTest.java:62 | epoch millis 0 print as `1970-01-01T00:00:00Z`, with no fraction |
| Numbers.RenderLong | implementations/micrometer-registry-elastic/src/test/java/io/micrometer/elastic/ElasticMeterRegistryTest.java:99-105 | an integer-typed field prints as a canonical digit string whose value is the field |
| Numbers.ParseLongRoundTrip | implementations/micrometer-registry-elastic/src/test/java/io/micrometer/elastic/ElasticMeterRegistryTest.java:99-105 | a text reads back as a count exactly when it is the text printed for that count |
| Numbers.RenderDouble | implementations/micrometer-registry-elastic/src/test/java/io/micrometer/elastic/ElasticMeterRegistryTest.java:151-160 | a double-typed field holding a whole number always ends in `.0`; it starts with `-` exactly when negative, and contains only digits, sign and point |
| Numbers.ParseDoubleRoundTrip | implementations/micrometer-registry-elastic/src/test/java/io/micrometer/elastic/ElasticMeterRegistryTest.java:151-160 | a text reads back as a whole double exactly when it is the text printed for it |
| FlatJson.ParseRenderedObject | implementations/micrometer-registry-elastic/src/test/java/io/micrometer/elastic/ElasticMeterRegistryTest.java:62 | a flat object of members needing no escaping reads back as the same members in the same order |
| ElasticWriter.Fields | implementations/micrometer-registry-elastic/src/test/java/io/micrometer/elastic/ElasticMeterRegistryTest.java:58-115 | the numeric members of each kind, in order: `count`; `value`; `count`, `sum`, `mean`, `max`; or `activeTasks`, `duration`. All are well formed |
| ElasticWriter.Document | implementations/micrometer-registry-elastic/src/test/java/io/micrometer/elastic/ElasticMeterRegistryTest.java:124-131 | the document's keys are `@timestamp`, `name`, `type`, then the keys of the tag members in the order the id lists the tags, then the field names of the meter's type |
| ElasticWriter.BulkEntry | implementations/micrometer-registry-elastic/src/test/java/io/micrometer/elastic/ElasticMeterRegistryTest.java:62 | an entry starts with the action line and its newline, and ends with a newline |
| ElasticWriter.Write | implementations/micrometer-registry-elastic/src/test/java/io/micrometer/elastic/ElasticMeterRegistryTest.java:133-149 | the output is empty exactly when a gauge has no value; otherwise it starts with the action line and ends with a newline |
| BulkReader.ParseTypeNameOf | implementations/micrometer-registry-elastic/src/test/java/io/micrometer/elastic/ElasticMeterRegistryTest.java:66-115 | a `type` text names a document type exactly when it is that type's name, so the five names are distinct |
| BulkReader.DecodeFieldsOf | implementations/micrometer-registry-elastic/src/test/java/io/micrometer/elastic/ElasticMeterRegistryTest.java:58-115 | the numeric members of a document give back every value they were printed from |
| BulkReader.DecodeTagsOf | implementations/micrometer-registry-elastic/src/test/java/io/micrometer/elastic/ElasticMeterRegistryTest.java:124-131 | the tag members give back the tags, in order |
| BulkReader.DecodeDocumentOf | implementations/micrometer-registry-elastic/src/test/java/io/micrometer/elastic/ElasticMeterRegistryTest.java:58-131 | a document gives back the meter's name, tags, instant and values; a function counter reads as a counter and a time gauge as a gauge |
| BulkReader.ParseBulkEntryOf | implementations/micrometer-registry-elastic/src/test/java/io/micrometer/elastic/ElasticMeterRegistryTest.java:62 | an entry of well-formed members (keys and strings free of quotation marks, reverse solidi and control characters; numbers made of number characters) is exactly the action line and one more line holding the whole document, and nothing else |
| BulkReader.WriteDecode | implementations/micrometer-registry-elastic/src/test/java/io/micrometer/elastic/ElasticMeterRegistryTest.java:58-131 | whatever is written for a defined meter with an escape-free name and tags reads back as that meter, its identity and its instant |
| BulkReader.WriteDocumented | implementations/micrometer-registry-elastic/src/test/java/io/micrometer/elastic/ElasticMeterRegistryTest.java:75-97 | a function counter writes the same bytes as a counter with its count, and a time gauge the same as a gauge with its value |
| WriterExamples.TagsText | implementations/micrometer-registry-elastic/src/test/java/io/micrometer/elastic/ElasticMeterRegistryTest.java:124-131 | the tags render as `,"k":"v"` per tag, in order, with no escaping |
| WriterExamples.FieldsText | implementations/micrometer-registry-elastic/src/test/java/io/micrometer/elastic/ElasticMeterRegistryTest.java:58-115 | each kind's fields render as `,"key":number` in the kind's order, integer-typed ones without a fraction |
| WriterExamples.WriteLayout | implementations/micrometer-registry-elastic/src/test/java/io/micrometer/elastic/ElasticMeterRegistryTest.java:58-131 | a written entry is the action line, then `{"@timestamp":"…","name":"…","type":"…"`, the tag members, the field members and `}` with a newline |
| WriterExamples.WriteTimerExample | implementations/micrometer-registry-elastic/src/test/java/io/micrometer/elastic/ElasticMeterRegistryTest.java:58-64 | an empty timer `myTimer` writes exactly the expected entry (`count:0`, then `0.0` for sum, mean and max); the same text is expected at lines 117-122 |
| WriterExamples.WriteCounterExample | implementations/micrometer-registry-elastic/src/test/java/io/micrometer/elastic/ElasticMeterRegistryTest.java:66-73 | counter `myCounter` with step count 0 writes exactly the expected entry, with `count:0.0` |
| WriterExamples.WriteFunctionCounterExample | implementations/micrometer-registry-elastic/src/test/java/io/micrometer/elastic/ElasticMeterRegistryTest.java:75-81 | a function counter writes a document typed `counter`, exactly the expected entry |
| WriterExamples.WriteGaugeExample | implementations/micrometer-registry-elastic/src/test/java/io/micrometer/elastic/ElasticMeterRegistryTest.java:83-89 | gauge `myGauge` holding 123 writes exactly the expected entry, with `value:123.0` |
| WriterExamples.WriteTimeGaugeExample | implementations/micrometer-registry-elastic/src/test/java/io/micrometer/elastic/ElasticMeterRegistryTest.java:91-97 | a time gauge holding 123 writes a document typed `gauge`, exactly the expected entry |
| WriterExamples.WriteLongTaskTimerExample | implementations/micrometer-registry-elastic/src/test/java/io/micrometer/elastic/ElasticMeterRegistryTest.java:99-105 | an idle long task timer writes exactly the expected entry, with `activeTasks:0` and `duration:0.0` |
| WriterExamples.WriteSummaryExample | implementations/micrometer-registry-elastic/src/test/java/io/micrometer/elastic/ElasticMeterRegistryTest.java:107-115 | a summary whose step count is 0 and whose max is 456 writes exactly the expected entry; max is printed as given, independent of count and sum |
| WriterExamples.WriteTaggedExample | implementations/micrometer-registry-elastic/src/test/java/io/micrometer/elastic/ElasticMeterRegistryTest.java:124-131 | tags `foo=bar` and `spam=eggs` come after `type` and before `count`, in the order the id lists them |
| WriterExamples.NullGaugeExample | implementations/micrometer-registry-elastic/src/test/java/io/micrometer/elastic/ElasticMeterRegistryTest.java:133-149 | a gauge or time gauge with no value writes zero characters |
| WriterExamples.WriteWholeCountExample | implementations/micrometer-registry-elastic/src/test/java/io/micrometer/elastic/ElasticMeterRegistryTest.java:151-160 | a counter's whole count prints with a decimal, `count:0.0` |

## Left out

- The JSON-escaping naming convention of the New Relic registry (`NewRelicNamingConvention.java`) is left out. It only calls an escaper and a camel-case convention, and neither is part of this model. The Elastic writer itself escapes nothing, and that is what is modelled.
- Step (per-window) metering is left out. A counter incremented at clock 0 still reports `count:0.0`, because of the registry's step windows and the mock clock, neither of which is part of this model. The writer takes the resolved step values as inputs, and the example lemmas supply the values the tests expect.
- General `Double.toString` is left out. Double-typed fields are whole numbers of magnitude below 10^7, which print as `<digits>.0`; these cover every value the tests print. Fractional values, and the scientific notation Java uses from 10^7 on, are not modelled.
- Epoch millis before 1970 and years of five or more digits are left out. The formatter takes a natural number below `253402300800000` (10000-01-01T00:00:00Z), so the year always has four digits.
- The registry's tag ordering and its naming convention are left out. They produce the meter id that reaches the writer, which prints the tags in the order the id lists them; how the registry sorts or renames tags before that is not part of this model.
- The output stream, `IOException`, the HTTP publish, `ElasticConfig` and meter registration are left out. The output is modelled as a returned string.
- WriterExamples.WriteTimerExample and the other `Write…Example` lemmas are stated for every instant that prints as `1970-01-01T00:00:00Z`. They are not stated for the literal 0 alone; `FormatEpoch` shows that 0 is such an instant.
- BulkReader.WriteDecode holds only for names and tags without quotation marks, reverse solidi or control characters. The writer splices them in unescaped, so other text need not read back; this limits the reader, not the writer.
- BulkReader.ParseBulkEntryOf and FlatJson.ParseRenderedObject hold only for well-formed members. A key or string with a quotation mark, reverse solidus or control character is printed raw, so it may not read back, and a line feed in a tag would split the entry into more than two lines.
