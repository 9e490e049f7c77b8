/** The `@timestamp` formatter: an epoch-millisecond instant rendered in
    UTC in the extended format of ISO 8601 (section 5.6 of RFC 3339), with
    a three-digit fraction only when the millisecond part is non-zero. */
module Timestamp {
  import opened Wrappers
  import opened Decimal
  import opened Calendar

  /** 10000-01-01T00:00:00Z: the first instant whose year needs a fifth digit. */
  const MaxEpochMillis := 253402300800000

  /** A UTC date and time of day to the millisecond. */
  datatype Instant = Instant(date: Date, hour: int, minute: int, second: int, milli: int)

  /** A real instant whose year prints in four digits. */
  predicate ValidInstant(t: Instant) {
    && ValidDate(t.date)
    && t.date.year <= 9999
    && 0 <= t.hour < 24
    && 0 <= t.minute < 60
    && 0 <= t.second < 60
    && 0 <= t.milli < 1000
  }

  function ToEpochMillis(t: Instant): nat
    requires ValidInstant(t)
  {
    (((DateToEpochDay(t.date) * 24 + t.hour) * 60 + t.minute) * 60 + t.second) * 1000 + t.milli
  }

  /** The epoch day of 10000-01-01 bounds every four-digit year. */
  lemma YearLimit()
    ensures DaysBeforeYear(10000) * 86400000 == MaxEpochMillis
  {
    DaysBeforeYearClosedForm(10000);
    assert LeapsThrough(9999) == 2424 && LeapsThrough(1969) == 477;
    assert DaysBeforeYear(10000) == 2932897;
  }

  /** The instant `ms` milliseconds after the epoch. */
  function FromEpochMillis(ms: nat): (t: Instant)
    requires ms < MaxEpochMillis
    ensures ValidInstant(t)
    ensures ToEpochMillis(t) == ms
  {
    var secs := ms / 1000;
    var mins := secs / 60;
    var hours := mins / 60;
    var d := EpochDayToDate(hours / 24);
    var t := Instant(d, hours % 24, mins % 60, secs % 60, ms % 1000);
    YearLimit();
    assert hours / 24 < DaysBeforeYear(10000);
    assert d.year <= 9999 by {
      if d.year > 9999 {
        DaysBeforeYearMonotone(10000, d.year);
      }
    }
    t
  }

  /** Every instant with a four-digit year is recovered from its epoch millis. */
  lemma InstantRoundTrip(t: Instant)
    requires ValidInstant(t)
    ensures ToEpochMillis(t) < MaxEpochMillis
    ensures FromEpochMillis(ToEpochMillis(t)) == t
  {
    var days := DateToEpochDay(t.date);
    YearLimit();
    DaysBeforeYearMonotone(t.date.year, 10000);
    DaysBeforeMonthStep(t.date.year, t.date.month);
    assert days < DaysBeforeYear(10000);
    var ms := ToEpochMillis(t);
    ClockSplit(ms, days, t.hour, t.minute, t.second, t.milli);
    DateRoundTrip(t.date);
    assert FromEpochMillis(ms) == Instant(EpochDayToDate(days), t.hour, t.minute, t.second, t.milli);
  }

  /** Dividing a millisecond count down to days gives back the clock
      fields it was built from. */
  lemma ClockSplit(ms: nat, days: nat, hour: nat, minute: nat, second: nat, milli: nat)
    requires hour < 24 && minute < 60 && second < 60 && milli < 1000
    requires ms == (((days * 24 + hour) * 60 + minute) * 60 + second) * 1000 + milli
    ensures ms % 1000 == milli && (ms / 1000) % 60 == second
    ensures (ms / 1000 / 60) % 60 == minute
    ensures ms / 1000 / 60 / 60 / 24 == days && (ms / 1000 / 60 / 60) % 24 == hour
  {
    var hours := days * 24 + hour;
    var mins := hours * 60 + minute;
    var secs := mins * 60 + second;
    assert ms / 1000 == secs && ms % 1000 == milli;
    assert secs / 60 == mins && secs % 60 == second;
    assert mins / 60 == hours && mins % 60 == minute;
  }

  /** Three fixed-width fields with a separator between each: the shape of
      both the date (`YYYY-MM-DD`) and the time of day (`HH:MM:SS`). */
  function Join3(a: string, sep: char, b: string, c: string): string {
    a + [sep] + b + [sep] + c
  }

  /** Reads a `Join3` of a `w`-digit field and two two-digit fields. */
  function Split3(s: string, sep: char, w: nat): Option<(nat, nat, nat)> {
    if |s| == w + 6 && s[w] == sep && s[w + 3] == sep
       && AllDigits(s[..w]) && AllDigits(s[w + 1..w + 3]) && AllDigits(s[w + 4..])
    then Some((Value(s[..w]), Value(s[w + 1..w + 3]), Value(s[w + 4..])))
    else None
  }

  lemma Split3Join3(a: nat, sep: char, b: nat, c: nat, w: nat)
    requires a < Pow10(w) && b < 100 && c < 100
    ensures Split3(Join3(Fixed(a, w), sep, Fixed(b, 2), Fixed(c, 2)), sep, w) == Some((a, b, c))
  {
    Join3Parts(Fixed(a, w), sep, Fixed(b, 2), Fixed(c, 2));
  }

  /** Where the fields and separators of a `Join3` with two-character
      trailing fields sit. */
  lemma Join3Parts(x: string, sep: char, y: string, z: string)
    requires |y| == 2 && |z| == 2
    ensures var s := Join3(x, sep, y, z);
      && |s| == |x| + 6 && s[|x|] == sep && s[|x| + 3] == sep
      && s[..|x|] == x && s[|x| + 1..|x| + 3] == y && s[|x| + 4..] == z
  {
  }

  lemma Join3Split3(s: string, sep: char, w: nat, a: nat, b: nat, c: nat)
    requires Split3(s, sep, w) == Some((a, b, c))
    ensures a < Pow10(w) && b < 100 && c < 100
    ensures Join3(Fixed(a, w), sep, Fixed(b, 2), Fixed(c, 2)) == s
  {
    var x, y, z := s[..w], s[w + 1..w + 3], s[w + 4..];
    FixedOfValue(x);
    FixedOfValue(y);
    FixedOfValue(z);
    Join3Slices(s, sep, w);
  }

  /** A string with separators at the right places is the `Join3` of its fields. */
  lemma Join3Slices(s: string, sep: char, w: nat)
    requires |s| == w + 6 && s[w] == sep && s[w + 3] == sep
    ensures Join3(s[..w], sep, s[w + 1..w + 3], s[w + 4..]) == s
  {
    var j := Join3(s[..w], sep, s[w + 1..w + 3], s[w + 4..]);
    assert |j| == |s|;
    forall i | 0 <= i < |s|
      ensures j[i] == s[i]
    {
    }
  }

  function FormatDate(d: Date): string
    requires ValidDate(d) && d.year <= 9999
  {
    Join3(Fixed(d.year, 4), '-', Fixed(d.month, 2), Fixed(d.day, 2))
  }

  function FormatTime(t: Instant): string
    requires ValidInstant(t)
  {
    Join3(Fixed(t.hour, 2), ':', Fixed(t.minute, 2), Fixed(t.second, 2))
  }

  /** The fraction printed for a millisecond part: nothing when it is zero. */
  function Fraction(milli: int): string
    requires 0 <= milli < 1000
  {
    if milli == 0 then "" else "." + Fixed(milli, 3)
  }

  /** Reads a fraction back; a written-out zero fraction (`.000`) is not
      one the formatter prints, so it is refused. */
  function ParseFraction(f: string): Option<nat> {
    if f == "" then Some(0)
    else if |f| == 4 && f[0] == '.' && AllDigits(f[1..]) && Value(f[1..]) != 0 then Some(Value(f[1..]))
    else None
  }

  lemma ParseFractionRoundTrip(milli: int, f: string)
    requires 0 <= milli < 1000
    ensures ParseFraction(f) == Some(milli) <==> f == Fraction(milli)
  {
    if f == Fraction(milli) && milli != 0 {
      assert f[1..] == Fixed(milli, 3);
    }
    if ParseFraction(f) == Some(milli) && f != "" {
      FixedOfValue(f[1..]);
      assert f == "." + f[1..];
    }
  }

  function FormatInstant(t: Instant): string
    requires ValidInstant(t)
  {
    FormatDate(t.date) + "T" + FormatTime(t) + Fraction(t.milli) + "Z"
  }

  /** The `@timestamp` text of an epoch-millisecond instant. */
  function FormatTimestamp(ms: nat): string
    requires ms < MaxEpochMillis
  {
    FormatInstant(FromEpochMillis(ms))
  }

  /** A timestamp is 20 characters when the millisecond part is zero and
      otherwise 24, with the millisecond part as a zero-padded three-digit
      fraction before the closing `Z`. */
  lemma FormatTimestampShape(ms: nat)
    requires ms < MaxEpochMillis
    ensures var s := FormatTimestamp(ms);
      && |s| == (if ms % 1000 == 0 then 20 else 24)
      && s[|s| - 1] == 'Z'
      && (ms % 1000 != 0 ==> s[19] == '.' && AllDigits(s[20..23]) && Value(s[20..23]) == ms % 1000)
  {
    var t := FromEpochMillis(ms);
    var s := FormatInstant(t);
    FormatInstantPieces(t);
    assert t.milli == ms % 1000;
    if t.milli != 0 {
      var f := s[19..|s| - 1];
      assert f == "." + Fixed(t.milli, 3);
      assert s[20..23] == f[1..];
    }
  }

  /** Reads the fields of a timestamp, refusing impossible dates and times. */
  function ParseInstant(s: string): Option<Instant> {
    if !(|s| == 20 || |s| == 24) || s[10] != 'T' || s[|s| - 1] != 'Z' then None
    else
      match (Split3(s[..10], '-', 4), Split3(s[11..19], ':', 2), ParseFraction(s[19..|s| - 1]))
      case (Some((y, mo, d)), Some((h, mi, sec)), Some(milli)) =>
        var t := Instant(Date(y, mo, d), h, mi, sec, milli);
        if ValidInstant(t) then Some(t) else None
      case _ => None
  }

  /** The epoch millis a timestamp denotes, if it is one the formatter prints. */
  function ParseTimestamp(s: string): Option<nat> {
    match ParseInstant(s)
    case None => None
    case Some(t) => Some(ToEpochMillis(t))
  }

  /** The pieces of a formatted instant sit at fixed offsets. */
  lemma FormatInstantPieces(t: Instant)
    requires ValidInstant(t)
    ensures var s := FormatInstant(t);
      && (|s| == 20 || |s| == 24) && s[10] == 'T' && s[|s| - 1] == 'Z'
      && s[..10] == FormatDate(t.date) && s[11..19] == FormatTime(t)
      && s[19..|s| - 1] == Fraction(t.milli)
  {
    var date, time, fraction := FormatDate(t.date), FormatTime(t), Fraction(t.milli);
    Join3Parts(Fixed(t.date.year, 4), '-', Fixed(t.date.month, 2), Fixed(t.date.day, 2));
    Join3Parts(Fixed(t.hour, 2), ':', Fixed(t.minute, 2), Fixed(t.second, 2));
    InstantLayout(date, time, fraction);
  }

  /** Where the date, the time and the fraction sit in a formatted instant. */
  lemma InstantLayout(date: string, time: string, fraction: string)
    requires |date| == 10 && |time| == 8 && (|fraction| == 0 || |fraction| == 4)
    ensures var s := date + "T" + time + fraction + "Z";
      && (|s| == 20 || |s| == 24) && s[10] == 'T' && s[|s| - 1] == 'Z'
      && s[..10] == date && s[11..19] == time && s[19..|s| - 1] == fraction
  {
  }

  lemma ParseFormatInstant(t: Instant)
    requires ValidInstant(t)
    ensures ParseInstant(FormatInstant(t)) == Some(t)
  {
    FormatInstantPieces(t);
    Split3Join3(t.date.year, '-', t.date.month, t.date.day, 4);
    Split3Join3(t.hour, ':', t.minute, t.second, 2);
    ParseFractionRoundTrip(t.milli, Fraction(t.milli));
  }

  /** Formatting then parsing recovers the instant exactly, to the
      millisecond when the fraction is printed and to the second otherwise. */
  lemma ParseFormat(ms: nat)
    requires ms < MaxEpochMillis
    ensures ParseTimestamp(FormatTimestamp(ms)) == Some(ms)
  {
    ParseFormatInstant(FromEpochMillis(ms));
  }

  /** A timestamp-length string is its date, `T`, time, fraction and last character. */
  lemma TimestampSlices(s: string)
    requires |s| == 20 || |s| == 24
    ensures s == s[..10] + [s[10]] + s[11..19] + s[19..|s| - 1] + [s[|s| - 1]]
  {
    var j := s[..10] + [s[10]] + s[11..19] + s[19..|s| - 1] + [s[|s| - 1]];
    assert |j| == |s|;
    forall i | 0 <= i < |s|
      ensures j[i] == s[i]
    {
    }
  }

  lemma FormatParseInstant(s: string, t: Instant)
    requires ParseInstant(s) == Some(t)
    ensures FormatInstant(t) == s
  {
    ParsedInstantParts(s, t);
    Join3Split3(s[..10], '-', 4, t.date.year, t.date.month, t.date.day);
    Join3Split3(s[11..19], ':', 2, t.hour, t.minute, t.second);
    ParseFractionRoundTrip(t.milli, s[19..|s| - 1]);
    TimestampSlices(s);
  }

  /** What a successful parse says about each piece of the text. */
  lemma ParsedInstantParts(s: string, t: Instant)
    requires ParseInstant(s) == Some(t)
    ensures ValidInstant(t) && (|s| == 20 || |s| == 24) && s[10] == 'T' && s[|s| - 1] == 'Z'
    ensures Split3(s[..10], '-', 4) == Some((t.date.year, t.date.month, t.date.day))
    ensures Split3(s[11..19], ':', 2) == Some((t.hour, t.minute, t.second))
    ensures ParseFraction(s[19..|s| - 1]) == Some(t.milli)
  {
  }

  /** Every text the parser accepts is exactly what the formatter prints
      for the instant it denotes, so the formatter's outputs are precisely
      the parser's inputs. */
  lemma FormatParse(s: string, ms: nat)
    requires ParseTimestamp(s) == Some(ms)
    ensures ms < MaxEpochMillis
    ensures FormatTimestamp(ms) == s
  {
    var t := ParseInstant(s).value;
    InstantRoundTrip(t);
    FormatParseInstant(s, t);
  }
}
