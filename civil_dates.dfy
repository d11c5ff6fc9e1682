/**
 * Calendar dates as the date pickers handle them: the `YYYY-MM-DD` strings of
 * an `<input type="date">`, read with `new Date(...)`, compared as instants,
 * advanced one day at a time and printed back with `toISOString().slice(0, 10)`.
 * Dates stand for midnight of the proleptic Gregorian calendar.
 */
module CivilDates {
  import opened Common
  import opened JsStrings

  datatype Date = Date(year: nat, month: nat, day: nat)

  predicate IsLeapYear(y: nat) {
    y % 4 == 0 && (y % 100 != 0 || y % 400 == 0)
  }

  function DaysInMonth(y: nat, m: nat): (n: nat)
    requires 1 <= m <= 12
    ensures 28 <= n <= 31
  {
    if m == 2 then (if IsLeapYear(y) then 29 else 28)
    else if m == 4 || m == 6 || m == 9 || m == 11 then 30
    else 31
  }

  predicate Valid(d: Date) {
    1 <= d.month <= 12 && 1 <= d.day <= DaysInMonth(d.year, d.month)
  }

  /** A number that orders dates as their instants are ordered (what `<=` and `-` on `Date` objects compare). */
  function Ordinal(d: Date): nat {
    d.year * 416 + d.month * 32 + d.day
  }

  /** Distinct valid dates have distinct ordinals. */
  lemma OrdinalInjective(a: Date, b: Date)
    requires Valid(a) && Valid(b) && Ordinal(a) == Ordinal(b)
    ensures a == b
  {
    WithinYear(a);
    WithinYear(b);
    assert a.year == b.year;
    assert a.month * 32 + a.day == b.month * 32 + b.day;
  }

  /** The month and day of a valid date take less room than one year of ordinals, and the day less than one month. */
  lemma WithinYear(d: Date)
    requires Valid(d)
    ensures 33 <= d.month * 32 + d.day < 416
    ensures 1 <= d.day < 32
  {
  }

  /** A date not after another is not in a later year. */
  lemma YearOrder(a: Date, b: Date)
    requires Valid(a) && Valid(b) && Ordinal(a) <= Ordinal(b)
    ensures a.year <= b.year
  {
  }

  /** `d.setDate(d.getDate() + 1)`: the following calendar day. */
  function NextDay(d: Date): (r: Date)
    requires Valid(d)
    ensures Valid(r) && Ordinal(r) > Ordinal(d)
  {
    if d.day < DaysInMonth(d.year, d.month) then Date(d.year, d.month, d.day + 1)
    else if d.month < 12 then Date(d.year, d.month + 1, 1)
    else Date(d.year + 1, 1, 1)
  }

  /** No valid date lies strictly between a date and the next day. */
  lemma NoDateBetween(d: Date, x: Date)
    requires Valid(d) && Valid(x) && Ordinal(d) < Ordinal(x)
    ensures Ordinal(NextDay(d)) <= Ordinal(x)
  {
    if x.year > d.year {
      assert Ordinal(x) >= (d.year + 1) * 416 + 33;
    } else if x.year == d.year && x.month > d.month {
      assert Ordinal(x) >= d.year * 416 + (d.month + 1) * 32 + 1;
    } else {
      assert x.year == d.year && x.month == d.month;
    }
  }

  function Pad4(n: nat): (r: string)
    requires n < 10000
    ensures |r| == 4 && AllDigits(r) && DigitsValue(r) == n
  {
    var hi := Pad2(n / 100);
    var lo := Pad2(n % 100);
    DigitsValueTwoMore(hi, lo);
    hi + lo
  }

  /** Appending two digits shifts the value read so far by two places. */
  lemma DigitsValueTwoMore(a: string, b: string)
    requires AllDigits(a) && AllDigits(b) && |b| == 2
    ensures AllDigits(a + b) && DigitsValue(a + b) == DigitsValue(a) * 100 + DigitsValue(b)
  {
    var ab := a + b;
    var a1 := a + b[..1];
    var d0 := b[0] as int - '0' as int;
    var d1 := b[1] as int - '0' as int;
    assert ab[..|ab| - 1] == a1 && ab[|ab| - 1] == b[1];
    assert a1[..|a1| - 1] == a && a1[|a1| - 1] == b[0];
    assert DigitsValue(a1) == DigitsValue(a) * 10 + d0;
    assert DigitsValue(ab) == DigitsValue(a1) * 10 + d1;
    assert b[..1][..0] == [];
    assert DigitsValue(b[..1]) == d0;
    assert DigitsValue(b) == d0 * 10 + d1;
  }

  /** `toISOString().slice(0, 10)` of the midnight that starts the date. */
  function Format(d: Date): (s: string)
    requires Valid(d) && d.year < 10000
    ensures |s| == 10
  {
    Pad4(d.year) + "-" + Pad2(d.month) + "-" + Pad2(d.day)
  }

  /** The shape `/^\d{4}-\d{2}-\d{2}$/`. */
  predicate HasDateShape(s: string) {
    |s| == 10 && s[4] == '-' && s[7] == '-'
    && AllDigits(s[..4]) && AllDigits(s[5..7]) && AllDigits(s[8..])
  }

  /** `new Date(s)` for a date-only string: the date, or `None` for an Invalid Date. */
  function Parse(s: string): (r: Option<Date>)
    ensures r.Some? ==> Valid(r.value) && r.value.year < 10000 && HasDateShape(s)
  {
    if !HasDateShape(s) then None
    else
      var d := Date(DigitsValue(s[..4]), DigitsValue(s[5..7]), DigitsValue(s[8..]));
      DigitsBound(s[..4]);
      if Valid(d) then Some(d) else None
  }

  lemma {:induction false} DigitsBound(s: string)
    requires AllDigits(s)
    ensures DigitsValue(s) < Power10(|s|)
    decreases |s|
  {
    if s != [] {
      DigitsBound(s[..|s| - 1]);
    }
  }

  function Power10(n: nat): (p: nat)
    ensures p >= 1
  {
    if n == 0 then 1 else 10 * Power10(n - 1)
  }

  /** Reading back a printed date gives the date. */
  lemma ParseFormat(d: Date)
    requires Valid(d) && d.year < 10000
    ensures Parse(Format(d)) == Some(d)
  {
    var s := Format(d);
    assert s[..4] == Pad4(d.year);
    assert s[5..7] == Pad2(d.month);
    assert s[8..] == Pad2(d.day);
  }

  /** Distinct dates print differently. */
  lemma FormatInjective(a: Date, b: Date)
    requires Valid(a) && a.year < 10000 && Valid(b) && b.year < 10000
    requires Format(a) == Format(b)
    ensures a == b
  {
    ParseFormat(a);
    ParseFormat(b);
  }

  /** `getDate().toString()`: the day of the month without padding. */
  function DayOfMonthString(d: Date): string {
    NatToString(d.day)
  }

  /** The time of day of an ISO 8601 UTC timestamp. */
  datatype Time = Time(hour: nat, minute: nat, second: nat, milli: nat)

  predicate ValidTime(t: Time) {
    t.hour < 24 && t.minute < 60 && t.second < 60 && t.milli < 1000
  }

  const Midnight := Time(0, 0, 0, 0)

  /** A date with a time of day, in UTC: what `new Date(s)` holds for a date-only or a `Z` string. */
  datatype Stamp = Stamp(date: Date, time: Time)

  const MsPerDay: nat := 86400000

  /** Milliseconds since the start of the day. */
  function TimeMs(t: Time): nat {
    ((t.hour * 60 + t.minute) * 60 + t.second) * 1000 + t.milli
  }

  /** A valid time falls inside its day. */
  lemma TimeWithinDay(t: Time)
    requires ValidTime(t)
    ensures TimeMs(t) < MsPerDay
  {
    var hm := t.hour * 60 + t.minute;
    assert hm <= 1439;
    var hms := hm * 60 + t.second;
    assert hms <= 86399;
    assert hms * 1000 <= 86399000;
  }

  /**
   * A number ordered as the instants of stamps are (what `new Date(a) - new Date(b)`
   * compares): whole days by their ordinal, then the milliseconds into the day.
   */
  function Instant(st: Stamp): int {
    Ordinal(st.date) * MsPerDay + TimeMs(st.time)
  }

  /** Stamps are ordered by their date first, and by their time within one date. */
  lemma InstantOrder(a: Stamp, b: Stamp)
    requires ValidTime(a.time) && ValidTime(b.time)
    ensures Instant(a) <= Instant(b) <==>
              Ordinal(a.date) < Ordinal(b.date)
              || (Ordinal(a.date) == Ordinal(b.date) && TimeMs(a.time) <= TimeMs(b.time))
  {
    TimeWithinDay(a.time);
    TimeWithinDay(b.time);
    var oa, ob := Ordinal(a.date), Ordinal(b.date);
    if oa < ob {
      assert ob * MsPerDay - oa * MsPerDay == (ob - oa) * MsPerDay >= MsPerDay;
    } else if ob < oa {
      assert oa * MsPerDay - ob * MsPerDay == (oa - ob) * MsPerDay >= MsPerDay;
    }
  }

  /** The time part after a date: `THH:mm`, `THH:mm:ss` or `THH:mm:ss.sss`, then `Z`. */
  function ParseTime(t: string): (r: Option<Time>)
    ensures r.Some? ==> ValidTime(r.value)
  {
    if |t| < 7 || t[0] != 'T' || t[3] != ':' || !AllDigits(t[1..3]) || !AllDigits(t[4..6]) then None
    else
      var rest := t[6..];
      var secMs: Option<(nat, nat)> :=
        if rest == "Z" then Some((0, 0))
        else if |rest| == 4 && rest[0] == ':' && AllDigits(rest[1..3]) && rest[3] == 'Z' then
          Some((DigitsValue(rest[1..3]), 0))
        else if |rest| == 8 && rest[0] == ':' && AllDigits(rest[1..3]) && rest[3] == '.'
                && AllDigits(rest[4..7]) && rest[7] == 'Z' then
          Some((DigitsValue(rest[1..3]), DigitsValue(rest[4..7])))
        else None;
      if secMs.None? then None
      else
        var tm := Time(DigitsValue(t[1..3]), DigitsValue(t[4..6]), secMs.value.0, secMs.value.1);
        if ValidTime(tm) then Some(tm) else None
  }

  /**
   * `new Date(s)` for a date-only string (midnight UTC) or a date followed by a
   * UTC time: the stamp, or `None` for an Invalid Date.
   */
  function ParseStamp(s: string): (r: Option<Stamp>)
    ensures r.Some? ==> |s| >= 10 && Parse(s[..10]) == Some(r.value.date)
    ensures r.Some? ==> Valid(r.value.date) && r.value.date.year < 10000 && ValidTime(r.value.time)
  {
    if |s| < 10 then None
    else
      var d := Parse(s[..10]);
      if d.None? then None
      else if |s| == 10 then Some(Stamp(d.value, Midnight))
      else
        var tm := ParseTime(s[10..]);
        if tm.None? then None else Some(Stamp(d.value, tm.value))
  }

  /** A date-only string is read as the midnight that starts its date. */
  lemma ParseStampOfDate(s: string)
    requires Parse(s).Some?
    ensures ParseStamp(s) == Some(Stamp(Parse(s).value, Midnight))
  {
    assert s[..10] == s;
  }

  /** Three digits, zero-padded. */
  function Pad3(n: nat): (r: string)
    requires n < 1000
    ensures |r| == 3 && AllDigits(r) && DigitsValue(r) == n
  {
    var hi := [DigitChar(n / 100)];
    assert hi[..0] == [];
    DigitsValueTwoMore(hi, Pad2(n % 100));
    hi + Pad2(n % 100)
  }

  /** The time part of `toISOString()`: `THH:mm:ss.sssZ`. */
  function TimeText(t: Time): (s: string)
    requires ValidTime(t)
    ensures |s| == 14
  {
    "T" + Pad2(t.hour) + ":" + Pad2(t.minute) + ":" + Pad2(t.second) + "." + Pad3(t.milli) + "Z"
  }

  /** Reading back a printed time of day gives the time. */
  lemma ParseTimeText(t: Time)
    requires ValidTime(t)
    ensures ParseTime(TimeText(t)) == Some(t)
  {
    var s := TimeText(t);
    var rest := s[6..];
    assert s[1..3] == Pad2(t.hour);
    assert s[4..6] == Pad2(t.minute);
    assert rest == ":" + Pad2(t.second) + "." + Pad3(t.milli) + "Z";
    assert rest[1..3] == Pad2(t.second);
    assert rest[4..7] == Pad3(t.milli);
  }

  /** `toISOString()`: `YYYY-MM-DDTHH:mm:ss.sssZ`. */
  function FormatStamp(st: Stamp): (s: string)
    requires Valid(st.date) && st.date.year < 10000 && ValidTime(st.time)
    ensures |s| == 24 && s[..10] == Format(st.date)
  {
    Format(st.date) + TimeText(st.time)
  }

  /** Reading back a printed timestamp gives the stamp: rows the server sends as ISO timestamps are read. */
  lemma ParseFormatStamp(st: Stamp)
    requires Valid(st.date) && st.date.year < 10000 && ValidTime(st.time)
    ensures ParseStamp(FormatStamp(st)) == Some(st)
  {
    var s := FormatStamp(st);
    ParseFormat(st.date);
    assert s[10..] == TimeText(st.time);
    ParseTimeText(st.time);
  }
}
