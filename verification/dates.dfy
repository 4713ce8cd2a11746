/** Calendar dates as Python's `datetime.date` has them: ISO formatting
    (`date.isoformat`), strict ISO parsing (`date.fromisoformat`) and the
    chronological order used by `>=`; plus the UTC timestamp text of
    `datetime.isoformat()` at second precision. */
module Dates {
  import opened Options
  import opened Numerals

  datatype Date = Date(year: int, month: int, day: int)

  predicate IsLeapYear(y: int) {
    y % 4 == 0 && (y % 100 != 0 || y % 400 == 0)
  }

  function DaysInMonth(y: int, m: int): int {
    if m == 2 then (if IsLeapYear(y) then 29 else 28)
    else if m == 4 || m == 6 || m == 9 || m == 11 then 30
    else 31
  }

  /** The dates Python's `date` constructor accepts (years 1 to 9999). */
  predicate ValidDate(d: Date) {
    1 <= d.year <= 9999 && 1 <= d.month <= 12 && 1 <= d.day <= DaysInMonth(d.year, d.month)
  }

  type CalendarDate = d: Date | ValidDate(d) witness Date(1970, 1, 1)

  /** `a >= b` on dates: chronological, that is lexicographic on
      (year, month, day). */
  predicate OnOrAfter(a: Date, b: Date) {
    a.year > b.year
    || (a.year == b.year && (a.month > b.month || (a.month == b.month && a.day >= b.day)))
  }

  /** `date.isoformat()`: `YYYY-MM-DD`, every field zero-padded. */
  function IsoFormat(d: CalendarDate): (r: string)
    ensures |r| == 10 && r[4] == '-' && r[7] == '-'
    ensures AllDigits(r[..4]) && AllDigits(r[5..7]) && AllDigits(r[8..])
  {
    var r := FixedDigits(d.year, 4) + "-" + FixedDigits(d.month, 2) + "-" + FixedDigits(d.day, 2);
    assert r[..4] == FixedDigits(d.year, 4);
    assert r[5..7] == FixedDigits(d.month, 2);
    assert r[8..] == FixedDigits(d.day, 2);
    r
  }

  /** The three fields of the ISO text read back as the year, the month and
      the day. */
  lemma IsoFormatFields(d: CalendarDate)
    ensures var s := IsoFormat(d);
      DigitsValue(s[..4]) == d.year && DigitsValue(s[5..7]) == d.month && DigitsValue(s[8..]) == d.day
  {
    var s := IsoFormat(d);
    assert s[..4] == FixedDigits(d.year, 4);
    assert s[5..7] == FixedDigits(d.month, 2);
    assert s[8..] == FixedDigits(d.day, 2);
    FixedDigitsValue(d.year, 4);
    FixedDigitsValue(d.month, 2);
    FixedDigitsValue(d.day, 2);
  }

  /** `date.fromisoformat(s)` in its `YYYY-MM-DD` form; `None` stands for the
      `ValueError` it raises on anything else, impossible dates included. */
  function FromIsoFormat(s: string): (r: Option<CalendarDate>)
    ensures r.Some? ==> |s| == 10
  {
    if |s| == 10 && s[4] == '-' && s[7] == '-'
       && AllDigits(s[..4]) && AllDigits(s[5..7]) && AllDigits(s[8..]) then
      var d := Date(DigitsValue(s[..4]), DigitsValue(s[5..7]), DigitsValue(s[8..]));
      if ValidDate(d) then Some(d) else None
    else None
  }

  /** Parsing the ISO text of a date gives the date back. */
  lemma IsoFormatRoundTrip(d: CalendarDate)
    ensures FromIsoFormat(IsoFormat(d)) == Some(d)
  {
    IsoFormatFields(d);
  }

  /** Whatever the parser accepts is exactly the ISO text of what it returns:
      each date has one accepted spelling. */
  lemma FromIsoFormatCanonical(s: string)
    requires FromIsoFormat(s).Some?
    ensures IsoFormat(FromIsoFormat(s).value) == s
  {
    DigitsValueFixed(s[..4]);
    DigitsValueFixed(s[5..7]);
    DigitsValueFixed(s[8..]);
    assert s == s[..4] + "-" + s[5..7] + "-" + s[8..];
  }

  /** Distinct dates have distinct ISO texts. */
  lemma IsoFormatInjective(a: CalendarDate, b: CalendarDate)
    ensures IsoFormat(a) == IsoFormat(b) <==> a == b
  {
    IsoFormatRoundTrip(a);
    IsoFormatRoundTrip(b);
  }

  /** A UTC instant at second precision (`utcnow().replace(microsecond=0)`). */
  datatype Instant = Instant(date: CalendarDate, hour: int, minute: int, second: int)

  predicate ValidInstant(t: Instant) {
    0 <= t.hour < 24 && 0 <= t.minute < 60 && 0 <= t.second < 60
  }

  type UtcInstant = t: Instant | ValidInstant(t) witness Instant(Date(1970, 1, 1), 0, 0, 0)

  /** `t.isoformat() + "Z"`: `YYYY-MM-DDTHH:MM:SSZ`. */
  function TimestampText(t: UtcInstant): (r: string)
    ensures |r| == 20 && r[..10] == IsoFormat(t.date) && r[10] == 'T' && r[19] == 'Z'
    ensures r[13] == ':' && r[16] == ':'
    ensures AllDigits(r[11..13]) && AllDigits(r[14..16]) && AllDigits(r[17..19])
    ensures DigitsValue(r[11..13]) == t.hour && DigitsValue(r[14..16]) == t.minute
    ensures DigitsValue(r[17..19]) == t.second
  {
    var r := IsoFormat(t.date) + "T" + FixedDigits(t.hour, 2) + ":" + FixedDigits(t.minute, 2)
             + ":" + FixedDigits(t.second, 2) + "Z";
    assert r[11..13] == FixedDigits(t.hour, 2);
    assert r[14..16] == FixedDigits(t.minute, 2);
    assert r[17..19] == FixedDigits(t.second, 2);
    FixedDigitsValue(t.hour, 2);
    FixedDigitsValue(t.minute, 2);
    FixedDigitsValue(t.second, 2);
    r
  }
}
