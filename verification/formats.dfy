/** The two text formats of the last-deployed field: the input layout read by
    `datetime.strptime(text, '%Y-%m-%dT%H:%M:%S')` and the output layout written by
    `strftime('%m/%d, %Y,%I:%M:%S %p')` in the C locale. Fields are fixed-width digits. */
module Formats {
  import opened Results
  import opened Values
  import opened Strings
  import opened Calendar

  lemma Pow10Values()
    ensures Pow10(2) == 100 && Pow10(4) == 10000
  {
    assert Pow10(1) == 10;
    assert Pow10(3) == 1000;
  }

  // ---------------------------------------------------------------------------------------
  // Input: YYYY-MM-DDTHH:MM:SS

  /** `text` spells the fields of `t` in the input layout; strptime matches case-insensitively,
      so the date/time separator may be `T` or `t`. */
  ghost predicate IsoShape(text: string, t: DateTime)
    requires t.date.year >= 0 && t.date.month >= 0 && t.date.day >= 0
    requires t.hour >= 0 && t.minute >= 0 && t.second >= 0
  {
    && |text| == 19
    && text[0..4] == Decimal(t.date.year, 4) && text[4] == '-'
    && text[5..7] == Decimal(t.date.month, 2) && text[7] == '-'
    && text[8..10] == Decimal(t.date.day, 2) && (text[10] == 'T' || text[10] == 't')
    && text[11..13] == Decimal(t.hour, 2) && text[13] == ':'
    && text[14..16] == Decimal(t.minute, 2) && text[16] == ':'
    && text[17..19] == Decimal(t.second, 2)
  }

  predicate IsoLayout(text: string) {
    && |text| == 19
    && AllDigits(text[0..4]) && text[4] == '-'
    && AllDigits(text[5..7]) && text[7] == '-'
    && AllDigits(text[8..10]) && (text[10] == 'T' || text[10] == 't')
    && AllDigits(text[11..13]) && text[13] == ':'
    && AllDigits(text[14..16]) && text[16] == ':'
    && AllDigits(text[17..19])
  }

  /** `datetime.strptime(text, '%Y-%m-%dT%H:%M:%S')`, read with two-digit fields only. Among
      two-digit fields the pattern admits month 01-12, day 01-31, hour 00-23, minute 00-59 and
      second 00-61; other two-digit values do not match. Year 0000, a day past the end of its
      month and second 60 or 61 match but are refused by the date and datetime constructors. */
  function ParseIso(text: string): (r: Result<DateTime, Fault>)
    ensures r.Success? ==> InRange(r.value)
    ensures r.Failure? ==> r.error == ValueError(TimeDataMismatch) || r.error == ValueError(FieldOutOfRange)
  {
    if !IsoLayout(text) then Failure(ValueError(TimeDataMismatch))
    else
      var year := DecimalValue(text[0..4]);
      var month := DecimalValue(text[5..7]);
      var day := DecimalValue(text[8..10]);
      var hour := DecimalValue(text[11..13]);
      var minute := DecimalValue(text[14..16]);
      var second := DecimalValue(text[17..19]);
      if !(1 <= month <= 12 && 1 <= day <= 31 && hour <= 23 && minute <= 59 && second <= 61) then
        Failure(ValueError(TimeDataMismatch))
      else if year == 0 || day > DaysInMonth(year, month) || second >= 60 then
        Failure(ValueError(FieldOutOfRange))
      else
        Pow10Values();
        Success(DateTime(Date(year, month, day), hour, minute, second))
  }

  /** What is parsed is what the text spells: each field, written back at its width, is the
      slice it was read from. */
  lemma ParseIsoShape(text: string)
    requires ParseIso(text).Success?
    ensures IsoShape(text, ParseIso(text).value)
  {
    DecimalOfValue(text[0..4]);
    DecimalOfValue(text[5..7]);
    DecimalOfValue(text[8..10]);
    DecimalOfValue(text[11..13]);
    DecimalOfValue(text[14..16]);
    DecimalOfValue(text[17..19]);
  }

  /** The canonical input text of a date-time (`isoformat()` without fractions). */
  function IsoText(t: DateTime): string
    requires InRange(t)
  {
    IsoDate(t.date) + "T" + IsoClock(t)
  }

  /** `%Y-%m-%d`. */
  function IsoDate(d: Date): string
    requires d.year >= 0 && d.month >= 0 && d.day >= 0
  {
    Decimal(d.year, 4) + "-" + Decimal(d.month, 2) + "-" + Decimal(d.day, 2)
  }

  /** `%H:%M:%S`. */
  function IsoClock(t: DateTime): string
    requires t.hour >= 0 && t.minute >= 0 && t.second >= 0
  {
    Decimal(t.hour, 2) + ":" + Decimal(t.minute, 2) + ":" + Decimal(t.second, 2)
  }

  lemma IsoTextShape(t: DateTime)
    requires InRange(t)
    ensures IsoShape(IsoText(t), t)
  {
  }

  /** Every text in the input layout whose fields form a date-time Python accepts is parsed to
      exactly that date-time. */
  lemma ParseIsoAccepts(text: string, t: DateTime)
    requires InRange(t) && IsoShape(text, t)
    ensures ParseIso(text) == Success(t)
  {
    Pow10Values();
    FieldValue(text, 0, 4, t.date.year);
    FieldValue(text, 5, 7, t.date.month);
    FieldValue(text, 8, 10, t.date.day);
    FieldValue(text, 11, 13, t.hour);
    FieldValue(text, 14, 16, t.minute);
    FieldValue(text, 17, 19, t.second);
    assert IsoLayout(text);
  }

  /** Parsing inverts the canonical rendering. */
  lemma ParseIsoRoundTrip(t: DateTime)
    requires InRange(t)
    ensures ParseIso(IsoText(t)) == Success(t)
  {
    IsoTextShape(t);
    ParseIsoAccepts(IsoText(t), t);
  }

  /** A text in the input layout whose date does not exist (say the 30th of February) is
      refused, while its digits stay within the pattern's ranges. */
  lemma ParseIsoRejectsMissingDay(text: string)
    requires IsoLayout(text)
    requires var month := DecimalValue(text[5..7]); var day := DecimalValue(text[8..10]);
      1 <= month <= 12 && day <= 31 && day > DaysInMonth(DecimalValue(text[0..4]), month)
    ensures ParseIso(text).Failure?
  {
  }

  // ---------------------------------------------------------------------------------------
  // Output: MM/DD, YYYY,hh:mm:ss AM

  /** `%I` and `%p` of an hour of the day: (clock hour 1..12, is it PM). */
  function ClockHour(hour: int): (r: (int, bool))
    requires 0 <= hour < 24
    ensures 1 <= r.0 <= 12
    ensures hour == 0 ==> r == (12, false)
    ensures 1 <= hour <= 11 ==> r == (hour, false)
    ensures hour == 12 ==> r == (12, true)
    ensures 13 <= hour ==> r == (hour - 12, true)
    ensures HourOfClock(r.0, r.1) == hour
  {
    (if hour % 12 == 0 then 12 else hour % 12, hour >= 12)
  }

  /** The hour of the day a 12-hour clock reading denotes. */
  function HourOfClock(clock: int, pm: bool): int {
    clock % 12 + (if pm then 12 else 0)
  }

  /** Reading a clock and converting back gives the same reading. */
  lemma ClockOfHourOfClock(clock: int, pm: bool)
    requires 1 <= clock <= 12
    ensures 0 <= HourOfClock(clock, pm) < 24
    ensures ClockHour(HourOfClock(clock, pm)) == (clock, pm)
  {
  }

  function Meridiem(pm: bool): string {
    if pm then "PM" else "AM"
  }

  /** `text` spells `t` in the output layout. */
  ghost predicate DisplayShape(text: string, t: DateTime)
    requires InRange(t)
  {
    var (clock, pm) := ClockHour(t.hour);
    && |text| == 23
    && text[0..2] == Decimal(t.date.month, 2) && text[2] == '/'
    && text[3..5] == Decimal(t.date.day, 2) && text[5..7] == ", "
    && text[7..11] == Decimal(t.date.year, 4) && text[11] == ','
    && text[12..14] == Decimal(clock, 2) && text[14] == ':'
    && text[15..17] == Decimal(t.minute, 2) && text[17] == ':'
    && text[18..20] == Decimal(t.second, 2) && text[20] == ' '
    && text[21..23] == Meridiem(pm)
  }

  /** `t.strftime('%m/%d, %Y,%I:%M:%S %p')`: the date part and the clock part joined by `,`. */
  function DisplayText(t: DateTime): (text: string)
    requires InRange(t)
    ensures DisplayShape(text, t)
  {
    var date := DisplayDate(t.date);
    var clock := DisplayClock(t);
    DisplayPartsShape(t, date, clock);
    date + "," + clock
  }

  /** `%m/%d, %Y`. */
  function DisplayDate(d: Date): string
    requires d.year >= 0 && d.month >= 0 && d.day >= 0
  {
    Decimal(d.month, 2) + "/" + Decimal(d.day, 2) + ", " + Decimal(d.year, 4)
  }

  /** `%I:%M:%S %p`. */
  function DisplayClock(t: DateTime): string
    requires InRange(t)
  {
    var (clock, pm) := ClockHour(t.hour);
    Decimal(clock, 2) + ":" + Decimal(t.minute, 2) + ":" + Decimal(t.second, 2) + " " + Meridiem(pm)
  }

  /** The date part, `,` and the clock part put every field where the layout expects it. */
  lemma DisplayPartsShape(t: DateTime, date: string, clock: string)
    requires InRange(t) && date == DisplayDate(t.date) && clock == DisplayClock(t)
    ensures DisplayShape(date + "," + clock, t)
  {
    var text := date + "," + clock;
    assert text[..11] == date && text[12..] == clock;
    var (hour12, pm) := ClockHour(t.hour);
    assert date[0..2] == Decimal(t.date.month, 2) && date[3..5] == Decimal(t.date.day, 2);
    assert date[7..11] == Decimal(t.date.year, 4);
    assert clock[0..2] == Decimal(hour12, 2) && clock[3..5] == Decimal(t.minute, 2);
    assert clock[6..8] == Decimal(t.second, 2) && clock[9..11] == Meridiem(pm);
    assert text[0..2] == date[0..2] && text[3..5] == date[3..5] && text[7..11] == date[7..11];
    assert text[12..14] == clock[0..2] && text[15..17] == clock[3..5];
    assert text[18..20] == clock[6..8] && text[21..23] == clock[9..11];
  }

  predicate DisplayLayout(text: string) {
    && |text| == 23
    && AllDigits(text[0..2]) && text[2] == '/'
    && AllDigits(text[3..5]) && text[5..7] == ", "
    && AllDigits(text[7..11]) && text[11] == ','
    && AllDigits(text[12..14]) && text[14] == ':'
    && AllDigits(text[15..17]) && text[17] == ':'
    && AllDigits(text[18..20]) && text[20] == ' '
    && (text[21..23] == "AM" || text[21..23] == "PM")
  }

  /** Reads an output text back into the date-time it shows. */
  function ParseDisplay(text: string): (r: Option<DateTime>)
    ensures r.Some? ==> InRange(r.value) && DisplayShape(text, r.value)
  {
    if !DisplayLayout(text) then None
    else
      var month := DecimalValue(text[0..2]);
      var day := DecimalValue(text[3..5]);
      var year := DecimalValue(text[7..11]);
      var clock := DecimalValue(text[12..14]);
      var minute := DecimalValue(text[15..17]);
      var second := DecimalValue(text[18..20]);
      var pm := text[21..23] == "PM";
      var t := DateTime(Date(year, month, day), HourOfClock(clock, pm), minute, second);
      if 1 <= clock <= 12 && InRange(t) then
        ClockOfHourOfClock(clock, pm);
        assert text[21..23] == Meridiem(pm);
        DecimalOfValue(text[0..2]);
        DecimalOfValue(text[3..5]);
        DecimalOfValue(text[7..11]);
        DecimalOfValue(text[12..14]);
        DecimalOfValue(text[15..17]);
        DecimalOfValue(text[18..20]);
        Some(t)
      else None
  }

  /** The output text determines the date-time it was written from. */
  lemma DisplayRoundTrip(t: DateTime)
    requires InRange(t)
    ensures ParseDisplay(DisplayText(t)) == Some(t)
  {
    var text := DisplayText(t);
    var (clock, pm) := ClockHour(t.hour);
    Pow10Values();
    DecimalRoundTrip(t.date.month, 2);
    DecimalRoundTrip(t.date.day, 2);
    DecimalRoundTrip(t.date.year, 4);
    DecimalRoundTrip(clock, 2);
    DecimalRoundTrip(t.minute, 2);
    DecimalRoundTrip(t.second, 2);
  }
}
