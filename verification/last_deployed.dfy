/** `_make_last_deployed`: the `updateTime` of a function (UTC, with a fractional part) shown
    as local time of the fixed UTC+9 display zone, `MM/DD, YYYY,hh:mm:ss AM|PM`. */
module LastDeployed {
  import opened Results
  import opened Values
  import opened Strings
  import opened Calendar
  import opened Formats

  /** Split on `.` into exactly two pieces, discard the second unread, parse the first, add
      nine hours and format. */
  function MakeLastDeployed(updateTime: string): (r: Result<string, Fault>)
    ensures r.Success? ==> multiset(updateTime)['.'] == 1
  {
    SplitCharCount(updateTime, '.');
    var pieces := Split(updateTime, ".");
    if |pieces| != 2 then Failure(ValueError(UnpackMismatch(2, |pieces|)))
    else ShownLocalTime(pieces[0])
  }

  /** The part after the split: parse the whole seconds, add nine hours, format. */
  function ShownLocalTime(whole: string): (r: Result<string, Fault>)
    ensures ParseIso(whole).Failure? ==> r == Failure(ParseIso(whole).error)
    ensures ParseIso(whole).Success? ==>
      var t := ParseIso(whole).value;
      && (r.Failure? <==> t.date == Date(MaxYear, 12, 31) && t.hour >= 24 - DisplayOffsetHours)
      && (r.Failure? ==> r.error == OverflowError)
      && (r.Success? ==>
            var shown := ParseDisplay(r.value);
            && shown.Some?
            && Seconds(shown.value) == Seconds(t) + DisplayOffsetHours * 3600
            && shown.value.minute == t.minute && shown.value.second == t.second)
  {
    var parsed :- ParseIso(whole);
    var shifted :- ShiftToDisplayZone(parsed);
    DisplayRoundTrip(shifted);
    Success(DisplayText(shifted))
  }

  /** Without exactly one `.` the unpacking of the split raises ValueError. */
  lemma LastDeployedNeedsOneDot(updateTime: string)
    requires multiset(updateTime)['.'] != 1
    ensures MakeLastDeployed(updateTime) == Failure(ValueError(UnpackMismatch(2, multiset(updateTime)['.'] + 1)))
  {
    SplitCharCount(updateTime, '.');
  }

  /** In particular a text without any fractional part fails. */
  lemma LastDeployedWithoutDot(updateTime: string)
    requires '.' !in updateTime
    ensures MakeLastDeployed(updateTime) == Failure(ValueError(UnpackMismatch(2, 1)))
  {
    assert multiset(updateTime)['.'] == 0;
    LastDeployedNeedsOneDot(updateTime);
  }

  /** The text after the dot is never looked at. */
  lemma LastDeployedIgnoresFraction(whole: string, fraction1: string, fraction2: string)
    requires '.' !in whole && '.' !in fraction1 && '.' !in fraction2
    ensures MakeLastDeployed(whole + "." + fraction1) == MakeLastDeployed(whole + "." + fraction2)
  {
    SplitCharTwo(whole, fraction1, '.');
    SplitCharTwo(whole, fraction2, '.');
  }

  /** With one dot, the result is decided by the text before it: a parse failure is passed on;
      otherwise the output shows the parsed instant plus nine hours, with minutes and seconds
      unchanged, unless that instant lies past datetime.MAXYEAR. */
  lemma LastDeployedShowsShiftedInstant(whole: string, fraction: string)
    requires '.' !in whole && '.' !in fraction
    ensures ParseIso(whole).Failure? ==> MakeLastDeployed(whole + "." + fraction) == Failure(ParseIso(whole).error)
    ensures ParseIso(whole).Success? ==>
      var t := ParseIso(whole).value;
      var r := MakeLastDeployed(whole + "." + fraction);
      && (r.Failure? <==> t.date == Date(MaxYear, 12, 31) && t.hour >= 15)
      && (r.Failure? ==> r.error == OverflowError)
      && (r.Success? ==>
            var shown := ParseDisplay(r.value);
            && shown.Some?
            && Seconds(shown.value) == Seconds(t) + 9 * 3600
            && shown.value.minute == t.minute && shown.value.second == t.second)
  {
    SplitCharTwo(whole, fraction, '.');
    assert whole + "." + fraction == whole + ['.'] + fraction;
  }

  /** The formatter on a text whose parts are already known. */
  lemma LastDeployedOfParts(whole: string, fraction: string, t: DateTime, shifted: DateTime)
    requires '.' !in whole && '.' !in fraction
    requires ParseIso(whole) == Success(t)
    requires ShiftToDisplayZone(t) == Success(shifted)
    ensures MakeLastDeployed(whole + "." + fraction) == Success(DisplayText(shifted))
  {
    SplitCharTwo(whole, fraction, '.');
    assert whole + "." + fraction == whole + ['.'] + fraction;
  }

  // A worked instance: 2023-05-01T10:00:00.123456 is shown as
  // 05/01, 2023,07:00:00 PM. Texts are written as their date, time and fraction parts, and
  // each literal fact (the ISO text, the shift, the two display parts) is a lemma of its own
  // with the literals passed as parameters fixed by `requires`: every literal is unfolded only
  // in the one small proof that needs it, which keeps every proof obligation small.

  lemma IsoTextExample(t: DateTime, date: string, clock: string)
    requires t == DateTime(Date(2023, 5, 1), 10, 0, 0) && date == "2023-05-01" && clock == "10:00:00"
    ensures InRange(t) && IsoText(t) == date + "T" + clock
  {
    assert Decimal(2023, 4) == "2023";
    assert Decimal(5, 2) == "05" && Decimal(1, 2) == "01";
    assert IsoDate(t.date) == date;
    assert Decimal(10, 2) == "10" && Decimal(0, 2) == "00";
    assert IsoClock(t) == clock;
  }

  lemma ShiftExample(t: DateTime, shifted: DateTime)
    requires t == DateTime(Date(2023, 5, 1), 10, 0, 0) && shifted == DateTime(Date(2023, 5, 1), 19, 0, 0)
    ensures ShiftToDisplayZone(t) == Success(shifted)
  {
  }

  lemma DisplayDateExample(d: Date, text: string)
    requires d == Date(2023, 5, 1) && text == "05/01, 2023"
    ensures DisplayDate(d) == text
  {
    assert Decimal(2023, 4) == "2023";
    assert Decimal(5, 2) == "05" && Decimal(1, 2) == "01";
  }

  lemma DisplayClockExample(t: DateTime, text: string)
    requires t == DateTime(Date(2023, 5, 1), 19, 0, 0) && text == "07:00:00 PM"
    ensures InRange(t) && DisplayClock(t) == text
  {
    assert ClockHour(19) == (7, true);
    assert Decimal(7, 2) == "07" && Decimal(0, 2) == "00";
  }

  lemma LastDeployedExample(date: string, clock: string, fraction: string, shownDate: string, shownClock: string)
    requires date == "2023-05-01" && clock == "10:00:00" && fraction == "123456"
    requires shownDate == "05/01, 2023" && shownClock == "07:00:00 PM"
    ensures MakeLastDeployed(date + "T" + clock + "." + fraction) == Success(shownDate + "," + shownClock)
  {
    var t := DateTime(Date(2023, 5, 1), 10, 0, 0);
    var shifted := DateTime(Date(2023, 5, 1), 19, 0, 0);
    IsoTextExample(t, date, clock);
    ParseIsoRoundTrip(t);
    ShiftExample(t, shifted);
    DisplayDateExample(shifted.date, shownDate);
    DisplayClockExample(shifted, shownClock);
    NoDotExample(date, clock);
    LastDeployedOfParts(date + "T" + clock, fraction, t, shifted);
  }

  lemma NoDotExample(date: string, clock: string)
    requires (date == "2023-05-01" && clock == "10:00:00") || (date == "2023-01-01" && clock == "00:00:00")
    ensures '.' !in date + "T" + clock
  {
    assert '.' !in date && '.' !in clock;
  }

  /** Without a fractional part the call fails. */
  lemma LastDeployedExampleWithoutFraction(date: string, clock: string)
    requires date == "2023-05-01" && clock == "10:00:00"
    ensures MakeLastDeployed(date + "T" + clock) == Failure(ValueError(UnpackMismatch(2, 1)))
  {
    NoDotExample(date, clock);
    LastDeployedWithoutDot(date + "T" + clock);
  }

  // The update time of a typical record, 2023-01-01T00:00:00.000000.

  lemma ScenarioIsoText(t: DateTime, date: string, clock: string)
    requires t == DateTime(Date(2023, 1, 1), 0, 0, 0) && date == "2023-01-01" && clock == "00:00:00"
    ensures InRange(t) && IsoText(t) == date + "T" + clock
  {
    assert Decimal(2023, 4) == "2023";
    assert Decimal(1, 2) == "01";
    assert IsoDate(t.date) == date;
    assert Decimal(0, 2) == "00";
    assert IsoClock(t) == clock;
  }

  lemma ScenarioShift(t: DateTime, shifted: DateTime)
    requires t == DateTime(Date(2023, 1, 1), 0, 0, 0) && shifted == DateTime(Date(2023, 1, 1), 9, 0, 0)
    ensures ShiftToDisplayZone(t) == Success(shifted)
  {
  }

  /** It is shown nine hours on. */
  lemma ScenarioUpdateTime(date: string, clock: string, fraction: string, shifted: DateTime)
    requires date == "2023-01-01" && clock == "00:00:00" && fraction == "000000"
    requires shifted == DateTime(Date(2023, 1, 1), 9, 0, 0)
    ensures MakeLastDeployed(date + "T" + clock + "." + fraction) == Success(DisplayText(shifted))
  {
    var t := DateTime(Date(2023, 1, 1), 0, 0, 0);
    ScenarioIsoText(t, date, clock);
    ParseIsoRoundTrip(t);
    ScenarioShift(t, shifted);
    NoDotExample(date, clock);
    LastDeployedOfParts(date + "T" + clock, fraction, t, shifted);
  }
}
