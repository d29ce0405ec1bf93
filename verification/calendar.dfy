/** Naive date-times of Python's `datetime` module: the proleptic Gregorian calendar, day
    numbers as `date.toordinal()` computes them, and adding whole hours with roll-over of
    day, month and year. */
module Calendar {
  import opened Results
  import opened Values

  /** `datetime.MAXYEAR`: arithmetic that leaves years 1..9999 raises OverflowError. */
  const MaxYear := 9999

  predicate IsLeapYear(year: int) {
    year % 4 == 0 && (year % 100 != 0 || year % 400 == 0)
  }

  function DaysInYear(year: int): int {
    if IsLeapYear(year) then 366 else 365
  }

  function DaysInMonth(year: int, month: int): int
    requires 1 <= month <= 12
  {
    if month == 2 then (if IsLeapYear(year) then 29 else 28)
    else if month == 4 || month == 6 || month == 9 || month == 11 then 30
    else 31
  }

  datatype Date = Date(year: int, month: int, day: int)

  /** A real calendar day from 0001-01-01 on (no upper bound on the year). */
  predicate ValidDate(d: Date) {
    1 <= d.year && 1 <= d.month <= 12 && 1 <= d.day <= DaysInMonth(d.year, d.month)
  }

  /** Days in the years before `year`, in closed form. */
  function DaysBeforeYear(year: int): int
    requires year >= 1
  {
    var y := year - 1;
    y * 365 + y / 4 - y / 100 + y / 400
  }

  /** Days in the months of `year` before `month`. */
  function DaysBeforeMonth(year: int, month: int): int
    requires 1 <= month <= 12
  {
    [0, 31, 59, 90, 120, 151, 181, 212, 243, 273, 304, 334][month - 1]
      + (if month > 2 && IsLeapYear(year) then 1 else 0)
  }

  /** `date.toordinal()`: 0001-01-01 is day 1. */
  function Ordinal(d: Date): int
    requires ValidDate(d)
  {
    DaysBeforeYear(d.year) + DaysBeforeMonth(d.year, d.month) + d.day
  }

  lemma DivSteps(n: nat)
    ensures (n + 1) / 4 == n / 4 + (if (n + 1) % 4 == 0 then 1 else 0)
    ensures (n + 1) / 100 == n / 100 + (if (n + 1) % 100 == 0 then 1 else 0)
    ensures (n + 1) / 400 == n / 400 + (if (n + 1) % 400 == 0 then 1 else 0)
  {
  }

  lemma DivisorChain(year: int)
    ensures year % 400 == 0 ==> year % 100 == 0
    ensures year % 100 == 0 ==> year % 4 == 0
  {
    Multiple400(year);
    Multiple100(year);
  }

  lemma Multiple400(year: int)
    ensures year % 400 == 0 ==> year % 100 == 0
  {
    if year % 400 == 0 {
      var k := 4 * (year / 400);
      assert year == 100 * k;
    }
  }

  lemma Multiple100(year: int)
    ensures year % 100 == 0 ==> year % 4 == 0
  {
    if year % 100 == 0 {
      var k := 25 * (year / 100);
      assert year == 4 * k;
    }
  }

  /** The closed form agrees with adding up year lengths. */
  lemma YearStep(year: int)
    requires year >= 1
    ensures DaysBeforeYear(year + 1) == DaysBeforeYear(year) + DaysInYear(year)
  {
    var n := year - 1;
    DivSteps(n);
    DivisorChain(year);
    var a := if year % 4 == 0 then 1 else 0;
    var b := if year % 100 == 0 then 1 else 0;
    var c := if year % 400 == 0 then 1 else 0;
    assert DaysInYear(year) == 365 + a - b + c;
    assert DaysBeforeYear(year + 1) - DaysBeforeYear(year) == 365 + a - b + c;
  }

  lemma MonthStep(year: int, month: int)
    requires 1 <= month < 12
    ensures DaysBeforeMonth(year, month + 1) == DaysBeforeMonth(year, month) + DaysInMonth(year, month)
  {
  }

  /** The following calendar day. */
  function NextDay(d: Date): (r: Date)
    requires ValidDate(d)
    ensures ValidDate(r) && Ordinal(r) == Ordinal(d) + 1
  {
    if d.day < DaysInMonth(d.year, d.month) then Date(d.year, d.month, d.day + 1)
    else if d.month < 12 then
      MonthStep(d.year, d.month);
      Date(d.year, d.month + 1, 1)
    else
      YearStep(d.year);
      Date(d.year + 1, 1, 1)
  }

  /** The day `n` days later. */
  function AddDays(d: Date, n: nat): (r: Date)
    requires ValidDate(d)
    ensures ValidDate(r) && Ordinal(r) == Ordinal(d) + n
    decreases n
  {
    if n == 0 then d else AddDays(NextDay(d), n - 1)
  }

  lemma AddOneDay(d: Date)
    requires ValidDate(d)
    ensures AddDays(d, 0) == d && AddDays(d, 1) == NextDay(d)
  {
    assert AddDays(NextDay(d), 0) == NextDay(d);
  }

  /** Lexicographic order of (year, month, day). */
  predicate Before(d1: Date, d2: Date) {
    || d1.year < d2.year
    || (d1.year == d2.year && d1.month < d2.month)
    || (d1.year == d2.year && d1.month == d2.month && d1.day < d2.day)
  }

  /** A year's day numbers follow the previous years' and precede the next year's. */
  lemma OrdinalWithinYear(d: Date)
    requires ValidDate(d)
    ensures DaysBeforeYear(d.year) < Ordinal(d) <= DaysBeforeYear(d.year + 1)
  {
    YearStep(d.year);
  }

  lemma {:induction false} DaysBeforeYearMonotone(a: int, b: int)
    requires 1 <= a <= b
    ensures DaysBeforeYear(a) <= DaysBeforeYear(b)
    decreases b - a
  {
    if a < b {
      YearStep(a);
      DaysBeforeYearMonotone(a + 1, b);
    }
  }

  lemma {:induction false} DaysBeforeMonthMonotone(year: int, m1: int, m2: int)
    requires 1 <= m1 < m2 <= 12
    ensures DaysBeforeMonth(year, m1) + DaysInMonth(year, m1) <= DaysBeforeMonth(year, m2)
    decreases m2 - m1
  {
    MonthStep(year, m2 - 1);
    if m1 + 1 < m2 {
      DaysBeforeMonthMonotone(year, m1, m2 - 1);
    }
  }

  /** Day numbers follow the calendar order. */
  lemma OrdinalMonotone(d1: Date, d2: Date)
    requires ValidDate(d1) && ValidDate(d2) && Before(d1, d2)
    ensures Ordinal(d1) < Ordinal(d2)
  {
    OrdinalWithinYear(d1);
    OrdinalWithinYear(d2);
    if d1.year < d2.year {
      DaysBeforeYearMonotone(d1.year + 1, d2.year);
    } else if d1.month < d2.month {
      DaysBeforeMonthMonotone(d1.year, d1.month, d2.month);
    }
  }

  /** Distinct days have distinct day numbers. */
  lemma OrdinalInjective(d1: Date, d2: Date)
    requires ValidDate(d1) && ValidDate(d2)
    ensures Ordinal(d1) == Ordinal(d2) ==> d1 == d2
  {
    if Before(d1, d2) {
      OrdinalMonotone(d1, d2);
    } else if Before(d2, d1) {
      OrdinalMonotone(d2, d1);
    }
  }

  /** A naive `datetime` with whole seconds (the parser never sets microseconds). */
  datatype DateTime = DateTime(date: Date, hour: int, minute: int, second: int)

  predicate Valid(t: DateTime) {
    ValidDate(t.date) && 0 <= t.hour < 24 && 0 <= t.minute < 60 && 0 <= t.second < 60
  }

  /** A value Python's `datetime` can hold: years 1..MAXYEAR. */
  predicate InRange(t: DateTime) {
    Valid(t) && t.date.year <= MaxYear
  }

  /** The instant as a count of seconds; one day is 86400 of them. */
  function Seconds(t: DateTime): int
    requires Valid(t)
  {
    ((Ordinal(t.date) * 24 + t.hour) * 60 + t.minute) * 60 + t.second
  }

  /** `t + timedelta(hours=hours)` before the MAXYEAR check. */
  function AddHours(t: DateTime, hours: nat): (r: DateTime)
    requires Valid(t)
    ensures Valid(r)
    ensures Seconds(r) == Seconds(t) + hours * 3600
    ensures r.minute == t.minute && r.second == t.second
  {
    var total := t.hour + hours;
    var days := total / 24;
    var date := AddDays(t.date, days);
    assert days * 24 + total % 24 == total;
    DateTime(date, total % 24, t.minute, t.second)
  }

  /** Distinct date-times denote distinct instants. */
  lemma SecondsInjective(a: DateTime, b: DateTime)
    requires Valid(a) && Valid(b)
    ensures Seconds(a) == Seconds(b) ==> a == b
  {
    OrdinalInjective(a.date, b.date);
    var ta := (a.hour * 60 + a.minute) * 60 + a.second;
    var tb := (b.hour * 60 + b.minute) * 60 + b.second;
    assert Seconds(a) == Ordinal(a.date) * 86400 + ta;
    assert Seconds(b) == Ordinal(b.date) * 86400 + tb;
  }

  /** The result of AddHours is the only date-time at that instant. */
  lemma AddHoursUnique(t: DateTime, hours: nat, u: DateTime)
    requires Valid(t) && Valid(u)
    requires Seconds(u) == Seconds(t) + hours * 3600
    ensures u == AddHours(t, hours)
  {
    SecondsInjective(u, AddHours(t, hours));
  }

  /** The date part after adding the display offset. */
  lemma ShiftedDate(t: DateTime)
    requires Valid(t)
    ensures AddHours(t, DisplayOffsetHours).date == if t.hour >= 24 - DisplayOffsetHours then NextDay(t.date) else t.date
  {
    var total := t.hour + DisplayOffsetHours;
    assert total / 24 == if t.hour >= 24 - DisplayOffsetHours then 1 else 0;
    AddOneDay(t.date);
  }

  /** Only the last day of a year moves into the next year. */
  lemma NextDayYear(d: Date)
    requires ValidDate(d)
    ensures NextDay(d).year == d.year + (if d.month == 12 && d.day == 31 then 1 else 0)
  {
  }

  /** The fixed offset of the display zone (UTC+9). */
  const DisplayOffsetHours: nat := 9

  /** `updated_time + timedelta(hours=9)`: OverflowError once the result passes
      9999-12-31 23:59:59, i.e. from 9999-12-31 15:00:00 on. */
  function ShiftToDisplayZone(t: DateTime): (r: Result<DateTime, Fault>)
    requires InRange(t)
    ensures r.Success? ==> InRange(r.value) && Seconds(r.value) == Seconds(t) + DisplayOffsetHours * 3600
    ensures r.Success? ==> r.value.minute == t.minute && r.value.second == t.second
    ensures r.Failure? <==> t.date == Date(MaxYear, 12, 31) && t.hour >= 24 - DisplayOffsetHours
    ensures r.Failure? ==> r.error == OverflowError
  {
    var shifted := AddHours(t, DisplayOffsetHours);
    ShiftedDate(t);
    NextDayYear(t.date);
    if shifted.date.year > MaxYear then Failure(OverflowError) else Success(shifted)
  }
}
