/**
 * Calendar dates as Ruby's `Date` class sees them with its default calendar
 * reform date (`Date::ITALY`): the Julian calendar up to 1582-10-04, the
 * Gregorian calendar from 1582-10-15 on, and no days in between.
 */
module Dates {

  datatype Date = Date(year: int, month: int, day: int)

  /** A local wall-clock time: `second` seconds after local midnight of `date` (not normalised past 24:00). */
  datatype Time = Time(date: Date, second: int)

  const ReformYear := 1582
  const ReformMonth := 10

  predicate IsLeapYear(year: int)
  {
    if year <= ReformYear then year % 4 == 0
    else year % 4 == 0 && (year % 100 != 0 || year % 400 == 0)
  }

  /** Number of the last day of a month: 28 to 31. */
  function LastDay(year: int, month: int): int
    requires 1 <= month <= 12
  {
    if month == 2 then (if IsLeapYear(year) then 29 else 28)
    else if month == 4 || month == 6 || month == 9 || month == 11 then 30
    else 31
  }

  /** The ten days dropped by the switch from the Julian to the Gregorian calendar. */
  predicate InReformGap(year: int, month: int, day: int)
  {
    year == ReformYear && month == ReformMonth && 5 <= day <= 14
  }

  predicate IsValid(d: Date)
  {
    1 <= d.month <= 12 && 1 <= d.day <= LastDay(d.year, d.month) && !InReformGap(d.year, d.month, d.day)
  }

  /**
   * `Date#end_of_month`, i.e. `Date.new(year, month, -1)`: the last day that
   * exists in the month of `d`.
   */
  function EndOfMonth(d: Date): (r: Date)
    requires IsValid(d)
    ensures IsValid(r) && r.year == d.year && r.month == d.month
    ensures d.day <= r.day
    ensures forall k :: r.day < k ==> !IsValid(Date(d.year, d.month, k))
  {
    Date(d.year, d.month, LastDay(d.year, d.month))
  }

  /** `Date#to_time`: the local time `hour:minute:second` on `d`. */
  function ToTime(d: Date, hour: int, minute: int, second: int): (t: Time)
    requires 0 <= hour < 24 && 0 <= minute < 60 && 0 <= second < 60
    ensures t.date == d && 0 <= t.second < 24 * 60 * 60
    ensures t.second / (60 * 60) == hour && t.second % (60 * 60) / 60 == minute && t.second % 60 == second
  {
    Time(d, hour * 60 * 60 + minute * 60 + second)
  }

  /**
   * `Time#+`: `seconds` later, kept as seconds after midnight of the same
   * date. Ruby's result is an instant, so 20:00 plus eight hours is 04:00 of
   * the next day; `Normalise` relates the two.
   */
  function AddSeconds(t: Time, seconds: int): Time
  {
    Time(t.date, t.second + seconds)
  }

  const SecondsPerDay := 86400

  /** `a` is an earlier date than `b`. */
  predicate Before(a: Date, b: Date)
  {
    a.year < b.year || (a.year == b.year && (a.month < b.month || (a.month == b.month && a.day < b.day)))
  }

  /** The date after `d`: no existing date lies between them, and the reform gap is stepped over. */
  function NextDay(d: Date): (r: Date)
    requires IsValid(d)
    ensures IsValid(r) && Before(d, r)
  {
    if d.year == ReformYear && d.month == ReformMonth && d.day == 4 then Date(d.year, d.month, 15)
    else if d.day < LastDay(d.year, d.month) then Date(d.year, d.month, d.day + 1)
    else if d.month < 12 then Date(d.year, d.month + 1, 1)
    else Date(d.year + 1, 1, 1)
  }

  /** For times of day below 24:00: `a` is an earlier instant than `b`. */
  predicate Earlier(a: Time, b: Time)
  {
    Before(a.date, b.date) || (a.date == b.date && a.second < b.second)
  }

  /** No existing date lies strictly between a date and the next one. */
  lemma NextDayIsNext(d: Date, e: Date)
    requires IsValid(d) && IsValid(e) && Before(d, e)
    ensures !Before(e, NextDay(d))
  {
  }

  /** The date `n` days after `d`. */
  function DaysLater(d: Date, n: nat): (r: Date)
    requires IsValid(d)
    ensures IsValid(r)
    ensures n > 0 ==> Before(d, r)
    decreases n
  {
    if n == 0 then d else DaysLater(NextDay(d), n - 1)
  }

  lemma {:induction false} DaysLaterAdd(d: Date, a: nat, b: nat)
    requires IsValid(d)
    ensures DaysLater(DaysLater(d, a), b) == DaysLater(d, a + b)
    decreases a
  {
    if a > 0 {
      DaysLaterAdd(NextDay(d), a - 1, b);
    }
  }

  /**
   * The instant `t` stands for, written with a time of day below 24:00:
   * every whole day of `t.second` moves the date on to the next existing date.
   */
  function Normalise(t: Time): (r: Time)
    requires IsValid(t.date) && t.second >= 0
    ensures IsValid(r.date) && 0 <= r.second < SecondsPerDay
    ensures r == Time(DaysLater(t.date, t.second / SecondsPerDay), t.second % SecondsPerDay)
    decreases t.second
  {
    if t.second < SecondsPerDay then t
    else
      var r := Normalise(Time(NextDay(t.date), t.second - SecondsPerDay));
      assert (t.second - SecondsPerDay) / SecondsPerDay == t.second / SecondsPerDay - 1;
      assert (t.second - SecondsPerDay) % SecondsPerDay == t.second % SecondsPerDay;
      r
  }

  /**
   * `Time#+` adds to an instant: adding `seconds` to a time, or to the same
   * time normalised first, gives the same instant.
   */
  lemma AddSecondsCompose(t: Time, seconds: int)
    requires IsValid(t.date) && t.second >= 0 && seconds >= 0
    ensures Normalise(AddSeconds(Normalise(t), seconds)) == Normalise(AddSeconds(t, seconds))
  {
    var q := t.second / SecondsPerDay;
    var m := t.second % SecondsPerDay;
    var k := (m + seconds) / SecondsPerDay;
    var rest := (m + seconds) % SecondsPerDay;
    var later := Time(DaysLater(t.date, q + k), rest);
    var a := AddSeconds(Normalise(t), seconds);
    assert a.date == DaysLater(t.date, q) && a.second == m + seconds;
    assert Normalise(a) == Time(DaysLater(a.date, a.second / SecondsPerDay), a.second % SecondsPerDay);
    assert a.second / SecondsPerDay == k && a.second % SecondsPerDay == rest;
    DaysLaterAdd(t.date, q, k);
    assert Normalise(a) == later;
    var b := AddSeconds(t, seconds);
    assert b.second == q * SecondsPerDay + (m + seconds);
    DivModShift(q, m + seconds);
    assert b.second / SecondsPerDay == q + k && b.second % SecondsPerDay == rest;
    assert Normalise(b) == Time(DaysLater(b.date, b.second / SecondsPerDay), b.second % SecondsPerDay);
    assert b.date == t.date;
  }

  lemma DivModShift(q: int, x: int)
    requires x >= 0
    ensures (q * SecondsPerDay + x) / SecondsPerDay == q + x / SecondsPerDay
    ensures (q * SecondsPerDay + x) % SecondsPerDay == x % SecondsPerDay
  {
    var n := x / SecondsPerDay;
    var k := x % SecondsPerDay;
    assert q * SecondsPerDay + x == (q + n) * SecondsPerDay + k;
  }

  /** The existing days of `month` from day `from` on. */
  function ValidDaysFrom(year: int, month: int, from: int): nat
    requires 1 <= month <= 12 && from >= 1
    decreases 32 - from
  {
    if from > 31 then 0
    else (if IsValid(Date(year, month, from)) then 1 else 0) + ValidDaysFrom(year, month, from + 1)
  }

  function ValidDays(year: int, month: int): nat
    requires 1 <= month <= 12
  {
    ValidDaysFrom(year, month, 1)
  }

  /** The number of existing dates in `year`. */
  function DaysInYear(year: int): nat
  {
    ValidDays(year, 1) + ValidDays(year, 2) + ValidDays(year, 3) + ValidDays(year, 4) +
    ValidDays(year, 5) + ValidDays(year, 6) + ValidDays(year, 7) + ValidDays(year, 8) +
    ValidDays(year, 9) + ValidDays(year, 10) + ValidDays(year, 11) + ValidDays(year, 12)
  }

  /** How many of the days `from..14` fall into the reform gap `5..14`. */
  function GapDaysFrom(from: int): int
  {
    if from <= 5 then 10 else if from <= 14 then 15 - from else 0
  }

  lemma {:induction false} ValidDaysCount(year: int, month: int, from: int)
    requires 1 <= month <= 12 && from >= 1
    decreases 32 - from
    ensures ValidDaysFrom(year, month, from) ==
      (if from <= LastDay(year, month) then LastDay(year, month) - from + 1 else 0)
      - (if year == ReformYear && month == ReformMonth then GapDaysFrom(from) else 0)
  {
    if from <= 31 {
      ValidDaysCount(year, month, from + 1);
    }
  }

  /** The existing days of a month: all its days, except the ten the reform dropped from October 1582. */
  lemma MonthLength(year: int, month: int)
    requires 1 <= month <= 12
    ensures ValidDays(year, month) == LastDay(year, month) - (if year == ReformYear && month == ReformMonth then 10 else 0)
  {
    ValidDaysCount(year, month, 1);
  }

  /**
   * A year has 366 days when it is a leap year and 365 otherwise, except
   * 1582, which loses the ten days of the reform.
   */
  lemma YearLength(year: int)
    ensures DaysInYear(year) == if year == ReformYear then 355 else if IsLeapYear(year) then 366 else 365
  {
    MonthLength(year, 1);
    MonthLength(year, 2);
    MonthLength(year, 3);
    MonthLength(year, 4);
    MonthLength(year, 5);
    MonthLength(year, 6);
    MonthLength(year, 7);
    MonthLength(year, 8);
    MonthLength(year, 9);
    MonthLength(year, 10);
    MonthLength(year, 11);
    MonthLength(year, 12);
  }

  lemma LeapYearExamples()
    ensures IsLeapYear(2024) && IsLeapYear(2000) && !IsLeapYear(1900) && !IsLeapYear(2023)
    ensures IsLeapYear(1500) && !IsLeapYear(1700)
    ensures EndOfMonth(Date(2024, 2, 10)) == Date(2024, 2, 29)
    ensures EndOfMonth(Date(1900, 2, 1)) == Date(1900, 2, 28)
    ensures EndOfMonth(Date(1582, 10, 1)) == Date(1582, 10, 31)
  {
  }
}
