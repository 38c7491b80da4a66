/**
 * The shift decoder (main.rb:62-92): two cells per day of the month, day
 * hours then night hours, turned into at most one shift per day.
 */
module Shifts {
  import opened Optional
  import opened Dates
  import opened Cells

  datatype Kind = DayShift | NightShift

  /** The event title of a shift (main.rb:70, 74). */
  function Name(k: Kind): string
  {
    match k
    case DayShift => "Day shift"
    case NightShift => "Night shift"
  }

  const DayStartHour := 8
  const NightStartHour := 20

  /** One emitted shift: its date, kind, starting hour and length in hours. */
  datatype Shift = Shift(date: Date, kind: Kind, startHour: int, length: int)

  /** Column of a day's "day hours" cell in the row; the "night hours" cell follows it (main.rb:65). */
  function Column(day: int): nat
    requires day >= 1
  {
    (day - 1) * 2
  }

  function DayHours(row: seq<string>, date: Date): int
    requires date.day >= 1
  {
    Cell(row, Column(date.day))
  }

  function NightHours(row: seq<string>, date: Date): int
    requires date.day >= 1
  {
    Cell(row, Column(date.day) + 1)
  }

  /** The shift worked on `date`, if any: day hours win over night hours (main.rb:66-79). */
  function ShiftOn(row: seq<string>, date: Date): Option<Shift>
    requires date.day >= 1
  {
    var dayHours := DayHours(row, date);
    var nightHours := NightHours(row, date);
    if dayHours > 0 then Some(Shift(date, DayShift, DayStartHour, dayHours))
    else if nightHours > 0 then Some(Shift(date, NightShift, NightStartHour, nightHours))
    else None
  }

  /** `date.to_time hour: start_hour` (main.rb:81). */
  function StartTime(s: Shift): Time
    requires 0 <= s.startHour < 24
  {
    ToTime(s.date, s.startHour, 0, 0)
  }

  /** `starttime + length * 60 * 60` (main.rb:88). */
  function EndTime(s: Shift): Time
    requires 0 <= s.startHour < 24
  {
    AddSeconds(StartTime(s), s.length * 60 * 60)
  }

  /**
   * The shifts of days `from` to `last` of a month, in the order of
   * `Date#upto`, which steps over the days that do not exist.
   */
  function DecodeDays(row: seq<string>, year: int, month: int, from: int, last: int): (r: seq<Shift>)
    requires 1 <= month <= 12 && from >= 1
    decreases last + 1 - from
    ensures |r| <= if from <= last then last - from + 1 else 0
  {
    if from > last then []
    else
      var rest := DecodeDays(row, year, month, from + 1, last);
      var date := Date(year, month, from);
      if IsValid(date) && ShiftOn(row, date).Some? then [ShiftOn(row, date).value] + rest else rest
  }

  /**
   * `r` holds only shifts of existing dates from day `from` to day `last` of
   * the month, each the shift `ShiftOn` gives for its date, in strictly
   * increasing day order.
   */
  predicate SoundShifts(row: seq<string>, year: int, month: int, from: int, last: int, r: seq<Shift>)
    requires from >= 1
  {
    && (forall i :: 0 <= i < |r| ==>
          && r[i].date.year == year && r[i].date.month == month && from <= r[i].date.day <= last
          && IsValid(r[i].date) && ShiftOn(row, r[i].date) == Some(r[i]))
    && (forall i, j :: 0 <= i < j < |r| ==> r[i].date.day < r[j].date.day)
  }

  lemma {:induction false} DecodeDaysSound(row: seq<string>, year: int, month: int, from: int, last: int)
    requires 1 <= month <= 12 && from >= 1
    decreases last + 1 - from
    ensures SoundShifts(row, year, month, from, last, DecodeDays(row, year, month, from, last))
  {
    if from <= last {
      DecodeDaysSound(row, year, month, from + 1, last);
      var r := DecodeDays(row, year, month, from, last);
      var rest := DecodeDays(row, year, month, from + 1, last);
      var date := Date(year, month, from);
      if IsValid(date) && ShiftOn(row, date).Some? {
        assert r == [ShiftOn(row, date).value] + rest;
        forall i | 0 < i < |r| ensures r[i] == rest[i - 1] {
        }
      } else {
        assert r == rest;
      }
    }
  }

  /** Every day of the range that has a shift contributes it. */
  lemma {:induction false} DecodeDaysComplete(row: seq<string>, year: int, month: int, from: int, last: int, k: int)
    requires 1 <= month <= 12 && from >= 1
    requires from <= k <= last && IsValid(Date(year, month, k)) && ShiftOn(row, Date(year, month, k)).Some?
    decreases last + 1 - from
    ensures ShiftOn(row, Date(year, month, k)).value in DecodeDays(row, year, month, from, last)
  {
    if k > from {
      DecodeDaysComplete(row, year, month, from + 1, last, k);
    }
  }

  /** The shifts from `start` to the last day of its month (main.rb:64-92). */
  function Decode(row: seq<string>, start: Date): seq<Shift>
    requires IsValid(start)
  {
    DecodeDays(row, start.year, start.month, start.day, EndOfMonth(start).day)
  }

  /**
   * Every emitted shift lies between the start date and the end of its month.
   * A day with positive day hours gives a day shift from 08:00 lasting the
   * day hours; otherwise the night hours are positive and give a night shift
   * from 20:00 lasting the night hours. No shift has a zero or negative length,
   * and its end is its start plus its length in hours, on the same date and
   * without being cut at midnight.
   */
  lemma DecodeSound(row: seq<string>, start: Date, i: nat)
    requires IsValid(start) && i < |Decode(row, start)|
    ensures var s := Decode(row, start)[i];
      && IsValid(s.date) && s.date.year == start.year && s.date.month == start.month
      && start.day <= s.date.day <= EndOfMonth(start).day
      && s.length > 0
      && (DayHours(row, s.date) > 0 ==> s == Shift(s.date, DayShift, 8, DayHours(row, s.date)))
      && (DayHours(row, s.date) <= 0 ==> NightHours(row, s.date) > 0 && s == Shift(s.date, NightShift, 20, NightHours(row, s.date)))
      && StartTime(s) == Time(s.date, s.startHour * 60 * 60)
      && EndTime(s) == Time(s.date, (s.startHour + s.length) * 60 * 60)
  {
    DecodeDaysSound(row, start.year, start.month, start.day, EndOfMonth(start).day);
  }

  /** A day of the range gets a shift exactly when one of its two cells is positive, and never two shifts. */
  lemma DecodeComplete(row: seq<string>, start: Date, date: Date)
    requires IsValid(start) && IsValid(date)
    requires date.year == start.year && date.month == start.month && start.day <= date.day
    ensures var r := Decode(row, start);
      && ((exists i :: 0 <= i < |r| && r[i].date == date) <==> DayHours(row, date) > 0 || NightHours(row, date) > 0)
      && forall i, j :: 0 <= i < |r| && 0 <= j < |r| && r[i].date == date && r[j].date == date ==> i == j
  {
    var r := Decode(row, start);
    DecodeDaysSound(row, start.year, start.month, start.day, EndOfMonth(start).day);
    if DayHours(row, date) > 0 || NightHours(row, date) > 0 {
      var s := ShiftOn(row, date).value;
      DecodeDaysComplete(row, start.year, start.month, start.day, EndOfMonth(start).day, date.day);
      var i :| 0 <= i < |r| && r[i] == s;
      assert r[i].date == date;
    }
  }

  /**
   * Every decoded shift ends, as an instant, strictly after it starts: on
   * the same date, or for a night shift that runs past midnight on a later
   * date.
   */
  lemma DecodeEndsAfterStart(row: seq<string>, start: Date, i: nat)
    requires IsValid(start) && i < |Decode(row, start)|
    ensures var s := Decode(row, start)[i];
      && IsValid(s.date) && (s.startHour == DayStartHour || s.startHour == NightStartHour) && s.length > 0
      && StartTime(s) == Normalise(StartTime(s))
      && Earlier(StartTime(s), Normalise(EndTime(s)))
  {
    DecodeSound(row, start, i);
    var s := Decode(row, start)[i];
    var end := EndTime(s);
    var days := end.second / SecondsPerDay;
    assert Normalise(end) == Time(DaysLater(s.date, days), end.second % SecondsPerDay);
    if days == 0 {
      assert end.second % SecondsPerDay == end.second;
    }
  }

  /** Day priority: positive day hours give one day shift and no night shift, whatever the night hours are. */
  lemma DecodeDayPriority(row: seq<string>, start: Date, date: Date)
    requires IsValid(start) && IsValid(date)
    requires date.year == start.year && date.month == start.month && start.day <= date.day
    requires DayHours(row, date) > 0
    ensures var r := Decode(row, start);
      && Shift(date, DayShift, DayStartHour, DayHours(row, date)) in r
      && forall i :: 0 <= i < |r| && r[i].date == date ==> r[i].kind == DayShift
  {
    DecodeComplete(row, start, date);
    DecodeDaysSound(row, start.year, start.month, start.day, EndOfMonth(start).day);
  }

  /** At most one shift per day: no more shifts than days from the start date through the end of the month. */
  lemma DecodeCount(row: seq<string>, start: Date)
    requires IsValid(start)
    ensures |Decode(row, start)| <= EndOfMonth(start).day - start.day + 1
    ensures forall i, j :: 0 <= i < j < |Decode(row, start)| ==> Decode(row, start)[i].date.day < Decode(row, start)[j].date.day
  {
    DecodeDaysSound(row, start.year, start.month, start.day, EndOfMonth(start).day);
  }

  /** A row whose cells all convert to zero or less (empty, non-numeric, "0", negative) gives no shift at all. */
  lemma DecodeNothingPositive(row: seq<string>, start: Date)
    requires IsValid(start)
    requires forall i :: 0 <= i < |row| ==> ToI(row[i]) <= 0
    ensures Decode(row, start) == []
  {
    var r := Decode(row, start);
    if r != [] {
      DecodeSound(row, start, 0);
      assert false;
    }
  }

  /** Days whose cells lie past the end of the row (nil cells) never get a shift. */
  lemma {:induction false} DecodeDaysPastRow(row: seq<string>, year: int, month: int, from: int, last: int)
    requires 1 <= month <= 12 && from >= 1 && Column(from) >= |row|
    decreases last + 1 - from
    ensures DecodeDays(row, year, month, from, last) == []
  {
    if from <= last {
      assert ShiftOn(row, Date(year, month, from)) == None;
      DecodeDaysPastRow(row, year, month, from + 1, last);
    }
  }

  /**
   * The roster row "alice, 4, 0, 0, 8, 0, 0" read from March 1st, 2024: a
   * four-hour day shift on March 1st, an eight-hour night shift on March 2nd
   * that ends 28 hours after midnight of March 2nd, which is 04:00 on March
   * 3rd, and nothing on March 3rd or later.
   */
  lemma MarchExample()
    ensures SelectRow(Some([["alice", "4", "0", "0", "8", "0", "0"]]), "alice") == Ok(["4", "0", "0", "8", "0", "0"])
    ensures Decode(["4", "0", "0", "8", "0", "0"], Date(2024, 3, 1)) ==
      [Shift(Date(2024, 3, 1), DayShift, 8, 4), Shift(Date(2024, 3, 2), NightShift, 20, 8)]
    ensures EndTime(Shift(Date(2024, 3, 2), NightShift, 20, 8)) == Time(Date(2024, 3, 2), 28 * 60 * 60)
    ensures Normalise(EndTime(Shift(Date(2024, 3, 2), NightShift, 20, 8))) == ToTime(Date(2024, 3, 3), 4, 0, 0)
  {
    assert ["alice", "4", "0", "0", "8", "0", "0"][1..] == ["4", "0", "0", "8", "0", "0"];
    MarchFromSecond();
    var row := ["4", "0", "0", "8", "0", "0"];
    assert ShiftOn(row, Date(2024, 3, 1)) == Some(Shift(Date(2024, 3, 1), DayShift, 8, 4));
    assert EndOfMonth(Date(2024, 3, 1)).day == 31;
  }

  lemma MarchFromSecond()
    ensures DecodeDays(["4", "0", "0", "8", "0", "0"], 2024, 3, 2, 31) == [Shift(Date(2024, 3, 2), NightShift, 20, 8)]
  {
    var row := ["4", "0", "0", "8", "0", "0"];
    assert ShiftOn(row, Date(2024, 3, 3)) == None;
    DecodeDaysPastRow(row, 2024, 3, 4, 31);
    assert ShiftOn(row, Date(2024, 3, 2)) == Some(Shift(Date(2024, 3, 2), NightShift, 20, 8));
  }
}
