/**
 * The date loop of `DutyShifts.run` (main.rb:64-92): walk the days from the
 * start date to the end of its month and print, or insert into the resolved
 * calendar, one event per shift.
 */
module DutyShifts {
  import opened Optional
  import opened Dates
  import opened Cells
  import opened Shifts
  import opened Calendars
  import opened Arguments

  const DefaultCalendarName := "DutyShifts"
  const CalendarNameKey := Named("calendar_name")
  const AlarmTimesKey := Named("alarm_times")
  const UsernameKey := Named("username")

  /** Ruby truthiness of `config[k]`: a missing key reads as nil; only nil and false are false. */
  predicate IsSet(config: Config, k: Key)
  {
    k in config && config[k] != Nil && config[k] != Flag(false)
  }

  /** The event `add_event` receives for a shift (main.rb:85-90). */
  function ShiftEvent(s: Shift, alarmTimes: seq<int>): Event
    requires 0 <= s.startHour < 24
  {
    BuildEvent(Name(s.kind), StartTime(s), EndTime(s), alarmTimes, None)
  }

  predicate StartsInDay(shifts: seq<Shift>)
  {
    forall i :: 0 <= i < |shifts| ==> 0 <= shifts[i].startHour < 24
  }

  /** The events `add_event` receives for `shifts`, one per shift, in order. */
  function ShiftEvents(shifts: seq<Shift>, alarmTimes: seq<int>): (r: seq<Event>)
    requires StartsInDay(shifts)
    ensures |r| == |shifts| && forall i :: 0 <= i < |shifts| ==> r[i] == ShiftEvent(shifts[i], alarmTimes)
  {
    seq(|shifts|, i requires 0 <= i < |shifts| => ShiftEvent(shifts[i], alarmTimes))
  }

  /** Every decoded shift starts at 08:00 or at 20:00. */
  lemma DecodeStartHours(row: seq<string>, start: Date)
    requires IsValid(start)
    ensures forall i :: 0 <= i < |Decode(row, start)| ==>
      Decode(row, start)[i].startHour == DayStartHour || Decode(row, start)[i].startHour == NightStartHour
  {
    forall i | 0 <= i < |Decode(row, start)|
      ensures Decode(row, start)[i].startHour == DayStartHour || Decode(row, start)[i].startHour == NightStartHour
    {
      DecodeSound(row, start, i);
    }
  }

  /** Every decoded shift starts within its day. */
  lemma DecodeStartsInDay(row: seq<string>, start: Date)
    requires IsValid(start)
    ensures StartsInDay(Decode(row, start))
  {
    DecodeStartHours(row, start);
  }

  /** The shifts emitted for one date: none or one. */
  function OnDay(row: seq<string>, date: Date): (r: seq<Shift>)
    requires date.day >= 1
  {
    match ShiftOn(row, date)
    case Some(s) => [s]
    case None => []
  }

  /**
   * The block that `upto` runs for each date (main.rb:64-92). In a dry run it
   * prints the date's shift, if any, and touches no calendar; otherwise it
   * prints nothing and inserts the shift's event, if any, into the resolved
   * calendar.
   */
  method EmitDay(row: seq<string>, date: Date, noop: bool, calendar: Calendar?, alarmTimes: seq<int>)
    returns (printed: seq<Shift>)
    requires date.day >= 1
    requires !noop ==> calendar != null && calendar.Valid()
    modifies if !noop && calendar != null then {calendar.service} else {}
    ensures StartsInDay(OnDay(row, date))
    ensures noop ==> printed == OnDay(row, date)
    ensures !noop ==> calendar != null && printed == [] && calendar.Valid() && calendar.calendarId == old(calendar.calendarId)
    ensures !noop ==>
              && calendar != null
              && calendar.service.calendars ==
                 WithEvents(old(calendar.service.calendars), calendar.calendarId.value, ShiftEvents(OnDay(row, date), alarmTimes))
    ensures !noop ==> calendar != null && calendar.service.nextId == old(calendar.service.nextId)
  {
    printed := [];
    var column := (date.day - 1) * 2;
    var dayHours := Cell(row, column);
    var nightHours := Cell(row, column + 1);
    var kind, startHour, length;
    if dayHours > 0 {
      kind, startHour, length := DayShift, DayStartHour, dayHours;
    } else if nightHours > 0 {
      kind, startHour, length := NightShift, NightStartHour, nightHours;
    } else {
      if !noop {
        AppendEventsEffect(calendar.service.calendars, calendar.calendarId.value, []);
      }
      return;
    }
    var shift := Shift(date, kind, startHour, length);
    assert OnDay(row, date) == [shift];
    var starttime := ToTime(date, startHour, 0, 0);
    if noop {
      printed := [shift];
    } else {
      ghost var cals := calendar.service.calendars;
      var event := calendar.AddEvent(Name(kind), starttime, AddSeconds(starttime, length * 60 * 60), alarmTimes, None);
      assert ShiftEvents([shift], alarmTimes) == [event];
      AppendEventsEffect(cals, calendar.calendarId.value, [event]);
      assert [event][..0] == [];
    }
  }

  /**
   * The `upto` loop (main.rb:64): the block for every existing date from the
   * start date to the end of its month. A dry run prints the decoded shifts,
   * in order, and touches no calendar; otherwise nothing is printed and the
   * resolved calendar receives one event per decoded shift, in order.
   */
  method EmitShifts(row: seq<string>, start: Date, noop: bool, calendar: Calendar?, alarmTimes: seq<int>)
    returns (printed: seq<Shift>)
    requires IsValid(start)
    requires !noop ==> calendar != null && calendar.Valid()
    modifies if !noop && calendar != null then {calendar.service} else {}
    ensures StartsInDay(Decode(row, start))
    ensures noop ==> printed == Decode(row, start)
    ensures !noop ==> calendar != null && printed == [] && calendar.Valid() && calendar.calendarId == old(calendar.calendarId)
    ensures !noop ==>
              && calendar != null
              && calendar.service.calendars ==
                 WithEvents(old(calendar.service.calendars), calendar.calendarId.value, ShiftEvents(Decode(row, start), alarmTimes))
    ensures !noop ==> calendar != null && calendar.service.nextId == old(calendar.service.nextId)
  {
    DecodeStartsInDay(row, start);
    var last := EndOfMonth(start).day;
    var day := start.day;
    printed := [];
    ghost var done: seq<Shift> := [];
    ghost var id := if calendar != null && calendar.calendarId.Some? then calendar.calendarId.value else 0;
    ghost var cals := if calendar != null then calendar.service.calendars else [];
    ghost var nextId := if calendar != null then calendar.service.nextId else 0;
    AppendEventsEffect(cals, id, []);
    while day <= last
      invariant start.day <= day <= last + 1
      invariant done + DecodeDays(row, start.year, start.month, day, last) == Decode(row, start)
      invariant StartsInDay(done)
      invariant noop ==> printed == done
      invariant !noop ==> calendar != null && printed == [] && calendar.Valid() && calendar.calendarId == Some(id)
      invariant !noop ==> calendar != null && calendar.service.calendars == WithEvents(cals, id, ShiftEvents(done, alarmTimes))
      invariant !noop ==> calendar != null && calendar.service.nextId == nextId
      decreases last + 1 - day
    {
      var date := Date(start.year, start.month, day);
      DecodeDaysStep(row, start.year, start.month, day, last, done);
      // `Date#upto` only visits dates that exist.
      if IsValid(date) {
        var lines := EmitDay(row, date, noop, calendar, alarmTimes);
        printed := printed + lines;
        InsertedStep(cals, id, done, OnDay(row, date), alarmTimes);
        done := done + OnDay(row, date);
      }
      day := day + 1;
    }
    assert DecodeDays(row, start.year, start.month, day, last) == [];
    assert done == Decode(row, start);
  }

  /** One day of the `upto` loop: the day's shift, if the date exists and has one, then the rest of the month. */
  lemma DecodeDaysStep(row: seq<string>, year: int, month: int, day: int, last: int, done: seq<Shift>)
    requires 1 <= month <= 12 && 1 <= day <= last
    ensures IsValid(Date(year, month, day)) ==>
      done + DecodeDays(row, year, month, day, last) ==
      (done + OnDay(row, Date(year, month, day))) + DecodeDays(row, year, month, day + 1, last)
    ensures !IsValid(Date(year, month, day)) ==>
      done + DecodeDays(row, year, month, day, last) == done + DecodeDays(row, year, month, day + 1, last)
  {
  }

  /** Placing the events of `done`, then those of `today`, places the events of `done + today`. */
  lemma InsertedStep(cals: seq<CalendarEntry>, id: CalendarId, done: seq<Shift>, today: seq<Shift>, alarmTimes: seq<int>)
    requires StartsInDay(done) && StartsInDay(today)
    ensures StartsInDay(done + today)
    ensures WithEvents(WithEvents(cals, id, ShiftEvents(done, alarmTimes)), id, ShiftEvents(today, alarmTimes)) ==
            WithEvents(cals, id, ShiftEvents(done + today, alarmTimes))
  {
    assert ShiftEvents(done + today, alarmTimes) == ShiftEvents(done, alarmTimes) + ShiftEvents(today, alarmTimes);
    WithEventsConcat(cals, id, ShiftEvents(done, alarmTimes), ShiftEvents(today, alarmTimes));
  }
}
