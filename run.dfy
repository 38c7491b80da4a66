/**
 * `DutyShifts.run` (main.rb:27-93) as a whole: parse the arguments, pick the
 * sheet and the user's row, resolve the calendar unless this is a dry run,
 * read the start date, then emit the month's shifts. The YAML file, the login
 * name, today's date, the spreadsheet service and `Date.parse` are inputs.
 */
module Runs {
  import opened Optional
  import opened Dates
  import opened Cells
  import opened Shifts
  import opened Calendars
  import opened Arguments
  import opened Sheets
  import opened DutyShifts

  const SheetRangeKey := Named("sheet_range")

  /**
   * The configuration values the run reads as strings or as a list of
   * numbers have those types when present, and no key is a second spelling
   * of a key the argument loop writes.
   */
  predicate WellTyped(config: Config)
  {
    && (forall k :: k in config ==> !SpellsLoopKey(k))
    && (CalendarNameKey in config ==> config[CalendarNameKey].Text?)
    && (UsernameKey in config ==> config[UsernameKey].Text?)
    && (AlarmTimesKey in config ==>
          && config[AlarmTimesKey].Items?
          && forall i :: 0 <= i < |config[AlarmTimesKey].items| ==> config[AlarmTimesKey].items[i].Integer?)
  }

  /** `Date.parse` yields only dates that exist; `None` stands for the error it raises. */
  ghost predicate ValidParser(parseDate: string -> Option<Date>)
  {
    forall s :: parseDate(s).Some? ==> IsValid(parseDate(s).value)
  }

  /** `config[:sheet_name] ||= spreadsheet.list.first` (main.rb:52): `nil` when nothing is listed. */
  function SheetNameValue(config: Config, sheets: seq<SheetProperties>): Value
  {
    if IsSet(config, SheetName) then config[SheetName]
    else if List(sheets) != [] then Text(List(sheets)[0])
    else Nil
  }

  function SheetRange(config: Config): Value
  {
    if SheetRangeKey in config then config[SheetRangeKey] else Nil
  }

  /** `config.fetch :username, Etc.getlogin` (main.rb:53). */
  function Username(config: Config, login: string): string
    requires WellTyped(config)
  {
    if UsernameKey in config then config[UsernameKey].text else login
  }

  /** `config.fetch(:calendar_name, 'DutyShifts')` (main.rb:59). */
  function CalendarName(config: Config): string
    requires WellTyped(config)
  {
    if CalendarNameKey in config then config[CalendarNameKey].text else DefaultCalendarName
  }

  /** `config.fetch(:alarm_times, [])` (main.rb:60). */
  function AlarmTimes(config: Config): (r: seq<int>)
    requires WellTyped(config)
    ensures AlarmTimesKey !in config ==> r == []
    ensures AlarmTimesKey in config ==>
      |r| == |config[AlarmTimesKey].items| &&
      forall i :: 0 <= i < |r| ==> config[AlarmTimesKey].items[i] == Integer(r[i])
  {
    if AlarmTimesKey in config then
      var items := config[AlarmTimesKey].items;
      seq(|items|, i requires 0 <= i < |items| => items[i].number)
    else []
  }

  /**
   * The start date (main.rb:62-63): the parsed `start_date` when one is set,
   * today otherwise. `None` is the error `Date.parse` raises, for a string it
   * cannot read or for a value that is not a string.
   */
  function StartDateOf(config: Config, today: Date, parseDate: string -> Option<Date>): (r: Option<Date>)
    requires IsValid(today) && ValidParser(parseDate)
    ensures r.Some? ==> IsValid(r.value)
    ensures !IsSet(config, StartDate) ==> r == Some(today)
  {
    if IsSet(config, StartDate) then
      match config[StartDate]
      case Text(t) => parseDate(t)
      case _ => None
    else Some(today)
  }

  /** How the run ends. */
  datatype RunOutcome =
    | ShowedHelp
    | BadArguments(message: string)
    | RowMissing(error: RowError)
    | BadDate
    | DryRun(shifts: seq<Shift>)
    | Synced(calendarId: CalendarId)

  /** The outcome with the calendar service's state after the run. */
  datatype RunResult = RunResult(outcome: RunOutcome, calendars: seq<CalendarEntry>, nextId: nat)

  /** The user's row the run reads, for a parsed configuration. */
  function RowOf(config: Config, login: string, sheets: seq<SheetProperties>,
                 fetchValues: (Value, Value) -> Option<seq<seq<string>>>): Result<seq<string>, RowError>
    requires WellTyped(config)
  {
    SelectRow(fetchValues(SheetNameValue(config, sheets), SheetRange(config)), Username(config, login))
  }

  /**
   * The arguments never touch the calendar name, the user name or the alarm
   * times: after parsing they read as they were configured.
   */
  lemma ParsedWellTyped(args: seq<string>, config: Config, login: string)
    requires WellTyped(config) && ParseArguments(args, config).Parsed?
    ensures var c := ParseArguments(args, config).config;
      && WellTyped(c)
      && CalendarName(c) == CalendarName(config)
      && Username(c, login) == Username(config, login)
      && AlarmTimes(c) == AlarmTimes(config)
  {
    ParseFrame(args, config);
  }

  /**
   * `--date`, any `--clear` and `--dry-run` flags, then `v` as the last
   * arguments make the start date `Date.parse(v)` (main.rb:35, 41, 62).
   */
  lemma StartDateFromArgument(args: seq<string>, flags: seq<string>, v: string, config: Config, c: Config,
                              today: Date, parseDate: string -> Option<Date>)
    requires IsValid(today) && ValidParser(parseDate) && !IsOption(v)
    requires forall i :: 0 <= i < |flags| ==> flags[i] == "--clear" || flags[i] == "--dry-run"
    requires ParseArguments(args + ["--date"] + flags + [v], config) == Parsed(c)
    ensures StartDateOf(c, today, parseDate) == parseDate(v)
  {
    KeyThenValue(args, "--date", flags, v, config);
  }

  /**
   * The run on the calendars `cals` of a service that hands out `nextId`
   * next, in the order of the source: the row is read before any calendar is
   * touched, and the calendar is resolved before the start date is parsed.
   */
  function RunSpec(args: seq<string>, config: Config, login: string, today: Date, sheets: seq<SheetProperties>,
                   fetchValues: (Value, Value) -> Option<seq<seq<string>>>, parseDate: string -> Option<Date>,
                   cals: seq<CalendarEntry>, nextId: nat): RunResult
    requires WellTyped(config) && IsValid(today) && ValidParser(parseDate)
  {
    match ParseArguments(args, config)
    case Help => RunResult(ShowedHelp, cals, nextId)
    case ArgumentError(m) => RunResult(BadArguments(m), cals, nextId)
    case Parsed(c) =>
      ParsedWellTyped(args, config, login);
      match RowOf(c, login, sheets, fetchValues)
      case Err(e) => RunResult(RowMissing(e), cals, nextId)
      case Ok(row) =>
        if IsSet(c, Noop) then
          match StartDateOf(c, today, parseDate)
          case None => RunResult(BadDate, cals, nextId)
          case Some(start) => RunResult(DryRun(Decode(row, start)), cals, nextId)
        else
          var r := Resolve(cals, nextId, CalendarName(c), !IsSet(c, ClearEvents));
          match StartDateOf(c, today, parseDate)
          case None => RunResult(BadDate, r.calendars, r.nextId)
          case Some(start) =>
            DecodeStartsInDay(row, start);
            RunResult(Synced(r.calendarId), WithEvents(r.calendars, r.calendarId, ShiftEvents(Decode(row, start), AlarmTimes(c))), r.nextId)
  }

  /** `DutyShifts.run` against the calendar service `service`. */
  method Run(args: seq<string>, config: Config, login: string, today: Date, sheets: seq<SheetProperties>,
             fetchValues: (Value, Value) -> Option<seq<seq<string>>>, parseDate: string -> Option<Date>,
             service: CalendarService)
    returns (outcome: RunOutcome)
    requires WellTyped(config) && IsValid(today) && ValidParser(parseDate) && service.Valid()
    modifies service
    ensures service.Valid()
    ensures RunResult(outcome, service.calendars, service.nextId) ==
            RunSpec(args, config, login, today, sheets, fetchValues, parseDate, old(service.calendars), old(service.nextId))
  {
    var parsed := ParseArgumentsLoop(args, config);
    if parsed.Help? {
      return ShowedHelp;
    } else if parsed.ArgumentError? {
      return BadArguments(parsed.message);
    }
    var cfg := parsed.config;
    ParsedWellTyped(args, config, login);
    var row := SelectRow(fetchValues(SheetNameValue(cfg, sheets), SheetRange(cfg)), Username(cfg, login));
    if row.Err? {
      return RowMissing(row.error);
    }
    var noop := IsSet(cfg, Noop);
    var calendar: Calendar? := null;
    if !noop {
      calendar := new Calendar(CalendarName(cfg), !IsSet(cfg, ClearEvents), service);
    }
    var alarmTimes := AlarmTimes(cfg);
    var start := StartDateOf(cfg, today, parseDate);
    if start.None? {
      return BadDate;
    }
    var printed := EmitShifts(row.value, start.value, noop, calendar, alarmTimes);
    if noop {
      outcome := DryRun(printed);
    } else {
      outcome := Synced(calendar.calendarId.value);
    }
  }

  /** A consistent calendar service stays consistent whatever the run does. */
  lemma RunKeepsWellFormed(args: seq<string>, config: Config, login: string, today: Date, sheets: seq<SheetProperties>,
                           fetchValues: (Value, Value) -> Option<seq<seq<string>>>, parseDate: string -> Option<Date>,
                           cals: seq<CalendarEntry>, nextId: nat)
    requires WellTyped(config) && IsValid(today) && ValidParser(parseDate) && WellFormed(cals, nextId)
    ensures var r := RunSpec(args, config, login, today, sheets, fetchValues, parseDate, cals, nextId);
      WellFormed(r.calendars, r.nextId)
  {
    if ParseArguments(args, config).Parsed? {
      var c := ParseArguments(args, config).config;
      ParsedWellTyped(args, config, login);
      if RowOf(c, login, sheets, fetchValues).Ok? && !IsSet(c, Noop) && StartDateOf(c, today, parseDate).Some? {
        var row := RowOf(c, login, sheets, fetchValues).value;
        var start := StartDateOf(c, today, parseDate).value;
        var r := Resolve(cals, nextId, CalendarName(c), !IsSet(c, ClearEvents));
        DecodeStartsInDay(row, start);
        WithEventsKeepsWellFormed(r.calendars, r.nextId, r.calendarId, ShiftEvents(Decode(row, start), AlarmTimes(c)));
      }
    }
  }

  /**
   * Help, an argument error, a missing row and every dry run leave the
   * calendars alone: a run whose parsed configuration sets `noop`, from the
   * YAML file or from `--dry-run`, never touches them, even when its start
   * date then fails to parse.
   */
  lemma QuietRunsTouchNothing(args: seq<string>, config: Config, login: string, today: Date, sheets: seq<SheetProperties>,
                              fetchValues: (Value, Value) -> Option<seq<seq<string>>>, parseDate: string -> Option<Date>,
                              cals: seq<CalendarEntry>, nextId: nat)
    requires WellTyped(config) && IsValid(today) && ValidParser(parseDate)
    ensures var r := RunSpec(args, config, login, today, sheets, fetchValues, parseDate, cals, nextId);
      && (r.outcome.ShowedHelp? || r.outcome.BadArguments? || r.outcome.RowMissing? || r.outcome.DryRun? ==>
            r.calendars == cals && r.nextId == nextId)
      && ("--dry-run" in args ==> r.calendars == cals && r.nextId == nextId && !r.outcome.Synced?)
      && (ParseArguments(args, config).Parsed? && IsSet(ParseArguments(args, config).config, Noop) ==>
            r.calendars == cals && r.nextId == nextId && !r.outcome.Synced?)
  {
    if ParseArguments(args, config).Parsed? {
      ParseFrame(args, config);
    }
  }

  /**
   * A successful live run: the target calendar carries the configured name,
   * and its events are those it had after resolution (the reused calendar's
   * when events are kept, none otherwise) followed by one event per decoded
   * shift, in order.
   */
  lemma SyncedCalendar(args: seq<string>, config: Config, login: string, today: Date, sheets: seq<SheetProperties>,
                       fetchValues: (Value, Value) -> Option<seq<seq<string>>>, parseDate: string -> Option<Date>,
                       cals: seq<CalendarEntry>, nextId: nat, c: Config, row: seq<string>, start: Date)
    requires WellTyped(config) && IsValid(today) && ValidParser(parseDate) && WellFormed(cals, nextId)
    requires ParseArguments(args, config) == Parsed(c) && WellTyped(c) && !IsSet(c, Noop)
    requires RowOf(c, login, sheets, fetchValues) == Ok(row) && StartDateOf(c, today, parseDate) == Some(start)
    ensures var r := RunSpec(args, config, login, today, sheets, fetchValues, parseDate, cals, nextId);
      var name := CalendarName(c);
      var keep := !IsSet(c, ClearEvents);
      var prior := if keep && FirstNamed(cals, name).Some? then cals[FirstNamed(cals, name).value].events else [];
      && r.outcome.Synced?
      && (exists k :: 0 <= k < |r.calendars| && r.calendars[k].id == r.outcome.calendarId && r.calendars[k].summary == name)
      && forall i :: 0 <= i < |r.calendars| && r.calendars[i].id == r.outcome.calendarId ==>
           r.calendars[i].events == prior + ShiftEvents(Decode(row, start), AlarmTimes(c))
  {
    var name := CalendarName(c);
    var keep := !IsSet(c, ClearEvents);
    var res := Resolve(cals, nextId, name, keep);
    ResolvedEvents(cals, nextId, name, keep);
    DecodeStartsInDay(row, start);
    var r := RunSpec(args, config, login, today, sheets, fetchValues, parseDate, cals, nextId);
    assert r.calendars == WithEvents(res.calendars, res.calendarId, ShiftEvents(Decode(row, start), AlarmTimes(c)));
    var k :| 0 <= k < |res.calendars| && res.calendars[k].id == res.calendarId && res.calendars[k].summary == name;
    assert r.calendars[k].summary == name;
  }

  /**
   * The calendar is resolved before the start date is read: a live run with
   * `clear_events` whose start date does not parse has already deleted the
   * calendar with the configured name, with its events, and created an empty
   * replacement.
   */
  lemma BadDateAfterClearing(args: seq<string>, config: Config, login: string, today: Date, sheets: seq<SheetProperties>,
                             fetchValues: (Value, Value) -> Option<seq<seq<string>>>, parseDate: string -> Option<Date>,
                             cals: seq<CalendarEntry>, nextId: nat, c: Config, k: nat)
    requires WellTyped(config) && IsValid(today) && ValidParser(parseDate) && WellFormed(cals, nextId)
    requires ParseArguments(args, config) == Parsed(c) && WellTyped(c) && !IsSet(c, Noop) && IsSet(c, ClearEvents)
    requires RowOf(c, login, sheets, fetchValues).Ok? && StartDateOf(c, today, parseDate).None?
    requires FirstNamed(cals, CalendarName(c)) == Some(k)
    ensures var r := RunSpec(args, config, login, today, sheets, fetchValues, parseDate, cals, nextId);
      && r.outcome == BadDate
      && !HasCalendar(r.calendars, cals[k].id)
      && r.calendars == cals[..k] + cals[k + 1..] + [NewCalendar(nextId, CalendarName(c))]
  {
    ResolveReplaces(cals, nextId, CalendarName(c), k);
    var r := RunSpec(args, config, login, today, sheets, fetchValues, parseDate, cals, nextId);
    forall j | 0 <= j < |r.calendars| ensures r.calendars[j].id != cals[k].id {
      if j < k {
        assert r.calendars[j] == cals[j];
      } else if j < |cals| - 1 {
        assert r.calendars[j] == cals[j + 1];
      }
    }
  }
}
