# DutySheets2Calendar in Dafny

A model of `main.rb` from DutySheets2Calendar, a Ruby command-line tool with proofs about it. The tool reads a duty roster from a
Google spreadsheet. Each user's row has two cells per day of the month: day-shift hours, then
night-shift hours. The tool turns the row into calendar events, from a start date to the end of
that date's month. Depending on the options, it only prints the shifts or it writes them into
a Google calendar that it finds by name, clears and recreates on demand.

The project is split by the parts of `main.rb`:

| file | module | what it models |
|---|---|---|
| `optional.dfy` | `Optional` | `Option` and `Result` |
| `dates.dfy` | `Dates` | Ruby's `Date` with its default reform date (Julian rule up to 1582-10-04, Gregorian from 1582-10-15, no days between), `end_of_month`, `to_time`, `Time#+` |
| `cells.dfy` | `Cells` | `String#to_i` on cell strings, `nil.to_i` past the end of a row, the choice of the user's row |
| `shifts.dfy` | `Shifts` | what the date loop decodes: one shift or none per existing day, day hours winning over night hours |
| `sheets.dfy` | `Sheets` | `Spreadsheet#list`: drop hidden sheets, sort by index, take titles |
| `arguments.dfy` | `Arguments` | the `ARGV.each` loop, as a step function and as the loop itself |
| `calendars.dfy` | `Calendars` | a calendar service class, `DutyShifts::Calendar` as a class: resolution in its constructor and `add_event` |
| `duty_shifts.dfy` | `DutyShifts` | the `upto` loop, as methods that print or insert event by event |
| `run.dfy` | `Runs` | `DutyShifts.run` as a whole, as a method and as a function of its inputs |

Things outside the program are inputs:
- the YAML configuration, as a map from keys to values;
- the login name;
- today's date;
- the spreadsheet's sheet properties;
- the values the spreadsheet service returns for a range, as a function;
- `Date.parse`, as a function that may fail;
- the calendar service, as an object holding the user's calendars and their events.

A calendar id is a number that the service hands out in turn.

The order of the steps matters. `Calendar.new` runs at main.rb:59, before `Date.parse` at
main.rb:62. So with clearing on, a `--date` that does not parse fails only after the named
calendar has been deleted with all its events and an empty one created in its place.
`Runs.BadDateAfterClearing` states this.

## Model

| member | source | states |
|---|---|---|
| Dates.EndOfMonth | main.rb:217-219 | the last day that exists in the date's month: a valid date in the same month, not before the given day, with no valid day after it |
| Dates.ToTime | main.rb:221-223 | the time on the same date whose seconds since midnight give back the hour, minute and second |
| Dates.NextDay | main.rb:88 | the following date exists and is later, stepping from 1582-10-04 to 1582-10-15 |
| Dates.NextDayIsNext | main.rb:88 | no existing date lies strictly between a date and the following one |
| Dates.DaysLater | main.rb:88 | a date some days on exists, and is later when the count is positive |
| Dates.DaysLaterAdd | main.rb:88 | going `a` days on, then `b` more, is going `a + b` days on |
| Dates.Normalise | main.rb:88 | the instant a time stands for, with a time of day below 24:00: the whole days move the date on that many existing dates, and the rest is the time of day |
| Dates.AddSecondsCompose | main.rb:88 | `Time#+` adds to an instant: adding seconds to a time, or to the same time normalised first, gives the same instant |
| Dates.MonthLength | main.rb:217-218 | a month has as many existing days as its last day number, except October 1582, which has ten fewer |
| Dates.YearLength | main.rb:217-218 | a year has 366 existing days when it is a leap year and 365 otherwise, except 1582, which has 355 |
| Dates.LeapYearExamples | main.rb:218 | leap years and month ends for sample years on both sides of the reform |
| Cells.CellPadding | main.rb:66-67 | cells without digits at the end of a row read like the `nil` cells past its end: padding a row with them changes no cell's value |
| Cells.ToIDecimal | main.rb:66-67 | a decimal number, unsigned or with `+` or `-`, followed by text that cannot continue it, converts to its value |
| Cells.ToISkipsSpace | main.rb:66-67 | leading white space does not change the converted value |
| Cells.ToINoDigits | main.rb:66-67 | a string without digits converts to 0 |
| Cells.FindRow | main.rb:56 | the first row whose first cell is the user name, or none when no row qualifies; empty rows never match |
| Cells.SelectRow | main.rb:54-57 | the no-values error exactly when there are no values; otherwise the first matching row without its name cell, or the no-row error exactly when no row matches |
| Shifts.DecodeDays | main.rb:64-79 | no more shifts than days in the range |
| Shifts.DecodeDaysSound | main.rb:64-79 | each decoded shift belongs to an existing date of the range and is that date's shift; the days strictly increase |
| Shifts.DecodeDaysComplete | main.rb:64-79 | every existing day of the range that has a shift contributes it |
| Shifts.DecodeSound | main.rb:64-88 | a shift lies between the start date and the end of its month and has a positive length; positive day hours give a day shift 08:00 + day hours, otherwise a night shift 20:00 + night hours; the end is the start plus the length, on the same date |
| Shifts.DecodeEndsAfterStart | main.rb:81-88 | a decoded shift starts at 08:00 or 20:00 of an existing date, and ends, as an instant, strictly later: the same day, or a later date for a shift that runs past midnight |
| Shifts.DecodeComplete | main.rb:64-79 | a date of the range gets a shift if and only if one of its two cells is positive, and never two |
| Shifts.DecodeDayPriority | main.rb:69-76 | positive day hours give the day shift and no night shift, whatever the night cell holds |
| Shifts.DecodeCount | main.rb:64 | no more shifts than days from the start date to the end of the month, in strictly increasing day order |
| Shifts.DecodeNothingPositive | main.rb:66-79 | a row whose cells all convert to zero or less gives no shifts |
| Shifts.DecodeDaysPastRow | main.rb:66-67 | days whose cells lie past the end of the row give no shifts |
| Shifts.MarchExample | main.rb:54-92 | a sample row from 2024-03-01 gives a 4-hour day shift on March 1st and an 8-hour night shift on March 2nd that ends 28 hours after midnight of March 2nd, which is 04:00 on March 3rd |
| Sheets.Visible | main.rb:205 | every sheet that is not hidden is kept, as often as it occurs; no hidden sheet is kept |
| Sheets.InsertByIndex | main.rb:206 | inserting into a list sorted by index keeps it sorted and adds exactly the one sheet |
| Sheets.SortByIndex | main.rb:206 | sorted by index and a permutation of the input |
| Sheets.List | main.rb:202-208 | no more titles than sheets, and each title belongs to a sheet that is not hidden |
| Sheets.ListedMembers | main.rb:202-208 | a sheet is listed if and only if it is not hidden |
| Sheets.ListSpec | main.rb:202-208 | the listing is the titles of the visible sheets, each with its multiplicity, sorted by index, and nothing else |
| Sheets.FirstListedHasLowestIndex | main.rb:52 | the default sheet name is the title of a visible sheet whose index is the lowest among visible sheets |
| Arguments.ParseArgumentsLoop | main.rb:31-47 | the loop that updates `config` and `next_arg` in place gives the outcome of the step-by-step parse |
| Arguments.RunArgsConcat | main.rb:32-47 | parsing `a + b` is parsing `a`, then `b` from where `a` stopped |
| Arguments.HelpStops | main.rb:38 | `--help` or `-h` returns the help, whatever comes after it |
| Arguments.StrayArgumentRejected | main.rb:40-45 | a plain argument with no key pending raises "This command takes no arguments", whatever comes after it |
| Arguments.TrailingKeySetsNothing | main.rb:34-35 | a `--sheet` or `--date` at the end changes nothing |
| Arguments.FlagSetsKey | main.rb:36-37 | `--clear` and `--dry-run` set `clear_events` and `noop` to true |
| Arguments.FlagsKeepPending | main.rb:36-39 | `--clear` and `--dry-run` never stop the loop and leave a pending key pending, setting the same flags whatever is pending |
| Arguments.KeyThenValue | main.rb:34-42 | `--sheet` or `--date`, then any `--clear`/`--dry-run` flags, then a plain `v` make `v` the sheet name or start date, on top of parsing the flags alone |
| Arguments.RunArgsKeeps | main.rb:31-47 | the loop never changes a key other than the four it writes, and flags once set stay set |
| Arguments.ParseFrame | main.rb:31-47 | a successful parse changes only `sheet_name`, `start_date`, `clear_events` and `noop`, and a `--clear` or `--dry-run` anywhere leaves its flag set |
| Arguments.FlagSticks | main.rb:36-37 | a flag given anywhere is still set when parsing succeeds |
| Calendars.FirstNamed | main.rb:152-154 | the position of the first calendar with the name, or none exactly when no calendar has it |
| Calendars.LookupByName | main.rb:152-154 | the id of the first calendar with the name; none exactly when there is no such calendar |
| Calendars.Without | main.rb:157 | deleting leaves no calendar with that id |
| Calendars.WithoutAt | main.rb:157 | with unique ids, deleting removes exactly that one entry and keeps the order of the rest |
| Calendars.WithoutAbsent | main.rb:157 | deleting an absent id changes nothing |
| Calendars.WithoutKeepsWellFormed | main.rb:157 | deleting keeps the ids unique and below the next id |
| Calendars.RemoveAtKeepsWellFormed | main.rb:157 | removing one entry keeps the ids unique and below the next id |
| Calendars.AddFreshKeepsWellFormed | main.rb:161-167 | appending a calendar with the next id keeps the ids unique and below the advanced counter |
| Calendars.Resolve | main.rb:152-167 | the resolved id names a calendar with the wanted name, and a consistent service stays consistent |
| Calendars.ResolveReuses | main.rb:152-156 | when events are kept and a calendar has the name, that calendar is reused and nothing changes |
| Calendars.ResolveReplaces | main.rb:156-167 | when clearing, the first calendar with the name is deleted, the rest stays in order, and a new calendar with a fresh id becomes the target |
| Calendars.ResolveCreates | main.rb:161-167 | when no calendar has the name, a new one is appended under a fresh id and nothing is deleted |
| Calendars.ResolvedEvents | main.rb:152-167 | after resolution the target holds the reused calendar's events when they are kept, and none otherwise |
| Calendars.AppendEventAddsOne | main.rb:171-188 | inserting an event adds exactly one event in all, keeps ids consistent and touches no other calendar |
| Calendars.TotalEventsAppend | main.rb:171 | with unique ids, inserting into an existing calendar adds exactly one event in all |
| Calendars.AppendEventAbsent | main.rb:171 | inserting into an absent calendar changes nothing |
| Calendars.AppendEventsEffect | main.rb:85-90 | inserting events one at a time puts exactly those events, in order, after the target's own, and changes nothing else |
| Calendars.WithEventsConcat | main.rb:85-90 | placing `a` and then `b` is placing `a + b` |
| Calendars.WithEventsKeepsWellFormed | main.rb:171 | placing events keeps the service consistent and the target present |
| Calendars.BuildEvent | main.rb:172-187 | title; description defaulting to the title; start and end in Europe/Kiev; default reminders off; one popup reminder per alarm time, in order |
| Calendars.CalendarService.constructor | main.rb:149-150 | a service holding exactly the given calendars |
| Calendars.CalendarService.ListCalendarLists | main.rb:152 | lists all calendars in order |
| Calendars.CalendarService.DeleteCalendar | main.rb:157 | removes the calendar and keeps the service consistent; reports whether it existed |
| Calendars.CalendarService.InsertCalendar | main.rb:161-167 | appends an empty calendar under a fresh id |
| Calendars.CalendarService.InsertEvent | main.rb:171-188 | appends the event to the target calendar; reports whether it existed |
| Calendars.Calendar.constructor | main.rb:147-168 | lists, deletes unless events are kept, and creates when needed, leaving the service in the state `Resolve` gives and the object holding its id |
| Calendars.Calendar.AddEvent | main.rb:170-189 | builds the event from the arguments and appends it to the resolved calendar, changing nothing else |
| DutyShifts.DecodeStartHours | main.rb:71-75 | every decoded shift starts at hour 8 or hour 20 |
| DutyShifts.DecodeStartsInDay | main.rb:71-75 | every decoded shift starts within its day, as `to_time` needs |
| DutyShifts.EmitDay | main.rb:64-92 | one date: a dry run prints that date's shift if it has one; otherwise nothing is printed, and the event for that shift, if any, goes into the resolved calendar |
| DutyShifts.EmitShifts | main.rb:64-92 | every existing day to the end of the month: a dry run prints exactly the decoded shifts in order; otherwise the resolved calendar receives exactly their events in order, and the calendar and the counter stay as they were |
| DutyShifts.DecodeDaysStep | main.rb:64 | one step of `upto`: the day's shift, if the date exists, then the rest of the month |
| DutyShifts.InsertedStep | main.rb:85-90 | the events of the days so far plus one more day are the events that day adds |
| Runs.AlarmTimes | main.rb:60 | the configured alarm times, in order, or none |
| Runs.StartDateOf | main.rb:62-63 | today when no start date is set; a start date that is read is always an existing date |
| Runs.StartDateFromArgument | main.rb:35-62 | after `--date`, any `--clear`/`--dry-run` flags and `v` at the end of the arguments, the start date is `Date.parse(v)`, or its error |
| Runs.ParsedWellTyped | main.rb:31-47 | after parsing, the calendar name, the user name and the alarm times read exactly as configured, with the same types |
| Runs.Run | main.rb:27-93 | the run, with the order of its steps, gives the outcome and the calendar state of the specification function `RunSpec` |
| Runs.RunKeepsWellFormed | main.rb:27-93 | a consistent calendar service stays consistent after any run |
| Runs.QuietRunsTouchNothing | main.rb:27-93 | help, argument errors, a missing row, a dry-run outcome, and any run whose parsed configuration sets `noop` (from the file or from `--dry-run`, even one ending in a bad date) leave the calendars unchanged and never sync |
| Runs.SyncedCalendar | main.rb:59-92 | a successful live run leaves a calendar with the configured name, holding its events from resolution followed by one event per decoded shift, in order |
| Runs.BadDateAfterClearing | main.rb:59-63 | with clearing on, a start date that does not parse fails only after the named calendar has been deleted and an empty one created |

## Left out

- OAuth and credentials (main.rb:49, 95-140) are not modelled: the token store, the authorisation URL, the code prompt, and `auth_info` failing on a missing `auth` entry.
- YAML loading (main.rb:29) is not modelled: the configuration is an input.
- Runs.Run: requires `calendar_name` and `username`, when configured, to be strings, and `alarm_times` to be a list of integers. Values of other types, which Ruby would pass on or fail on, are not modelled.
- Runs.Run: keys are Ruby symbols, so a configuration holds `:noop`, `:clear_events`, `:sheet_name` and `:start_date` once each; the model's `Named` keys spelling those four names are excluded as inputs, since they would be a second copy of the same symbol.
- Runs.Run: `Etc.getlogin` is a string input; a `nil` login is not modelled.
- The spreadsheet service (main.rb:192-213) is left out; its results are inputs: the sheet properties and a function from (sheet name value, range value) to the values of the range.
- The calendar service is not modelled as Google's API; it is a local class whose calls always succeed. A call on an id the service does not hold changes nothing and reports `found == false`; no run makes such a call. Failures of the service are not modelled. In Ruby a failure raises and ends the run, and an `insert_event` that fails (main.rb:171) leaves the events inserted before it in place; that partial state is not modelled. Pagination of the calendar list is not modelled: the list is complete.
- Printing (main.rb:83) is modelled as the list of printed shifts; the line format `"#{starttime}: #{name} [#{length}]"` and `Time#to_s` are not.
- The help text (main.rb:14-25) is not modelled; `ShowedHelp` stands for it.
- Time zones are not modelled: no daylight-saving time, and no RFC 3339 formatting (main.rb:227-229). A time is a date plus seconds since local midnight, kept unnormalised: the end of a night shift is stored as, say, 28:00 of its start date. Ruby's `Time#+` gives the instant, 04:00 of the next day, and that is what `rfc3339` sends (main.rb:176-180). `Dates.Normalise` relates the two. The `Europe/Kiev` zone is a constant string sent with the event.
- Dates.Normalise: defined only for times at or after midnight of their date; negative seconds never arise, since shift lengths that are decoded are positive.
- Dates.ToTime: `Time.new` (main.rb:222) uses the proleptic Gregorian calendar, while the model labels a time with the `Date` it came from, whose calendar is Julian up to 1582. For dates up to 1582 the model's time keeps the Julian label: `Time.new(1500, 2, 29, 8)` rolls over to 1500-03-01 08:00 in Ruby, but the model keeps 1500-02-29. `Dates.Normalise` likewise steps through the `Date` calendar.
- `Date.today` and `Date.parse` are inputs: today's date and a parse function that returns only existing dates or fails.
- Cells.ToI: Ruby's optional `0d` prefix for base-10 numbers is not modelled.
- Sheets.SortByIndex: Ruby's `sort_by` does not keep ties in input order. The model keeps them, which is one of the orders Ruby may produce, and the properties proved do not depend on tie order.
- The script's entry point (main.rb:232) is `Runs.Run` itself.
