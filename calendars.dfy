/**
 * `DutyShifts::Calendar` (main.rb:142-190) against a model of the calendar
 * service: the calendars the user can see, each with its events. Resolution
 * picks the first calendar with the wanted name, deletes it unless its events
 * are to be kept, and creates a new one when none is left; `add_event`
 * inserts one event into the resolved calendar.
 */
module Calendars {
  import opened Optional
  import opened Dates

  const TimeZone := "Europe/Kiev"
  const PopupMethod := "popup"

  /** Calendar ids are assigned by the service; here they are numbers it hands out in turn. */
  type CalendarId = nat

  datatype Reminder = Reminder(reminderMethod: string, minutes: int)
  datatype EventTime = EventTime(dateTime: Time, timeZone: string)
  datatype Event = Event(
    summary: string, description: string, start: EventTime, end: EventTime,
    useDefault: bool, overrides: seq<Reminder>)

  datatype CalendarEntry = CalendarEntry(
    id: CalendarId, summary: string, description: string, timeZone: string, events: seq<Event>)

  predicate UniqueIds(cals: seq<CalendarEntry>)
  {
    forall i, j :: 0 <= i < j < |cals| ==> cals[i].id != cals[j].id
  }

  /** The service's state is consistent: ids are unique and all below the next id it will hand out. */
  predicate WellFormed(cals: seq<CalendarEntry>, nextId: nat)
  {
    UniqueIds(cals) && forall i :: 0 <= i < |cals| ==> cals[i].id < nextId
  }

  predicate HasCalendar(cals: seq<CalendarEntry>, id: CalendarId)
  {
    exists i :: 0 <= i < |cals| && cals[i].id == id
  }

  /** Position of the first calendar whose summary is `name` (main.rb:152-154). */
  function FirstNamed(cals: seq<CalendarEntry>, name: string): (r: Option<nat>)
    ensures r.Some? ==> r.value < |cals| && cals[r.value].summary == name
    ensures r.Some? ==> forall j :: 0 <= j < r.value ==> cals[j].summary != name
    ensures r.None? ==> forall j :: 0 <= j < |cals| ==> cals[j].summary != name
  {
    if cals == [] then None
    else if cals[0].summary == name then Some(0)
    else match FirstNamed(cals[1..], name)
      case None => None
      case Some(k) => Some(k + 1)
  }

  /** `.select { |c| c.summary == name }.first&.id`. */
  function LookupByName(cals: seq<CalendarEntry>, name: string): (r: Option<CalendarId>)
    ensures r.None? <==> forall j :: 0 <= j < |cals| ==> cals[j].summary != name
    ensures r.Some? ==> exists k ::
              && 0 <= k < |cals| && cals[k].summary == name && cals[k].id == r.value
              && (forall j :: 0 <= j < k ==> cals[j].summary != name)
  {
    match FirstNamed(cals, name)
    case None => None
    case Some(k) => Some(cals[k].id)
  }

  /** The calendars left after deleting the calendar `id`. */
  function Without(cals: seq<CalendarEntry>, id: CalendarId): (r: seq<CalendarEntry>)
    ensures |r| <= |cals|
    ensures forall i :: 0 <= i < |r| ==> r[i].id != id
  {
    if cals == [] then []
    else if cals[0].id == id then Without(cals[1..], id)
    else [cals[0]] + Without(cals[1..], id)
  }

  /** With unique ids, deleting the calendar at position `k` removes exactly that entry and keeps the order of the rest. */
  lemma {:induction false} WithoutAt(cals: seq<CalendarEntry>, k: nat)
    requires UniqueIds(cals) && k < |cals|
    ensures Without(cals, cals[k].id) == cals[..k] + cals[k + 1..]
  {
    var tail := cals[1..];
    assert forall i :: 0 <= i < |tail| ==> tail[i] == cals[i + 1];
    if k == 0 {
      WithoutAbsent(tail, cals[0].id);
      assert cals[..0] + cals[1..] == tail;
    } else {
      assert cals[0].id != cals[k].id;
      assert Without(cals, cals[k].id) == [cals[0]] + Without(tail, cals[k].id);
      assert UniqueIds(tail);
      WithoutAt(tail, k - 1);
      assert cals[..k] == [cals[0]] + tail[..k - 1];
      assert cals[k + 1..] == tail[k..];
    }
  }

  lemma {:induction false} WithoutAbsent(cals: seq<CalendarEntry>, id: CalendarId)
    requires forall i :: 0 <= i < |cals| ==> cals[i].id != id
    ensures Without(cals, id) == cals
  {
    if cals != [] {
      WithoutAbsent(cals[1..], id);
    }
  }

  function Description(name: string): string
  {
    name + " (autogenerated calendar)"
  }

  /** The calendar `insert_calendar` creates (main.rb:161-167): no events yet. */
  function NewCalendar(id: CalendarId, name: string): CalendarEntry
  {
    CalendarEntry(id, name, Description(name), TimeZone, [])
  }

  /** The service's calendars after resolution, and the calendar id the resolution settled on. */
  datatype Resolution = Resolution(calendars: seq<CalendarEntry>, nextId: nat, calendarId: CalendarId)

  /**
   * `Calendar#initialize` (main.rb:152-167) on the calendars `cals` of a
   * service that hands out `nextId` next. In every case the resolved id
   * names a calendar with the wanted name, and a consistent state stays
   * consistent.
   */
  function Resolve(cals: seq<CalendarEntry>, nextId: nat, name: string, keepEvents: bool): (r: Resolution)
    ensures exists k :: 0 <= k < |r.calendars| && r.calendars[k].id == r.calendarId && r.calendars[k].summary == name
    ensures WellFormed(cals, nextId) ==> WellFormed(r.calendars, r.nextId)
  {
    var found := LookupByName(cals, name);
    if keepEvents && found.Some? then Resolution(cals, nextId, found.value)
    else
      var rest := if found.Some? then Without(cals, found.value) else cals;
      var r := Resolution(rest + [NewCalendar(nextId, name)], nextId + 1, nextId);
      assert r.calendars[|rest|].id == nextId;
      assert WellFormed(cals, nextId) ==> WellFormed(r.calendars, r.nextId) by {
        if WellFormed(cals, nextId) {
          if found.Some? {
            WithoutKeepsWellFormed(cals, nextId, found.value);
          }
          AddFreshKeepsWellFormed(rest, nextId, NewCalendar(nextId, name));
        }
      }
      r
  }

  lemma WithoutKeepsWellFormed(cals: seq<CalendarEntry>, nextId: nat, id: CalendarId)
    requires WellFormed(cals, nextId)
    ensures WellFormed(Without(cals, id), nextId)
  {
    if k :| 0 <= k < |cals| && cals[k].id == id {
      WithoutAt(cals, k);
      RemoveAtKeepsWellFormed(cals, nextId, k);
    } else {
      WithoutAbsent(cals, id);
    }
  }

  lemma RemoveAtKeepsWellFormed(cals: seq<CalendarEntry>, nextId: nat, k: nat)
    requires WellFormed(cals, nextId) && k < |cals|
    ensures WellFormed(cals[..k] + cals[k + 1..], nextId)
  {
    var rest := cals[..k] + cals[k + 1..];
    assert forall i :: 0 <= i < |rest| ==> rest[i] == cals[if i < k then i else i + 1];
    forall i, j | 0 <= i < j < |rest| ensures rest[i].id != rest[j].id {
      var i' := if i < k then i else i + 1;
      var j' := if j < k then j else j + 1;
      assert rest[i] == cals[i'] && rest[j] == cals[j'];
    }
  }

  lemma AddFreshKeepsWellFormed(cals: seq<CalendarEntry>, nextId: nat, c: CalendarEntry)
    requires WellFormed(cals, nextId) && c.id == nextId
    ensures WellFormed(cals + [c], nextId + 1)
  {
    var r := cals + [c];
    forall i, j | 0 <= i < j < |r| ensures r[i].id != r[j].id {
      assert r[i] == cals[i];
    }
  }

  /** Keeping events: an existing calendar is reused as it is, with all its events. */
  lemma ResolveReuses(cals: seq<CalendarEntry>, nextId: nat, name: string, k: nat)
    requires FirstNamed(cals, name) == Some(k)
    ensures Resolve(cals, nextId, name, true) == Resolution(cals, nextId, cals[k].id)
  {
  }

  /**
   * Clearing: the first calendar with the name is deleted with all its
   * events, every other calendar is kept in order, and a new calendar with
   * a fresh id and no events becomes the target.
   */
  lemma ResolveReplaces(cals: seq<CalendarEntry>, nextId: nat, name: string, k: nat)
    requires WellFormed(cals, nextId) && FirstNamed(cals, name) == Some(k)
    ensures var r := Resolve(cals, nextId, name, false);
      && r.calendars == cals[..k] + cals[k + 1..] + [NewCalendar(nextId, name)]
      && r.calendarId == nextId && !HasCalendar(cals, r.calendarId)
  {
    WithoutAt(cals, k);
  }

  /** No calendar with the name: a new one is created and nothing is deleted. */
  lemma ResolveCreates(cals: seq<CalendarEntry>, nextId: nat, name: string, keepEvents: bool)
    requires WellFormed(cals, nextId) && FirstNamed(cals, name).None?
    ensures var r := Resolve(cals, nextId, name, keepEvents);
      && r.calendars == cals + [NewCalendar(nextId, name)]
      && r.calendarId == nextId && !HasCalendar(cals, r.calendarId)
  {
  }

  /**
   * What the target calendar holds right after resolution: exactly the
   * events of the reused calendar when events are kept and one was found,
   * none at all otherwise.
   */
  lemma {:induction false} ResolvedEvents(cals: seq<CalendarEntry>, nextId: nat, name: string, keepEvents: bool)
    requires WellFormed(cals, nextId)
    ensures var r := Resolve(cals, nextId, name, keepEvents);
      forall i :: 0 <= i < |r.calendars| && r.calendars[i].id == r.calendarId ==>
        r.calendars[i].events == if keepEvents && FirstNamed(cals, name).Some? then cals[FirstNamed(cals, name).value].events else []
  {
    var r := Resolve(cals, nextId, name, keepEvents);
    assert WellFormed(r.calendars, r.nextId);
    match FirstNamed(cals, name)
    case Some(k) =>
      if keepEvents {
        assert r.calendars == cals && r.calendarId == cals[k].id;
      } else {
        ResolveReplaces(cals, nextId, name, k);
        assert r.calendars[|r.calendars| - 1].id == r.calendarId;
      }
    case None =>
      assert r.calendars[|r.calendars| - 1].id == r.calendarId;
  }

  /** The calendars after `insert_event` put `e` into calendar `id`. */
  function AppendEvent(cals: seq<CalendarEntry>, id: CalendarId, e: Event): seq<CalendarEntry>
  {
    seq(|cals|, i requires 0 <= i < |cals| => if cals[i].id == id then cals[i].(events := cals[i].events + [e]) else cals[i])
  }

  function TotalEvents(cals: seq<CalendarEntry>): nat
  {
    if cals == [] then 0 else |cals[0].events| + TotalEvents(cals[1..])
  }

  /**
   * `add_event` adds exactly one event in all and changes no calendar but the
   * target, where the event goes last; ids and consistency are untouched.
   */
  lemma AppendEventAddsOne(cals: seq<CalendarEntry>, nextId: nat, id: CalendarId, e: Event)
    requires WellFormed(cals, nextId) && HasCalendar(cals, id)
    ensures var r := AppendEvent(cals, id, e);
      && TotalEvents(r) == TotalEvents(cals) + 1
      && WellFormed(r, nextId) && HasCalendar(r, id)
      && forall i :: 0 <= i < |cals| && cals[i].id != id ==> r[i] == cals[i]
  {
    TotalEventsAppend(cals, id, e);
    var r := AppendEvent(cals, id, e);
    assert forall i :: 0 <= i < |cals| ==> r[i].id == cals[i].id;
    var k :| 0 <= k < |cals| && cals[k].id == id;
    assert r[k].id == id;
  }

  lemma {:induction false} TotalEventsAppend(cals: seq<CalendarEntry>, id: CalendarId, e: Event)
    requires UniqueIds(cals) && HasCalendar(cals, id)
    ensures TotalEvents(AppendEvent(cals, id, e)) == TotalEvents(cals) + 1
  {
    var k :| 0 <= k < |cals| && cals[k].id == id;
    assert AppendEvent(cals, id, e)[1..] == AppendEvent(cals[1..], id, e);
    if k == 0 {
      AppendEventAbsent(cals[1..], id, e);
    } else {
      assert cals[1..][k - 1].id == id;
      assert UniqueIds(cals[1..]);
      TotalEventsAppend(cals[1..], id, e);
    }
  }

  lemma {:induction false} AppendEventAbsent(cals: seq<CalendarEntry>, id: CalendarId, e: Event)
    requires forall i :: 0 <= i < |cals| ==> cals[i].id != id
    ensures AppendEvent(cals, id, e) == cals
  {
  }

  /** The calendars after inserting the events `es` into calendar `id`, one after the other. */
  function AppendEvents(cals: seq<CalendarEntry>, id: CalendarId, es: seq<Event>): (r: seq<CalendarEntry>)
    decreases |es|
  {
    if es == [] then cals else AppendEvent(AppendEvents(cals, id, es[..|es| - 1]), id, es[|es| - 1])
  }

  /** The calendars with the events `es` placed, in order, after the events of calendar `id`; the others unchanged. */
  function WithEvents(cals: seq<CalendarEntry>, id: CalendarId, es: seq<Event>): (r: seq<CalendarEntry>)
    ensures |r| == |cals|
  {
    seq(|cals|, i requires 0 <= i < |cals| => if cals[i].id == id then cals[i].(events := cals[i].events + es) else cals[i])
  }

  /** Inserting a run of events one after the other gives the target calendar exactly those events after its own, in order, and changes nothing else. */
  lemma {:induction false} AppendEventsEffect(cals: seq<CalendarEntry>, id: CalendarId, es: seq<Event>)
    decreases |es|
    ensures AppendEvents(cals, id, es) == WithEvents(cals, id, es)
  {
    if es != [] {
      var init := es[..|es| - 1];
      AppendEventsEffect(cals, id, init);
      forall i | 0 <= i < |cals| ensures AppendEvents(cals, id, es)[i] == WithEvents(cals, id, es)[i] {
        assert cals[i].events + init + [es[|es| - 1]] == cals[i].events + es;
      }
    } else {
      forall i | 0 <= i < |cals| ensures WithEvents(cals, id, es)[i] == cals[i] {
        assert cals[i].events + es == cals[i].events;
      }
    }
  }

  /** Placing events changes no id, so a consistent state stays consistent and the target is still there. */
  lemma WithEventsKeepsWellFormed(cals: seq<CalendarEntry>, nextId: nat, id: CalendarId, es: seq<Event>)
    requires WellFormed(cals, nextId)
    ensures WellFormed(WithEvents(cals, id, es), nextId)
    ensures HasCalendar(cals, id) ==> HasCalendar(WithEvents(cals, id, es), id)
  {
    var r := WithEvents(cals, id, es);
    assert forall i :: 0 <= i < |cals| ==> r[i].id == cals[i].id;
  }

  /** Placing the events `a` and then the events `b` is placing `a + b`. */
  lemma WithEventsConcat(cals: seq<CalendarEntry>, id: CalendarId, a: seq<Event>, b: seq<Event>)
    ensures WithEvents(WithEvents(cals, id, a), id, b) == WithEvents(cals, id, a + b)
  {
    forall i | 0 <= i < |cals| && cals[i].id == id ensures cals[i].events + a + b == cals[i].events + (a + b) {
    }
  }

  /**
   * The event `add_event` sends (main.rb:170-189): the title, the
   * description or else the title, start and end in the fixed time zone,
   * default reminders off and one popup reminder per alarm time, in order.
   */
  function BuildEvent(name: string, start: Time, end: Time, alarmTimes: seq<int>, description: Option<string>): (e: Event)
    ensures e.summary == name && e.description == (if description.None? then name else description.value)
    ensures e.start == EventTime(start, TimeZone) && e.end == EventTime(end, TimeZone)
    ensures !e.useDefault
    ensures |e.overrides| == |alarmTimes| && forall i :: 0 <= i < |alarmTimes| ==> e.overrides[i] == Reminder(PopupMethod, alarmTimes[i])
  {
    var overrides := seq(|alarmTimes|, i requires 0 <= i < |alarmTimes| => Reminder(PopupMethod, alarmTimes[i]));
    Event(name, if description.None? then name else description.value,
          EventTime(start, TimeZone), EventTime(end, TimeZone), false, overrides)
  }

  /** The calendar service: the calendars the user sees, in list order. */
  class CalendarService {
    var calendars: seq<CalendarEntry>
    var nextId: nat

    ghost predicate Valid()
      reads this
    {
      WellFormed(calendars, nextId)
    }

    constructor (calendars: seq<CalendarEntry>, nextId: nat)
      requires WellFormed(calendars, nextId)
      ensures Valid() && this.calendars == calendars && this.nextId == nextId
    {
      this.calendars := calendars;
      this.nextId := nextId;
    }

    /** `list_calendar_lists.items`. */
    method ListCalendarLists() returns (items: seq<CalendarEntry>)
      ensures items == calendars
    {
      items := calendars;
    }

    /** `delete_calendar`: removes the calendar and its events; `found` is false when there is no such calendar (the service would fail). */
    method DeleteCalendar(id: CalendarId) returns (found: bool)
      requires Valid()
      modifies this
      ensures Valid() && found == HasCalendar(old(calendars), id)
      ensures calendars == Without(old(calendars), id) && nextId == old(nextId)
    {
      found := exists i :: 0 <= i < |calendars| && calendars[i].id == id;
      WithoutKeepsWellFormed(calendars, nextId, id);
      calendars := Without(calendars, id);
    }

    /** `insert_calendar`: a new empty calendar under a fresh id. */
    method InsertCalendar(summary: string, description: string, timeZone: string) returns (id: CalendarId)
      requires Valid()
      modifies this
      ensures Valid() && id == old(nextId) && !HasCalendar(old(calendars), id)
      ensures calendars == old(calendars) + [CalendarEntry(id, summary, description, timeZone, [])]
      ensures nextId == old(nextId) + 1
    {
      id := nextId;
      calendars := calendars + [CalendarEntry(id, summary, description, timeZone, [])];
      nextId := nextId + 1;
    }

    /** `insert_event`: appends `e` to calendar `calendarId`; `found` is false when there is no such calendar (the service would fail). */
    method InsertEvent(calendarId: CalendarId, e: Event) returns (found: bool)
      requires Valid()
      modifies this
      ensures Valid() && found == HasCalendar(old(calendars), calendarId)
      ensures calendars == AppendEvent(old(calendars), calendarId, e) && nextId == old(nextId)
    {
      found := exists i :: 0 <= i < |calendars| && calendars[i].id == calendarId;
      if found {
        AppendEventAddsOne(calendars, nextId, calendarId, e);
      } else {
        AppendEventAbsent(calendars, calendarId, e);
      }
      calendars := AppendEvent(calendars, calendarId, e);
    }
  }

  /** `DutyShifts::Calendar`: a calendar name, the service it talks to, and the resolved id. */
  class Calendar {
    const name: string
    const service: CalendarService
    var calendarId: Option<CalendarId>

    ghost predicate Valid()
      reads this, service
    {
      service.Valid() && calendarId.Some? && HasCalendar(service.calendars, calendarId.value)
    }

    /** `Calendar.new name:, keep_events:` (main.rb:147-168). */
    constructor (name: string, keepEvents: bool, service: CalendarService)
      requires service.Valid()
      modifies service
      ensures Valid() && this.name == name && this.service == service
      ensures var r := Resolve(old(service.calendars), old(service.nextId), name, keepEvents);
        service.calendars == r.calendars && service.nextId == r.nextId && calendarId == Some(r.calendarId)
    {
      this.name := name;
      this.service := service;
      var items := service.ListCalendarLists();
      var id := LookupByName(items, name);
      if !keepEvents && id.Some? {
        var deleted := service.DeleteCalendar(id.value);
        id := None;
      }
      if id.None? {
        var created := service.InsertCalendar(name, Description(name), TimeZone);
        id := Some(created);
      }
      calendarId := id;
      ghost var r := Resolve(old(service.calendars), old(service.nextId), name, keepEvents);
      assert service.calendars == r.calendars;
      assert exists k :: 0 <= k < |r.calendars| && r.calendars[k].id == r.calendarId;
    }

    /** `add_event` (main.rb:170-189): one event, built from the arguments, appended to the resolved calendar. */
    method AddEvent(name: string, starttime: Time, endtime: Time, alarmTimes: seq<int>, description: Option<string>)
      returns (event: Event)
      requires Valid()
      modifies service
      ensures Valid() && calendarId == old(calendarId)
      ensures event == BuildEvent(name, starttime, endtime, alarmTimes, description)
      ensures service.calendars == AppendEvent(old(service.calendars), calendarId.value, event)
      ensures service.nextId == old(service.nextId)
    {
      event := BuildEvent(name, starttime, endtime, alarmTimes, description);
      AppendEventAddsOne(service.calendars, service.nextId, calendarId.value, event);
      var found := service.InsertEvent(calendarId.value, event);
    }
  }
}
