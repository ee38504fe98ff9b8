/**
 * Preparation of the day calendar on the activity page: the groups the
 * server returns are filtered to those lasting longer than one minute and
 * projected, in order, to calendar events coloured by application.
 */
module CalendarEvents {
  import opened Optional
  import ProcessGrouping

  /** A group as the page reads it; `start` and `end` are the millisecond
      values of `new Date(group.start)` and `new Date(group.end)`. */
  datatype GroupRecord = GroupRecord(ownerName: string, start: int, end: int, category: Option<string>)

  datatype ExtendedProps = ExtendedProps(owner: string, category: string)

  datatype CalendarEvent = CalendarEvent(
    title: string,
    start: int,
    end: int,
    backgroundColor: string,
    extendedProps: ExtendedProps)

  const OneMinuteMs: int := 60000

  predicate LongerThanOneMinute(g: GroupRecord) {
    g.end - g.start > OneMinuteMs
  }

  /** The `filter` of renderActivities: keeps exactly the groups lasting
      longer than one minute. */
  function KeepLongGroups(groups: seq<GroupRecord>): (kept: seq<GroupRecord>)
    ensures |kept| <= |groups|
    ensures forall g :: g in kept <==> g in groups && LongerThanOneMinute(g)
  {
    if groups == [] then []
    else (if LongerThanOneMinute(groups[0]) then [groups[0]] else []) + KeepLongGroups(groups[1..])
  }

  /** The filter works element by element, so it keeps the relative order
      of what it keeps. */
  lemma {:induction false} KeepLongGroupsAppend(a: seq<GroupRecord>, b: seq<GroupRecord>)
    ensures KeepLongGroups(a + b) == KeepLongGroups(a) + KeepLongGroups(b)
  {
    if a != [] {
      assert (a + b)[1..] == a[1..] + b;
      KeepLongGroupsAppend(a[1..], b);
    } else {
      assert a + b == b;
    }
  }

  /** A group lasting exactly one minute is dropped; one a millisecond
      longer is kept. */
  lemma OneMinuteBoundary(ownerName: string, start: int, category: Option<string>)
    ensures !LongerThanOneMinute(GroupRecord(ownerName, start, start + 60000, category))
    ensures LongerThanOneMinute(GroupRecord(ownerName, start, start + 60001, category))
  {
  }

  /** `group.category || 'default'`: a missing or empty category reads as
      `'default'`. */
  function CategoryOrDefault(category: Option<string>): (shown: string)
    ensures shown != ""
    ensures category.Some? && category.value != "" ==> shown == category.value
    ensures !(category.Some? && category.value != "") ==> shown == "default"
  {
    match category
    case Some(c) => if c != "" then c else "default"
    case None => "default"
  }

  const DefaultColor: string := "#808080"

  /** The application colours of the calendar. */
  const EventColors: map<string, string> :=
    map["MongoDBCompass" := "#FFD700", "Electron" := "#00CED1", "Visual Studio Code" := "#9370DB"]

  /** getEventColor: the `switch` over the owner name. */
  function GetEventColor(ownerName: string): string {
    if ownerName == "MongoDBCompass" then "#FFD700"
    else if ownerName == "Electron" then "#00CED1"
    else if ownerName == "Visual Studio Code" then "#9370DB"
    else "#808080"
  }

  /** The `switch` is an exact lookup in the colour table with grey for
      every other name. */
  lemma GetEventColorIsTableLookup(ownerName: string)
    ensures GetEventColor(ownerName) ==
      if ownerName in EventColors then EventColors[ownerName] else DefaultColor
  {
  }

  /** Matching is case-sensitive and exact. */
  lemma GetEventColorIsExact()
    ensures GetEventColor("electron") == DefaultColor
    ensures GetEventColor("Visual Studio Code ") == DefaultColor
    ensures GetEventColor("MongoDB Compass") == DefaultColor
  {
  }

  function ToEvent(g: GroupRecord): CalendarEvent {
    CalendarEvent(g.ownerName, g.start, g.end, GetEventColor(g.ownerName),
                  ExtendedProps(g.ownerName, CategoryOrDefault(g.category)))
  }

  /** The `map` of renderActivities: one event per group, in order, titled
      by the owner, spanning the group, coloured by the owner. */
  function ToEvents(groups: seq<GroupRecord>): (events: seq<CalendarEvent>)
    ensures |events| == |groups|
    ensures forall i :: 0 <= i < |groups| ==>
      && events[i].title == groups[i].ownerName
      && events[i].start == groups[i].start
      && events[i].end == groups[i].end
      && events[i].backgroundColor == GetEventColor(groups[i].ownerName)
      && events[i].extendedProps.owner == groups[i].ownerName
      && events[i].extendedProps.category == CategoryOrDefault(groups[i].category)
  {
    if groups == [] then [] else [ToEvent(groups[0])] + ToEvents(groups[1..])
  }

  /** The events the calendar is built from. */
  function CalendarEventsFor(groups: seq<GroupRecord>): seq<CalendarEvent> {
    ToEvents(KeepLongGroups(groups))
  }

  predicate Shows(e: CalendarEvent, g: GroupRecord) {
    e.title == g.ownerName && e.start == g.start && e.end == g.end
  }

  /** Every event on the calendar shows a group lasting longer than one
      minute, with that group's owner, start and end. */
  lemma CalendarEventsShowLongGroups(groups: seq<GroupRecord>)
    ensures forall e :: e in CalendarEventsFor(groups) ==>
      exists g :: g in groups && LongerThanOneMinute(g) && Shows(e, g)
  {
    var kept := KeepLongGroups(groups);
    var events := CalendarEventsFor(groups);
    forall e | e in events
      ensures exists g :: g in groups && LongerThanOneMinute(g) && Shows(e, g)
    {
      var i :| 0 <= i < |events| && events[i] == e;
      assert kept[i] in kept;
    }
  }

  /** A group as the server sends it: the server never sets a category. */
  function FromServer(g: ProcessGrouping.Group): GroupRecord {
    GroupRecord(g.ownerName, g.start, g.end, None)
  }

  function FromServerGroups(groups: seq<ProcessGrouping.Group>): seq<GroupRecord> {
    seq(|groups|, i requires 0 <= i < |groups| => FromServer(groups[i]))
  }

  /** Fed with the server's groups, the calendar shows only processes
      sampled at least twice (a single sample starts and ends at once),
      and every event falls back to the `'default'` category.  This
      assumes a deployment where the page's `localhost:3000` request
      reaches the grouping server, whose default port is 3001. */
  lemma ServerGroupsOnCalendar(acts: seq<ProcessGrouping.Activity>)
    ensures var groups := ProcessGrouping.Groups(acts);
      forall e :: e in CalendarEventsFor(FromServerGroups(groups)) ==>
        e.extendedProps.category == "default" && ShowsMultiSampleGroup(e, groups)
  {
    var groups := ProcessGrouping.Groups(acts);
    var events := CalendarEventsFor(FromServerGroups(groups));
    forall e | e in events
      ensures e.extendedProps.category == "default" && ShowsMultiSampleGroup(e, groups)
    {
      var i :| 0 <= i < |events| && events[i] == e;
      ServerEventAt(acts, i);
    }
  }

  lemma ServerEventAt(acts: seq<ProcessGrouping.Activity>, i: nat)
    requires i < |CalendarEventsFor(FromServerGroups(ProcessGrouping.Groups(acts)))|
    ensures var groups := ProcessGrouping.Groups(acts);
      var e := CalendarEventsFor(FromServerGroups(groups))[i];
      e.extendedProps.category == "default" && ShowsMultiSampleGroup(e, groups)
  {
    var groups := ProcessGrouping.Groups(acts);
    var records := FromServerGroups(groups);
    var kept := KeepLongGroups(records);
    var e := ToEvents(kept)[i];
    assert kept[i] in kept;
    var j :| 0 <= j < |records| && records[j] == kept[i];
    var g := groups[j];
    assert kept[i] == FromServer(g);
    assert LongerThanOneMinute(FromServer(g));
    ProcessGrouping.SingleSampleGroupIsInstant(acts, j);
    assert |g.activities| >= 2;
    assert e.title == g.ownerName && e.start == g.start && e.end == g.end;
    assert g in groups;
  }

  ghost predicate ShowsMultiSampleGroup(e: CalendarEvent, groups: seq<ProcessGrouping.Group>) {
    exists g :: g in groups && |g.activities| >= 2 && e.title == g.ownerName && e.start == g.start && e.end == g.end
  }
}
