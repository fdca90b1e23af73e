/** The calendar of the main dashboard page (src/app/page.tsx): events kept
    in lists keyed by date, filled from meals and tasks, extended with synced
    Google Calendar events, drawn on a 42-cell month grid with a colour per
    event and at most four events per cell. */
module Calendar {
  import opened Common
  import CalendarSyncApi

  datatype EventType = Meal | Task | Reminder

  /** An entry of the calendar; `date` is its date key. */
  datatype CalendarEvent = CalendarEvent(
    id: string,
    title: string,
    date: string,
    kind: EventType,
    priority: Option<string>,
    person: Option<string>)

  /** Event lists by date key. */
  type DayEvents = map<string, seq<CalendarEvent>>

  /** `events[key] || []`. */
  function EventsOn(d: DayEvents, key: string): seq<CalendarEvent> {
    if key in d then d[key] else []
  }

  // ---------------------------------------------------------------------
  // Grouping by date

  /** The events of `es` dated `key`, in their order in `es`. */
  function Dated(es: seq<CalendarEvent>, key: string): seq<CalendarEvent>
    decreases |es|
  {
    if es == [] then []
    else Dated(es[..|es| - 1], key) + (if es[|es| - 1].date == key then [es[|es| - 1]] else [])
  }

  /** Appends the events of `es` one by one to the list of their date,
      creating a list the first time a date is seen. */
  function Group(d: DayEvents, es: seq<CalendarEvent>): DayEvents
    decreases |es|
  {
    if es == [] then d
    else
      var g := Group(d, es[..|es| - 1]);
      var e := es[|es| - 1];
      g[e.date := EventsOn(g, e.date) + [e]]
  }

  /** After grouping, a date holds its previous events followed by the new
      events of that date in input order, and a date has a list exactly
      when it had one before or some new event carries it. */
  lemma {:induction false} GroupSpec(d: DayEvents, es: seq<CalendarEvent>, key: string)
    ensures key in Group(d, es) <==> key in d || Dated(es, key) != []
    ensures EventsOn(Group(d, es), key) == EventsOn(d, key) + Dated(es, key)
    decreases |es|
  {
    if es != [] {
      var init := es[..|es| - 1];
      GroupSpec(d, init, key);
      var e := es[|es| - 1];
      if e.date == key {
        assert Dated(es, key) == Dated(init, key) + [e];
      } else {
        assert Dated(es, key) == Dated(init, key);
      }
    }
  }

  /** Every event of a group carries the group's date. */
  lemma {:induction false} DatedCarriesKey(es: seq<CalendarEvent>, key: string)
    ensures forall e :: e in Dated(es, key) ==> e.date == key && e in es
    decreases |es|
  {
    if es != [] {
      DatedCarriesKey(es[..|es| - 1], key);
    }
  }

  /** The loop both event sources use: `if (!all[k]) all[k] = []; all[k].push(e)`. */
  method AppendAll(d: DayEvents, es: seq<CalendarEvent>) returns (r: DayEvents)
    ensures r == Group(d, es)
  {
    r := d;
    var i := 0;
    while i < |es|
      invariant 0 <= i <= |es|
      invariant r == Group(d, es[..i])
    {
      var e := es[i];
      if e.date !in r {
        r := r[e.date := []];
      }
      r := r[e.date := r[e.date] + [e]];
      assert es[..i + 1][..i] == es[..i];
      i := i + 1;
    }
    assert es[..|es|] == es;
  }

  /** A row of the `meals` table. */
  datatype MealRecord = MealRecord(id: string, mealType: string, title: string, mealDate: string)

  /** A row of the `renovation_tasks` table. */
  datatype TaskRecord = TaskRecord(id: string, taskName: string, dueDate: string, priority: Option<string>)

  function MealEvent(m: MealRecord): (e: CalendarEvent)
    ensures e.id == m.id && e.date == m.mealDate && e.kind == Meal
    ensures e.title == m.mealType + ": " + m.title
    ensures e.priority.None? && e.person.None?
  {
    CalendarEvent(m.id, m.mealType + ": " + m.title, m.mealDate, Meal, None, None)
  }

  function TaskEvent(t: TaskRecord): (e: CalendarEvent)
    ensures e.id == t.id && e.title == t.taskName && e.date == t.dueDate && e.kind == Task
    ensures e.priority == t.priority && e.person.None?
  {
    CalendarEvent(t.id, t.taskName, t.dueDate, Task, t.priority, None)
  }

  /** The events of the fetched meals; a failed query (`null` data) gives none. */
  function MealEvents(meals: Option<seq<MealRecord>>): (es: seq<CalendarEvent>)
    ensures meals.None? ==> es == []
    ensures meals.Some? ==> |es| == |meals.value| && forall i :: 0 <= i < |es| ==> es[i] == MealEvent(meals.value[i])
  {
    if meals.None? then []
    else seq(|meals.value|, i requires 0 <= i < |meals.value| => MealEvent(meals.value[i]))
  }

  function TaskEvents(tasks: Option<seq<TaskRecord>>): (es: seq<CalendarEvent>)
    ensures tasks.None? ==> es == []
    ensures tasks.Some? ==> |es| == |tasks.value| && forall i :: 0 <= i < |es| ==> es[i] == TaskEvent(tasks.value[i])
  {
    if tasks.None? then []
    else seq(|tasks.value|, i requires 0 <= i < |tasks.value| => TaskEvent(tasks.value[i]))
  }

  /** What `fetchAllEvents` stores: meals grouped first, then tasks. */
  function FetchedEvents(meals: Option<seq<MealRecord>>, tasks: Option<seq<TaskRecord>>): DayEvents {
    Group(Group(map[], MealEvents(meals)), TaskEvents(tasks))
  }

  /** A date lists its meals, in query order, before its tasks, in query
      order, and only dates that some meal or task carries have a list. */
  lemma FetchedLayout(meals: Option<seq<MealRecord>>, tasks: Option<seq<TaskRecord>>, key: string)
    ensures EventsOn(FetchedEvents(meals, tasks), key) == Dated(MealEvents(meals), key) + Dated(TaskEvents(tasks), key)
    ensures key in FetchedEvents(meals, tasks) <==> Dated(MealEvents(meals), key) != [] || Dated(TaskEvents(tasks), key) != []
  {
    var ms, ts := MealEvents(meals), TaskEvents(tasks);
    var g := Group(map[], ms);
    GroupSpec(map[], ms, key);
    GroupSpec(g, ts, key);
    assert EventsOn(g, key) == Dated(ms, key);
    assert FetchedEvents(meals, tasks) == Group(g, ts);
  }

  // ---------------------------------------------------------------------
  // Merging synced events

  /** The merge of `syncGoogleCalendar`: each date of `incoming` gets its
      incoming events appended to the events it already had. */
  function Merge(prev: DayEvents, incoming: DayEvents): (merged: DayEvents)
    ensures merged.Keys == prev.Keys + incoming.Keys
    ensures forall k :: k in merged ==> merged[k] == EventsOn(prev, k) + EventsOn(incoming, k)
  {
    map k | k in prev.Keys + incoming.Keys :: EventsOn(prev, k) + EventsOn(incoming, k)
  }

  /** Merging a freshly grouped batch is the same as grouping the batch on
      top of the previous events. */
  lemma MergeGroup(prev: DayEvents, es: seq<CalendarEvent>)
    ensures Merge(prev, Group(map[], es)) == Group(prev, es)
  {
    var g, r := Group(map[], es), Group(prev, es);
    forall k
      ensures k in r <==> k in prev || k in g
      ensures k in r ==> r[k] == EventsOn(prev, k) + EventsOn(g, k)
    {
      GroupKeyAsMerge(prev, es, k);
    }
    MergeExtensional(prev, g, r);
  }

  /** One date of `MergeGroup`. */
  lemma GroupKeyAsMerge(prev: DayEvents, es: seq<CalendarEvent>, k: string)
    ensures k in Group(prev, es) <==> k in prev || k in Group(map[], es)
    ensures k in Group(prev, es) ==> Group(prev, es)[k] == EventsOn(prev, k) + EventsOn(Group(map[], es), k)
  {
    GroupSpec(map[], es, k);
    assert EventsOn(Group(map[], es), k) == Dated(es, k);
    assert k in Group(map[], es) <==> Dated(es, k) != [];
    GroupSpec(prev, es, k);
  }

  /** Merging never removes or reorders: every previous list is a prefix of
      its merged list, and dates without incoming events keep their list. */
  lemma MergeAppendsOnly(prev: DayEvents, incoming: DayEvents, k: string)
    requires k in prev
    ensures k in Merge(prev, incoming)
    ensures prev[k] == Merge(prev, incoming)[k][..|prev[k]|]
    ensures k !in incoming ==> Merge(prev, incoming)[k] == prev[k]
  {
    var m := Merge(prev, incoming)[k];
    assert m == prev[k] + EventsOn(incoming, k);
    assert m[..|prev[k]|] == prev[k];
  }

  /** The event shown for a synced Google event under date key `key`. */
  function SyncedEvent(a: CalendarSyncApi.AppEvent, key: string): (e: CalendarEvent)
    ensures e.id == "google-" + a.id && e.title == a.title && e.date == key
    ensures e.kind == Reminder && e.person == Some("both") && e.priority.None?
  {
    CalendarEvent("google-" + a.id, a.title, key, Reminder, None, Some("both"))
  }

  /** `new Date(start).toISOString().split('T')[0]` succeeds for every event.
      The conversion depends on the time zone, so it is a parameter; `None`
      stands for an invalid date, on which `toISOString` throws. */
  predicate AllDated(es: seq<CalendarSyncApi.AppEvent>, dateKey: Option<string> -> Option<string>) {
    forall i :: 0 <= i < |es| ==> dateKey(es[i].start).Some?
  }

  function SyncedEvents(es: seq<CalendarSyncApi.AppEvent>, dateKey: Option<string> -> Option<string>): (r: seq<CalendarEvent>)
    requires AllDated(es, dateKey)
    ensures |r| == |es|
    ensures forall i :: 0 <= i < |es| ==> r[i] == SyncedEvent(es[i], dateKey(es[i].start).value)
  {
    seq(|es|, i requires 0 <= i < |es| && dateKey(es[i].start).Some? => SyncedEvent(es[i], dateKey(es[i].start).value))
  }

  /** The events after `syncGoogleCalendar`. Nothing changes without a
      session token, without an `events` field in the answer, or when some
      start date is invalid (the exception is caught before the merge). */
  function SyncResult(prev: DayEvents, token: Option<string>, response: Option<seq<CalendarSyncApi.AppEvent>>,
                      dateKey: Option<string> -> Option<string>): DayEvents
  {
    if !Present(token) || response.None? || !AllDated(response.value, dateKey) then prev
    else Merge(prev, Group(map[], SyncedEvents(response.value, dateKey)))
  }

  /** A sync appends the synced events of each date after the events that
      date already had, and leaves every other date alone. */
  lemma SyncAppends(prev: DayEvents, token: Option<string>, response: Option<seq<CalendarSyncApi.AppEvent>>,
                    dateKey: Option<string> -> Option<string>, key: string)
    requires Present(token) && response.Some? && AllDated(response.value, dateKey)
    ensures var es := SyncedEvents(response.value, dateKey);
      EventsOn(SyncResult(prev, token, response, dateKey), key) == EventsOn(prev, key) + Dated(es, key)
  {
    var es := SyncedEvents(response.value, dateKey);
    MergeGroup(prev, es);
    GroupSpec(prev, es, key);
  }

  /** The grouping loop of `syncGoogleCalendar`; `None` when some start date
      is invalid, since the exception abandons the loop. */
  method GroupSynced(es: seq<CalendarSyncApi.AppEvent>, dateKey: Option<string> -> Option<string>)
    returns (r: Option<DayEvents>)
    ensures r.Some? <==> AllDated(es, dateKey)
    ensures r.Some? ==> r.value == Group(map[], SyncedEvents(es, dateKey))
  {
    var google: DayEvents := map[];
    ghost var done: seq<CalendarEvent> := [];
    var i := 0;
    while i < |es|
      invariant 0 <= i <= |es|
      invariant AllDated(es[..i], dateKey)
      invariant done == SyncedEvents(es[..i], dateKey)
      invariant google == Group(map[], done)
    {
      var key := dateKey(es[i].start);
      if key.None? {
        assert !AllDated(es, dateKey);
        return None;
      }
      var e := SyncedEvent(es[i], key.value);
      SyncedSnoc(es, i, dateKey);
      GroupSnoc(map[], done, e);
      if e.date !in google {
        google := google[e.date := []];
      }
      google := google[e.date := google[e.date] + [e]];
      done := done + [e];
      i := i + 1;
    }
    assert es[..|es|] == es;
    return Some(google);
  }

  /** Converting one more event appends its calendar entry. */
  lemma SyncedSnoc(es: seq<CalendarSyncApi.AppEvent>, i: int, dateKey: Option<string> -> Option<string>)
    requires 0 <= i < |es| && AllDated(es[..i], dateKey) && dateKey(es[i].start).Some?
    ensures AllDated(es[..i + 1], dateKey)
    ensures SyncedEvents(es[..i + 1], dateKey)
         == SyncedEvents(es[..i], dateKey) + [SyncedEvent(es[i], dateKey(es[i].start).value)]
  {
    assert forall j :: 0 <= j < i ==> es[..i + 1][j] == es[..i][j];
  }

  /** Grouping one more event appends it to its date's list. */
  lemma GroupSnoc(d: DayEvents, es: seq<CalendarEvent>, e: CalendarEvent)
    ensures Group(d, es + [e]) == Group(d, es)[e.date := EventsOn(Group(d, es), e.date) + [e]]
  {
    assert (es + [e])[..|es|] == es;
  }

  /** The merging loop of `syncGoogleCalendar`, one incoming date at a time. */
  method MergeInto(prev: DayEvents, incoming: DayEvents) returns (merged: DayEvents)
    ensures merged == Merge(prev, incoming)
  {
    merged := prev;
    var keys := incoming.Keys;
    while keys != {}
      invariant MergeInv(prev, incoming, merged, keys)
      decreases |keys|
    {
      var k :| k in keys;
      MergeStep(prev, incoming, merged, keys, k);
      merged := merged[k := EventsOn(merged, k) + incoming[k]];
      keys := keys - {k};
    }
    MergeDone(prev, incoming, merged);
  }

  /** The loop invariant of `MergeInto`: the dates already merged hold
      their previous and incoming events, the others their previous ones. */
  ghost predicate MergeInv(prev: DayEvents, incoming: DayEvents, merged: DayEvents, keys: set<string>) {
    && keys <= incoming.Keys
    && (forall k :: k in merged <==> k in prev || (k in incoming && k !in keys))
    && (forall k :: k in merged ==> merged[k] == EventsOn(prev, k) + Pending(incoming, keys, k))
  }

  lemma MergeStep(prev: DayEvents, incoming: DayEvents, merged: DayEvents, keys: set<string>, k: string)
    requires MergeInv(prev, incoming, merged, keys) && k in keys
    ensures MergeInv(prev, incoming, merged[k := EventsOn(merged, k) + incoming[k]], keys - {k})
  {
    assert EventsOn(merged, k) == EventsOn(prev, k) by {
      if k in merged {
        assert Pending(incoming, keys, k) == [];
      }
    }
    PendingStep(incoming, keys, k);
  }

  lemma MergeDone(prev: DayEvents, incoming: DayEvents, merged: DayEvents)
    requires MergeInv(prev, incoming, merged, {})
    ensures merged == Merge(prev, incoming)
  {
    forall k | k in merged
      ensures merged[k] == EventsOn(prev, k) + EventsOn(incoming, k)
    {
      assert Pending(incoming, {}, k) == EventsOn(incoming, k);
    }
    MergeExtensional(prev, incoming, merged);
  }

  /** A map with the keys and lists of the merge is the merge. */
  lemma MergeExtensional(prev: DayEvents, incoming: DayEvents, merged: DayEvents)
    requires forall k :: k in merged <==> k in prev || k in incoming
    requires forall k :: k in merged ==> merged[k] == EventsOn(prev, k) + EventsOn(incoming, k)
    ensures merged == Merge(prev, incoming)
  {
    var target := Merge(prev, incoming);
    assert merged.Keys == target.Keys;
  }

  /** Merging date `k` makes its incoming events pending and leaves the
      other dates as they were. */
  lemma PendingStep(incoming: DayEvents, keys: set<string>, k: string)
    requires k in keys && keys <= incoming.Keys
    ensures Pending(incoming, keys - {k}, k) == incoming[k]
    ensures forall k2 :: k2 != k ==> Pending(incoming, keys - {k}, k2) == Pending(incoming, keys, k2)
  {
  }

  /** The incoming events of `k` once `k` has been merged, none before. */
  function Pending(incoming: DayEvents, remaining: set<string>, k: string): seq<CalendarEvent> {
    if k in incoming && k !in remaining then incoming[k] else []
  }

  // ---------------------------------------------------------------------
  // Colours and cells

  /** `getEventColor`. */
  function EventColor(e: CalendarEvent): (c: string)
    ensures c in {"bg-green-500", "bg-pink-500", "bg-blue-500", "bg-red-500",
                  "bg-orange-500", "bg-yellow-500", "bg-purple-500", "bg-gray-500"}
  {
    if e.person == Some("you") then "bg-green-500"
    else if e.person == Some("girlfriend") then "bg-pink-500"
    else if e.person == Some("both") then "bg-blue-500"
    else if e.kind == Meal then "bg-blue-500"
    else if e.kind == Task then
      match e.priority
      case Some("urgent") => "bg-red-500"
      case Some("high") => "bg-orange-500"
      case Some("medium") => "bg-yellow-500"
      case _ => "bg-purple-500"
    else "bg-gray-500"
  }

  /** A family member's colour wins over the event's type and priority. */
  lemma PersonTakesPrecedence(e: CalendarEvent)
    ensures e.person == Some("you") ==> EventColor(e) == "bg-green-500"
    ensures e.person == Some("girlfriend") ==> EventColor(e) == "bg-pink-500"
    ensures e.person == Some("both") ==> EventColor(e) == "bg-blue-500"
  {
  }

  /** Without a recognised person: meals are blue, tasks are coloured by
      priority, and everything else is gray. */
  lemma ColorByType(e: CalendarEvent)
    requires e.person !in {Some("you"), Some("girlfriend"), Some("both")}
    ensures e.kind == Meal ==> EventColor(e) == "bg-blue-500"
    ensures e.kind == Task ==>
      (EventColor(e) ==
        if e.priority == Some("urgent") then "bg-red-500"
        else if e.priority == Some("high") then "bg-orange-500"
        else if e.priority == Some("medium") then "bg-yellow-500"
        else "bg-purple-500")
    ensures e.kind == Reminder ==> EventColor(e) == "bg-gray-500"
  {
  }

  /** Every synced event and every meal is drawn blue. */
  lemma SyncedAndMealsAreBlue(a: CalendarSyncApi.AppEvent, key: string, m: MealRecord)
    ensures EventColor(SyncedEvent(a, key)) == "bg-blue-500"
    ensures EventColor(MealEvent(m)) == "bg-blue-500"
  {
  }

  /** What one day cell draws: the first events, and the overflow tag. */
  datatype Cell = Cell(shown: seq<CalendarEvent>, more: Option<string>)

  function DayCell(d: DayEvents, key: string): (c: Cell)
    ensures var es := EventsOn(d, key);
      && |c.shown| == (if |es| < 4 then |es| else 4)
      && c.shown == es[..|c.shown|]
      && (c.more.Some? <==> |es| > 4)
  {
    var es := EventsOn(d, key);
    Cell(es[..if |es| < 4 then |es| else 4],
         if |es| > 4 then Some("+" + NatToString(|es| - 4) + " more") else None)
  }

  /** The tag counts exactly the events that are not drawn: the number it
      shows plus the four drawn events is the day's event count. */
  lemma DayCellAccounts(d: DayEvents, key: string)
    requires |EventsOn(d, key)| > 4
    ensures var tag := DayCell(d, key).more.value;
      && |tag| >= 7 && tag[0] == '+' && tag[|tag| - 5..] == " more"
      && AllDigits(tag[1..|tag| - 5])
      && |DayCell(d, key).shown| + DigitsValue(tag[1..|tag| - 5]) == |EventsOn(d, key)|
  {
    var n := |EventsOn(d, key)| - 4;
    var tag := DayCell(d, key).more.value;
    assert tag == "+" + NatToString(n) + " more";
    assert tag[1..|tag| - 5] == NatToString(n);
    NatToStringRoundTrip(n);
  }

  // ---------------------------------------------------------------------
  // Civil dates as serial day numbers (day 0 is 1970-01-01)

  /** The serial day number of year `y`, month `m` (1 to 12), day `d`, in the
      proleptic Gregorian calendar. */
  function DaysFromCivil(y: int, m: int, d: int): int {
    var yy := if m <= 2 then y - 1 else y;
    var era := yy / 400;
    var yoe := yy - era * 400;
    var mp := if m > 2 then m - 3 else m + 9;
    var doy := (153 * mp + 2) / 5 + d - 1;
    var doe := yoe * 365 + yoe / 4 - yoe / 100 + doy;
    era * 146097 + doe - 719468
  }

  /** `Date.getDay()` for a serial day number: 0 is Sunday. */
  function Weekday(z: int): (w: int)
    ensures 0 <= w < 7
  {
    (z + 4) % 7
  }

  /** 1970-01-01 is day 0, a Thursday; the days of a month are consecutive. */
  lemma CivilAnchors(y: int, m: int, d: int)
    ensures DaysFromCivil(1970, 1, 1) == 0 && Weekday(0) == 4
    ensures DaysFromCivil(y, m, d) == DaysFromCivil(y, m, 1) + d - 1
  {
  }

  /** The grid of a month starts on the Sunday on or before its 1st, and
      42 days from there reach past its last day. */
  lemma GridStart(y: int, m: int, start: int)
    requires 1 <= m <= 12
    requires start == DaysFromCivil(y, m, 1) - Weekday(DaysFromCivil(y, m, 1))
    ensures Weekday(start) == 0
    ensures start <= DaysFromCivil(y, m, 1) <= start + 6
    ensures DaysFromCivil(y, m, MonthLength(y, m)) <= start + 41
  {
    SundayOnOrBefore(DaysFromCivil(y, m, 1));
    CivilAnchors(y, m, MonthLength(y, m));
  }

  /** Going back `Weekday(z)` days from day `z` lands on a Sunday. */
  lemma SundayOnOrBefore(z: int)
    ensures Weekday(z - Weekday(z)) == 0
  {
    var q := (z + 4) / 7;
    assert z + 4 == 7 * q + Weekday(z);
  }

  /** A run of 42 consecutive days that starts no later than the 1st of a
      month and ends no earlier than its last day holds every day of it. */
  lemma GridCoversMonth(days: seq<int>, y: int, m: int, d: int)
    requires 1 <= m <= 12 && 1 <= d <= MonthLength(y, m)
    requires |days| == 42 && forall i :: 0 < i < 42 ==> days[i] == days[i - 1] + 1
    requires days[0] <= DaysFromCivil(y, m, 1) && DaysFromCivil(y, m, MonthLength(y, m)) <= days[41]
    ensures DaysFromCivil(y, m, d) in days
  {
    var k := 0;
    while k < 42
      invariant 0 <= k <= 42
      invariant forall j :: 0 <= j < k ==> days[j] == days[0] + j
    {
      if k > 0 {
        assert days[k] == days[k - 1] + 1;
      }
      k := k + 1;
    }
    CivilAnchors(y, m, d);
    CivilAnchors(y, m, MonthLength(y, m));
    assert days[DaysFromCivil(y, m, d) - days[0]] == DaysFromCivil(y, m, d);
  }

  function IsLeapYear(y: int): bool {
    y % 4 == 0 && (y % 100 != 0 || y % 400 == 0)
  }

  /** The number of days of month `m` (1 to 12) of year `y`. */
  function MonthLength(y: int, m: int): (n: int)
    requires 1 <= m <= 12
    ensures 28 <= n <= 31
  {
    if m == 2 then (if IsLeapYear(y) then 29 else 28)
    else if m in {4, 6, 9, 11} then 30
    else 31
  }

  /** The 1st of the next month comes one month length after the 1st of a
      month, so `MonthLength` (with its leap-year rule for February) agrees
      with the day numbering. */
  lemma NextMonthStart(y: int, m: int)
    requires 1 <= m <= 12
    ensures m < 12 ==> DaysFromCivil(y, m + 1, 1) == DaysFromCivil(y, m, 1) + MonthLength(y, m)
    ensures m == 12 ==> DaysFromCivil(y + 1, 1, 1) == DaysFromCivil(y, 12, 1) + 31
  {
    if m == 12 {
      DecemberToJanuary(y);
    } else if m == 2 {
      FebruaryToMarch(y);
    } else {
      WithinMarchYear(y, m);
    }
  }

  lemma DecemberToJanuary(y: int)
    ensures DaysFromCivil(y + 1, 1, 1) == DaysFromCivil(y, 12, 1) + 31
  {
    SameMarchYear(y, 12, y + 1, 1);
    assert MonthStartInMarchYear(1) - MonthStartInMarchYear(12) == 31;
  }

  /** Months other than February and December are followed by a month of
      the same March-based year. */
  lemma WithinMarchYear(y: int, m: int)
    requires 1 <= m < 12 && m != 2
    ensures DaysFromCivil(y, m + 1, 1) == DaysFromCivil(y, m, 1) + MonthLength(y, m)
  {
    SameMarchYear(y, m, y, m + 1);
    assert MonthStartInMarchYear(m + 1) - MonthStartInMarchYear(m) == MonthLength(y, m);
  }

  /** March 1st follows February 1st by 29 days in a leap year and by 28
      otherwise: the day numbering counts a 29 February exactly in the years
      `IsLeapYear` accepts. */
  lemma FebruaryToMarch(y: int)
    ensures DaysFromCivil(y, 3, 1) == DaysFromCivil(y, 2, 1) + MonthLength(y, 2)
  {
    MarchYearStarts(y);
    FebruaryGap(y);
  }

  /** The gap between February 1st and March 1st of `y`, counted in eras
      and years of era. */
  lemma FebruaryGap(y: int)
    ensures (y / 400) * 146097 + YearStartInEra(y % 400)
            - (((y - 1) / 400) * 146097 + YearStartInEra((y - 1) % 400) + 337) == MonthLength(y, 2)
  {
    var era, yoe := (y - 1) / 400, (y - 1) % 400;
    EraStep(y);
    if yoe == 399 {
      LeapInEra(y, era + 1, 0);
      assert YearStartInEra(399) == 145731 && YearStartInEra(0) == 0;
      assert (era + 1) * 146097 == era * 146097 + 146097;
    } else {
      NextYearInEra(yoe);
      LeapInEra(y, era, yoe + 1);
    }
  }

  /** The day within its 400-year era on which March-based year `yoe` of
      the era starts. */
  function YearStartInEra(yoe: int): int {
    yoe * 365 + yoe / 4 - yoe / 100
  }

  /** February 1st and March 1st of `y` in terms of the era and year of era
      of their March-based years (`y - 1` and `y`). */
  lemma MarchYearStarts(y: int)
    ensures DaysFromCivil(y, 2, 1) == ((y - 1) / 400) * 146097 + YearStartInEra((y - 1) % 400) + 337 - 719468
    ensures DaysFromCivil(y, 3, 1) == (y / 400) * 146097 + YearStartInEra(y % 400) - 719468
  {
    assert (y - 1) - ((y - 1) / 400) * 400 == (y - 1) % 400;
    assert y - (y / 400) * 400 == y % 400;
  }

  /** From year `y - 1` to year `y` the year of the era goes up by one, or
      wraps from 399 to 0 at the start of a new era. */
  lemma EraStep(y: int)
    ensures (y - 1) % 400 == 399 ==> y / 400 == (y - 1) / 400 + 1 && y % 400 == 0
    ensures (y - 1) % 400 != 399 ==> y / 400 == (y - 1) / 400 && y % 400 == (y - 1) % 400 + 1
  {
    var q, r := (y - 1) / 400, (y - 1) % 400;
    assert y == 400 * q + r + 1;
    if r == 399 {
      assert y == 400 * (q + 1) + 0;
    }
  }

  /** A year of an era is 365 days, plus a leap day at every fourth year
      and minus one at every hundredth. */
  lemma NextYearInEra(k: int)
    requires 0 <= k < 399
    ensures YearStartInEra(k + 1) - YearStartInEra(k) ==
      365 + (if (k + 1) % 4 == 0 then 1 else 0) - (if (k + 1) % 100 == 0 then 1 else 0)
  {
  }

  /** Within an era the leap rule depends only on the year of the era. */
  lemma LeapInEra(y: int, era: int, k: int)
    requires y == era * 400 + k && 0 <= k < 400
    ensures IsLeapYear(y) <==> k % 4 == 0 && (k % 100 != 0 || k == 0)
  {
    RemainderBy4(y, era * 100 + k / 4, k % 4);
    RemainderBy100(y, era * 4 + k / 100, k % 100);
    RemainderBy400(y, era, k);
  }

  lemma RemainderBy4(a: int, q: int, r: int)
    requires a == 4 * q + r && 0 <= r < 4
    ensures a % 4 == r
  {
  }

  lemma RemainderBy100(a: int, q: int, r: int)
    requires a == 100 * q + r && 0 <= r < 100
    ensures a % 100 == r
  {
  }

  lemma RemainderBy400(a: int, q: int, r: int)
    requires a == 400 * q + r && 0 <= r < 400
    ensures a % 400 == r
  {
  }

  /** The day of the March-based year on which month `m` starts. */
  function MonthStartInMarchYear(m: int): int {
    var mp := if m > 2 then m - 3 else m + 9;
    (153 * mp + 2) / 5
  }

  /** Two 1sts in the same March-based year are as far apart as their
      positions in that year. */
  lemma SameMarchYear(y1: int, m1: int, y2: int, m2: int)
    requires (if m1 <= 2 then y1 - 1 else y1) == (if m2 <= 2 then y2 - 1 else y2)
    ensures DaysFromCivil(y2, m2, 1) - DaysFromCivil(y1, m1, 1) == MonthStartInMarchYear(m2) - MonthStartInMarchYear(m1)
  {
  }

  /** A `(year, month index)` pair moved by `delta` months, the month index
      counting from 0 as `Date.getMonth()` does. */
  function ShiftMonth(year: int, month: int, delta: int): (r: (int, int))
    requires 0 <= month < 12
    ensures 0 <= r.1 < 12
    ensures r.0 * 12 + r.1 == year * 12 + month + delta
  {
    var index := year * 12 + month + delta;
    (index / 12, index % 12)
  }

  /** Going back a month undoes going forward a month, and vice versa. */
  lemma ShiftMonthInverse(year: int, month: int)
    requires 0 <= month < 12
    ensures var (y1, m1) := ShiftMonth(year, month, 1); ShiftMonth(y1, m1, -1) == (year, month)
    ensures var (y1, m1) := ShiftMonth(year, month, -1); ShiftMonth(y1, m1, 1) == (year, month)
  {
    var (y1, m1) := ShiftMonth(year, month, 1);
    ShiftMonthUnique(ShiftMonth(y1, m1, -1), (year, month));
    var (y2, m2) := ShiftMonth(year, month, -1);
    ShiftMonthUnique(ShiftMonth(y2, m2, 1), (year, month));
  }

  /** A month index determines the year and the month. */
  lemma ShiftMonthUnique(a: (int, int), b: (int, int))
    requires 0 <= a.1 < 12 && 0 <= b.1 < 12
    requires a.0 * 12 + a.1 == b.0 * 12 + b.1
    ensures a == b
  {
  }

  // ---------------------------------------------------------------------
  // The page state

  /** The calendar state of the page: the displayed month, the selected day
      and the events by date key. */
  class Dashboard {
    var year: int
    /** 0 for January through 11 for December. */
    var month: int
    var selectedDay: Option<string>
    var events: DayEvents

    ghost predicate Valid()
      reads this
    {
      0 <= month < 12
    }

    /** The initial state: the month of `today`, nothing selected, no events. */
    constructor(todayYear: int, todayMonth: int)
      requires 0 <= todayMonth < 12
      ensures Valid()
      ensures year == todayYear && month == todayMonth
      ensures selectedDay == None && events == map[]
    {
      year := todayYear;
      month := todayMonth;
      selectedDay := None;
      events := map[];
    }

    /** `navigateMonth`: one month forward or back, clearing the selection. */
    method NavigateMonth(next: bool)
      requires Valid()
      modifies this
      ensures Valid()
      ensures (year, month) == ShiftMonth(old(year), old(month), if next then 1 else -1)
      ensures selectedDay == None && events == old(events)
    {
      var (y, m) := ShiftMonth(year, month, if next then 1 else -1);
      year, month := y, m;
      selectedDay := None;
    }

    /** `getDaysInMonth`: 42 consecutive serial days, starting on the Sunday
        on or before the 1st of the displayed month and reaching past its
        last day. */
    method MonthGrid() returns (days: seq<int>)
      requires Valid()
      ensures |days| == 42
      ensures forall i :: 0 < i < 42 ==> days[i] == days[i - 1] + 1
      ensures Weekday(days[0]) == 0
      ensures days[0] <= DaysFromCivil(year, month + 1, 1) <= days[0] + 6
      ensures DaysFromCivil(year, month + 1, MonthLength(year, month + 1)) <= days[41]
    {
      var first := DaysFromCivil(year, month + 1, 1);
      var start := first - Weekday(first);
      GridStart(year, month + 1, start);
      days := [];
      var i := 0;
      while i < 42
        invariant 0 <= i <= 42
        invariant |days| == i
        invariant forall j :: 0 <= j < i ==> days[j] == start + j
      {
        days := days + [start + i];
        i := i + 1;
      }
    }

    /** `fetchAllEvents`: the fetched meals and tasks replace the events. */
    method FetchAllEvents(meals: Option<seq<MealRecord>>, tasks: Option<seq<TaskRecord>>)
      requires Valid()
      modifies this
      ensures Valid()
      ensures events == FetchedEvents(meals, tasks)
      ensures year == old(year) && month == old(month) && selectedDay == old(selectedDay)
    {
      var all := AppendAll(map[], MealEvents(meals));
      all := AppendAll(all, TaskEvents(tasks));
      events := all;
    }

    /** `syncGoogleCalendar`, given the session token, the `events` field of
        the sync endpoint's answer, and the date-key conversion. */
    method SyncGoogleCalendar(token: Option<string>, response: Option<seq<CalendarSyncApi.AppEvent>>,
                              dateKey: Option<string> -> Option<string>)
      requires Valid()
      modifies this
      ensures Valid()
      ensures events == SyncResult(old(events), token, response, dateKey)
      ensures year == old(year) && month == old(month) && selectedDay == old(selectedDay)
    {
      if !Present(token) || response.None? {
        return;
      }
      var google := GroupSynced(response.value, dateKey);
      if google.None? {
        return;
      }
      var merged := MergeInto(events, google.value);
      events := merged;
    }
  }
}
