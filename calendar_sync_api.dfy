/** The calendar sync endpoint (src/pages/api/google-calendar/sync.ts): the
    method and session checks and the transform of Google Calendar events
    into the app's event shape. */
module CalendarSyncApi {
  import opened Common

  /** A `start` or `end` object of a Google Calendar event. */
  datatype EventTime = EventTime(dateTime: Option<string>, date: Option<string>)

  /** The fields of a Google Calendar event the transform reads. */
  datatype GoogleEvent = GoogleEvent(
    id: string,
    summary: Option<string>,
    start: Option<EventTime>,
    end: Option<EventTime>,
    description: Option<string>,
    location: Option<string>)

  /** An event as the endpoint returns it. */
  datatype AppEvent = AppEvent(
    id: string,
    title: string,
    start: Option<string>,
    end: Option<string>,
    description: Option<string>,
    location: Option<string>,
    source: string)

  /** `t?.dateTime || t?.date`: the timed field when it is non-empty, the
      date-only field otherwise. */
  function TimeOf(t: Option<EventTime>): (r: Option<string>)
    ensures t.None? ==> r.None?
    ensures t.Some? && Present(t.value.dateTime) ==> r == t.value.dateTime
    ensures t.Some? && !Present(t.value.dateTime) ==> r == t.value.date
  {
    if t.None? then None
    else if Present(t.value.dateTime) then t.value.dateTime
    else t.value.date
  }

  function Transform(e: GoogleEvent): (a: AppEvent)
    ensures a.id == e.id && a.source == "google"
    ensures a.title != ""
    ensures a.title == if Present(e.summary) then e.summary.value else "Untitled Event"
    ensures a.start == TimeOf(e.start) && a.end == TimeOf(e.end)
    ensures a.description == e.description && a.location == e.location
  {
    AppEvent(e.id, OrElse(e.summary, "Untitled Event"), TimeOf(e.start), TimeOf(e.end),
             e.description, e.location, "google")
  }

  /** `events.map(...)`: one record per event, in the same order. */
  function TransformAll(es: seq<GoogleEvent>): (r: seq<AppEvent>)
    ensures |r| == |es|
    ensures forall i :: 0 <= i < |es| ==> r[i] == Transform(es[i])
  {
    seq(|es|, i requires 0 <= i < |es| => Transform(es[i]))
  }

  /** The transform works event by event: transforming two lists one after
      the other is transforming their concatenation. */
  lemma TransformAllAppend(a: seq<GoogleEvent>, b: seq<GoogleEvent>)
    ensures TransformAll(a + b) == TransformAll(a) + TransformAll(b)
  {
    var l, r := TransformAll(a + b), TransformAll(a) + TransformAll(b);
    assert |l| == |r|;
    forall i | 0 <= i < |l| ensures l[i] == r[i] {
      if i < |a| {
        assert (a + b)[i] == a[i];
      } else {
        assert (a + b)[i] == b[i - |a|];
      }
    }
  }

  /** The ids of the output are the ids of the input, in order. */
  lemma IdsPreserved(es: seq<GoogleEvent>, i: int)
    requires 0 <= i < |es|
    ensures TransformAll(es)[i].id == es[i].id && TransformAll(es)[i].source == "google"
  {
  }

  /** The result of the server-side session lookup. */
  datatype SessionLookup = SessionThrew | Session(accessToken: Option<string>)

  /** `{events}` on 200, `{message}` otherwise. */
  datatype SyncResponse = SyncResponse(status: int, events: Option<seq<AppEvent>>, message: Option<string>)

  /** The response of the handler. `fetched` is what the calendar library
      returns for the session's token; that library turns its own failures
      into an empty list, so only the session lookup can throw here. */
  function Handle(verb: string, session: SessionLookup, fetched: seq<GoogleEvent>): (r: SyncResponse)
    ensures verb != "GET" ==> r == SyncResponse(405, None, Some("Method not allowed"))
    ensures verb == "GET" && session.SessionThrew? ==> r == SyncResponse(500, None, Some("Error syncing calendar"))
    ensures verb == "GET" && session.Session? && !Present(session.accessToken) ==>
      r == SyncResponse(401, None, Some("Not authenticated"))
    ensures r.status == 200 <==> verb == "GET" && session.Session? && Present(session.accessToken)
    ensures r.status == 200 ==> r.events == Some(TransformAll(fetched)) && r.message.None?
    ensures r.events.Some? <==> r.status == 200
  {
    if verb != "GET" then SyncResponse(405, None, Some("Method not allowed"))
    else if session.SessionThrew? then SyncResponse(500, None, Some("Error syncing calendar"))
    else if !Present(session.accessToken) then SyncResponse(401, None, Some("Not authenticated"))
    else SyncResponse(200, Some(TransformAll(fetched)), None)
  }

  /** Without an access token the calendar is never read: the response does
      not depend on what the library would have returned. */
  lemma UnauthenticatedIgnoresCalendar(verb: string, session: SessionLookup, f1: seq<GoogleEvent>, f2: seq<GoogleEvent>)
    requires !(session.Session? && Present(session.accessToken))
    ensures Handle(verb, session, f1) == Handle(verb, session, f2)
    ensures Handle(verb, session, f1).events.None?
  {
  }
}
