/**
 * The event server actions (app/actions/events.actions.ts) as pure functions over
 * an explicit store. The database is a map from event id to event; the session is
 * an optional user id passed in; ids and timestamps the database would generate
 * are parameters. An action that throws in timewise returns `Failure` here and
 * produces no new store, so a failing action writes nothing.
 */
module EventActions {
  import opened Wrappers
  import opened EventTypes

  type Store = map<EventId, Event>

  /** Every stored event is filed under its own id. */
  predicate WellKeyed(store: Store) {
    forall k :: k in store ==> store[k].id == k
  }

  /** The fields the event schema checks, in the schema's key order. */
  datatype EventField = Title | StartTime | EndTime | PriorityField

  /** What an action throws. */
  datatype ActionError =
    | Unauthorized                    // no user id in the session
    | Invalid(issues: seq<EventField>) // the schema rejected the form, one issue per failing field
    | NotFoundOrForbidden             // no such event, or it belongs to someone else
    | DuplicateId                     // the database refused an id it already holds

  /** Resolves the acting user; a missing session, a missing user or an empty (falsy) id is refused. */
  function GetUserId(session: Option<UserId>): (r: Result<UserId, ActionError>)
    ensures r.Success? <==> session.Some? && session.value != ""
    ensures r.Success? ==> r.value == session.value
    ensures r.Failure? ==> r.error == Unauthorized
  {
    if session.None? || session.value == "" then Failure(Unauthorized)
    else Success(session.value)
  }

  /** A submitted event form. For the title, the times and the priority, `None` is a
      field the form did not carry. For the description, `None` stands for an
      undefined value (no description given), which the store's update ignores. */
  datatype EventInput = EventInput(
    title: Option<string>,
    description: Option<string>,
    startTime: Option<Instant>,
    endTime: Option<Instant>,
    priority: Option<string>)

  /** The form that submits exactly the given fields. */
  function FormOf(f: EventFields): EventInput {
    EventInput(Some(f.title), f.description, Some(f.startTime), Some(f.endTime), Some(PriorityName(f.priority)))
  }

  /** Position of a field in the schema's key order. */
  function KeyRank(f: EventField): nat {
    match f
    case Title => 0
    case StartTime => 1
    case EndTime => 2
    case PriorityField => 3
  }

  /** The schema's issues, in key order: a title must be a non-empty string, the
      times must be present, the priority must spell one of the three names. */
  function EventIssues(input: EventInput): (issues: seq<EventField>)
    ensures issues == [] <==>
      && input.title.Some? && input.title.value != ""
      && input.startTime.Some? && input.endTime.Some?
      && input.priority.Some? && (exists p :: PriorityName(p) == input.priority.value)
    ensures (Title in issues) <==> !(input.title.Some? && input.title.value != "")
    ensures (StartTime in issues) <==> input.startTime.None?
    ensures (EndTime in issues) <==> input.endTime.None?
    ensures (PriorityField in issues) <==> !(input.priority.Some? && exists p :: PriorityName(p) == input.priority.value)
    ensures forall i, j :: 0 <= i < j < |issues| ==> KeyRank(issues[i]) < KeyRank(issues[j])
  {
    var title := if input.title.Some? && input.title.value != "" then [] else [Title];
    var start := if input.startTime.Some? then [] else [StartTime];
    var end := if input.endTime.Some? then [] else [EndTime];
    var priority := if input.priority.Some? && ParsePriority(input.priority.value).Some? then [] else [PriorityField];
    title + start + end + priority
  }

  /** Validates a form; on success the fields are exactly what the form carried. */
  function ParseEventData(input: EventInput): (r: Result<EventFields, ActionError>)
    ensures r.Success? <==> EventIssues(input) == []
    ensures r.Failure? ==> r.error == Invalid(EventIssues(input)) && r.error.issues != []
    ensures r.Success? ==> r.value.title != "" && FormOf(r.value) == input
  {
    var issues := EventIssues(input);
    if issues != [] then Failure(Invalid(issues))
    else
      Success(EventFields(
        input.title.value,
        input.description,
        input.startTime.value,
        input.endTime.value,
        ParsePriority(input.priority.value).value))
  }

  /** Any field set with a non-empty title survives the trip through a form. */
  lemma ParseFormOf(f: EventFields)
    requires f.title != ""
    ensures ParseEventData(FormOf(f)) == Success(f)
  {
  }

  /** A missing or empty title is reported as a title issue. */
  lemma EmptyTitleRejected(input: EventInput)
    requires input.title.None? || input.title == Some("")
    ensures ParseEventData(input).Failure?
    ensures Title in ParseEventData(input).error.issues
  {
  }

  /** A missing priority, or one that is not NORMAL, IMPORTANT or CRITICAL, is reported. */
  lemma UnknownPriorityRejected(input: EventInput)
    requires input.priority.Some? ==> forall p :: PriorityName(p) != input.priority.value
    ensures ParseEventData(input).Failure?
    ensures PriorityField in ParseEventData(input).error.issues
  {
  }

  /** The store's update with validated fields: the four required fields are
      replaced, an absent description leaves the stored one alone, and the id,
      owner and timestamps are kept. */
  function Patch(e: Event, f: EventFields): (r: Event)
    ensures r.id == e.id && r.userId == e.userId
    ensures r.createdAt == e.createdAt && r.updatedAt == e.updatedAt
    ensures f.description.Some? ==> FieldsOf(r) == f
    ensures f.description.None? ==> FieldsOf(r) == f.(description := e.description)
  {
    e.(title := f.title,
       description := if f.description.Some? then f.description else e.description,
       startTime := f.startTime,
       endTime := f.endTime,
       priority := f.priority)
  }

  /** createEvent: adds one event owned by the acting user, stamped `now`, under the
      id the database chose. */
  function CreateEvent(session: Option<UserId>, store: Store, input: EventInput, newId: EventId, now: Instant)
    : (r: Result<Store, ActionError>)
    ensures r.Success? <==>
      GetUserId(session).Success? && ParseEventData(input).Success? && newId !in store
    ensures GetUserId(session).Failure? ==> r == Failure(Unauthorized)
    ensures GetUserId(session).Success? && ParseEventData(input).Failure? ==> r == Failure(ParseEventData(input).error)
    ensures r.Failure? && GetUserId(session).Success? && ParseEventData(input).Success? ==> r.error == DuplicateId
    ensures r.Success? ==>
      && r.value.Keys == store.Keys + {newId}
      && |r.value| == |store| + 1
      && (forall k :: k in store ==> r.value[k] == store[k])
      && r.value[newId].id == newId
      && r.value[newId].userId == session.value
      && FieldsOf(r.value[newId]) == ParseEventData(input).value
      && r.value[newId].createdAt == now && r.value[newId].updatedAt == now
  {
    var uid := GetUserId(session);
    if uid.Failure? then Failure(uid.error)
    else
      var parsed := ParseEventData(input);
      if parsed.Failure? then Failure(parsed.error)
      else if newId in store then Failure(DuplicateId)
      else
        var f := parsed.value;
        Success(store[newId := Event(newId, f.title, f.description, f.priority, uid.value, f.startTime, f.endTime, now, now)])
  }

  /** The events a user owns. */
  function OwnedBy(store: Store, u: UserId): set<Event> {
    set e | e in store.Values && e.userId == u
  }

  /** Ascending by start time. */
  predicate SortedByStart(s: seq<Event>) {
    forall i, j :: 0 <= i < j < |s| ==> s[i].startTime <= s[j].startTime
  }

  /** Inserts an event in front of the first one that starts no earlier. */
  function InsertByStart(s: seq<Event>, e: Event): (r: seq<Event>)
    requires SortedByStart(s)
    ensures SortedByStart(r)
    ensures multiset(r) == multiset(s) + multiset{e}
    ensures forall x :: x in r ==> x in s || x == e
  {
    if |s| == 0 then [e]
    else if e.startTime <= s[0].startTime then [e] + s
    else
      var tail := InsertByStart(s[1..], e);
      SortedCons(s[0], tail);
      assert s == [s[0]] + s[1..];
      [s[0]] + tail
  }

  /** An event that starts no later than anything in a sorted list may go in front of it. */
  lemma SortedCons(h: Event, t: seq<Event>)
    requires SortedByStart(t)
    requires forall x :: x in t ==> h.startTime <= x.startTime
    ensures SortedByStart([h] + t)
  {
    var s := [h] + t;
    forall i, j | 0 <= i < j < |s|
      ensures s[i].startTime <= s[j].startTime
    {
      if i == 0 {
        assert s[j] == t[j - 1];
      } else {
        assert s[i] == t[i - 1] && s[j] == t[j - 1];
      }
    }
  }

  /** getEvents: the acting user's events by ascending start time. The result is the
      multiset of the set of owned events, so in a `WellKeyed` store (every store the
      actions can reach, see `RunKeepsWellKeyed`) each stored event appears once. */
  method GetEvents(session: Option<UserId>, store: Store) returns (r: Result<seq<Event>, ActionError>)
    ensures r.Success? <==> GetUserId(session).Success?
    ensures r.Failure? ==> r.error == Unauthorized
    ensures r.Success? ==> SortedByStart(r.value)
    ensures r.Success? ==> multiset(r.value) == multiset(OwnedBy(store, session.value))
  {
    var uid := GetUserId(session);
    if uid.Failure? {
      return Failure(uid.error);
    }
    var owned := OwnedBy(store, uid.value);
    var remaining := owned;
    var acc: seq<Event> := [];
    while remaining != {}
      invariant remaining <= owned
      invariant SortedByStart(acc)
      invariant multiset(acc) + multiset(remaining) == multiset(owned)
      decreases remaining
    {
      var e :| e in remaining;
      assert multiset(remaining) == multiset(remaining - {e}) + multiset{e};
      acc := InsertByStart(acc, e);
      remaining := remaining - {e};
    }
    return Success(acc);
  }

  /** updateEvent: only the owner may update, and only an event that exists; the
      ownership check comes before the form is validated. */
  function UpdateEvent(session: Option<UserId>, store: Store, id: EventId, input: EventInput)
    : (r: Result<Store, ActionError>)
    ensures r.Success? <==>
      && GetUserId(session).Success?
      && id in store && store[id].userId == session.value
      && ParseEventData(input).Success?
    ensures GetUserId(session).Failure? ==> r == Failure(Unauthorized)
    ensures GetUserId(session).Success? && (id !in store || store[id].userId != session.value) ==>
      r == Failure(NotFoundOrForbidden)
    ensures r.Failure? && GetUserId(session).Success? && id in store && store[id].userId == session.value ==>
      r == Failure(ParseEventData(input).error)
    ensures r.Success? ==>
      && r.value.Keys == store.Keys
      && (forall k :: k in store && k != id ==> r.value[k] == store[k])
      && r.value[id] == Patch(store[id], ParseEventData(input).value)
  {
    var uid := GetUserId(session);
    if uid.Failure? then Failure(uid.error)
    else if id !in store || store[id].userId != uid.value then Failure(NotFoundOrForbidden)
    else
      var parsed := ParseEventData(input);
      if parsed.Failure? then Failure(parsed.error)
      else Success(store[id := Patch(store[id], parsed.value)])
  }

  /** deleteEvent: only the owner may delete, and only an event that exists. */
  function DeleteEvent(session: Option<UserId>, store: Store, id: EventId): (r: Result<Store, ActionError>)
    ensures r.Success? <==>
      GetUserId(session).Success? && id in store && store[id].userId == session.value
    ensures GetUserId(session).Failure? ==> r == Failure(Unauthorized)
    ensures GetUserId(session).Success? && r.Failure? ==> r.error == NotFoundOrForbidden
    ensures r.Success? ==>
      && r.value.Keys == store.Keys - {id}
      && |r.value| == |store| - 1
      && (forall k :: k in r.value ==> r.value[k] == store[k])
  {
    var uid := GetUserId(session);
    if uid.Failure? then Failure(uid.error)
    else if id !in store || store[id].userId != uid.value then Failure(NotFoundOrForbidden)
    else Success(store - {id})
  }

  /** Deleting the event one has just created restores the store exactly. */
  lemma CreateThenDeleteRestores(session: Option<UserId>, store: Store, input: EventInput, newId: EventId, now: Instant)
    requires CreateEvent(session, store, input, newId, now).Success?
    ensures DeleteEvent(session, CreateEvent(session, store, input, newId, now).value, newId) == Success(store)
  {
    var created := CreateEvent(session, store, input, newId, now).value;
    assert created - {newId} == store;
  }
}
