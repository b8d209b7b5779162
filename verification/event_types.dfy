/** The calendar's event record and its priority enum (types/Event.ts). */
module EventTypes {
  import opened Wrappers

  type EventId = string
  type UserId = string

  /** Instants are abstract integers; parsing date strings is not modelled. */
  type Instant = int

  datatype Priority = Normal | Important | Critical

  /** The wire spelling of a priority. */
  function PriorityName(p: Priority): string {
    match p
    case Normal => "NORMAL"
    case Important => "IMPORTANT"
    case Critical => "CRITICAL"
  }

  /** The enum check of the event schema: a string is a priority exactly when it spells one. */
  function ParsePriority(s: string): (r: Option<Priority>)
    ensures r.Some? ==> PriorityName(r.value) == s
    ensures r.None? ==> forall p :: PriorityName(p) != s
  {
    if s == "NORMAL" then Some(Normal)
    else if s == "IMPORTANT" then Some(Important)
    else if s == "CRITICAL" then Some(Critical)
    else None
  }

  /** Spelling a priority and parsing it back gives the same priority. */
  lemma ParsePriorityName(p: Priority)
    ensures ParsePriority(PriorityName(p)) == Some(p)
  {
  }

  /** A stored event; `description` is nullable and `userId` names its owner. */
  datatype Event = Event(
    id: EventId,
    title: string,
    description: Option<string>,
    priority: Priority,
    userId: UserId,
    startTime: Instant,
    endTime: Instant,
    createdAt: Instant,
    updatedAt: Instant)

  /** The five fields a submitted event form carries once validated. */
  datatype EventFields = EventFields(
    title: string,
    description: Option<string>,
    startTime: Instant,
    endTime: Instant,
    priority: Priority)

  /** The user-editable part of a stored event. */
  function FieldsOf(e: Event): EventFields {
    EventFields(e.title, e.description, e.startTime, e.endTime, e.priority)
  }
}
