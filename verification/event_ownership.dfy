/**
 * The event actions composed into a state machine over the store, and the
 * ownership guarantees that hold for every action and every sequence of actions:
 * an event's owner never changes, and nobody alters or removes another user's event.
 */
module EventOwnership {
  import opened Wrappers
  import opened EventTypes
  import opened EventActions

  /** One mutating server action with its arguments (and the id and time the database picks). */
  datatype Action =
    | Create(input: EventInput, newId: EventId, now: Instant)
    | Update(id: EventId, input: EventInput)
    | Delete(id: EventId)

  /** An action issued under a session. */
  datatype Step = Step(session: Option<UserId>, action: Action)

  /** The user a session acts as, if it resolves to one. */
  function Actor(session: Option<UserId>): (a: Option<UserId>)
    ensures a.Some? <==> GetUserId(session).Success?
    ensures a.Some? ==> a.value == GetUserId(session).value
  {
    if GetUserId(session).Success? then Some(GetUserId(session).value) else None
  }

  /** The action's result, before a failure is turned back into the old store. */
  function Attempt(store: Store, step: Step): Result<Store, ActionError> {
    match step.action
    case Create(input, newId, now) => CreateEvent(step.session, store, input, newId, now)
    case Update(id, input) => UpdateEvent(step.session, store, id, input)
    case Delete(id) => DeleteEvent(step.session, store, id)
  }

  /** The store after a step: a failing action leaves it as it was. Every
      surviving event keeps its owner, and another user's event is neither
      changed nor removed. */
  function Apply(store: Store, step: Step): (r: Store)
    ensures Attempt(store, step).Failure? ==> r == store
    ensures Actor(step.session).None? ==> r == store
    ensures forall k :: k in store && k in r ==> r[k].userId == store[k].userId
    ensures forall k :: k in store && Some(store[k].userId) != Actor(step.session) ==> k in r && r[k] == store[k]
    ensures forall k :: k in r && k !in store ==> Some(r[k].userId) == Actor(step.session)
  {
    var res := Attempt(store, step);
    if res.Success? then res.value else store
  }

  /** The store after a sequence of steps, applied in order. */
  function Run(store: Store, steps: seq<Step>): Store
    decreases |steps|
  {
    if |steps| == 0 then store else Run(Apply(store, steps[0]), steps[1..])
  }

  /** No step of the sequence acts as `v`. */
  predicate NoneActAs(steps: seq<Step>, v: UserId) {
    forall i :: 0 <= i < |steps| ==> Actor(steps[i].session) != Some(v)
  }

  /** A step taken by anyone other than `v` leaves exactly `v`'s events in place. */
  lemma ForeignStepKeepsOwned(store: Store, step: Step, v: UserId)
    requires Actor(step.session) != Some(v)
    ensures OwnedBy(Apply(store, step), v) == OwnedBy(store, v)
  {
  }

  /** However many steps other users take, `v` sees the same events. */
  lemma {:induction false} ForeignRunKeepsOwned(store: Store, steps: seq<Step>, v: UserId)
    requires NoneActAs(steps, v)
    ensures OwnedBy(Run(store, steps), v) == OwnedBy(store, v)
    decreases |steps|
  {
    if |steps| > 0 {
      ForeignStepKeepsOwned(store, steps[0], v);
      assert NoneActAs(steps[1..], v) by {
        forall i | 0 <= i < |steps[1..]|
          ensures Actor(steps[1..][i].session) != Some(v)
        {
          assert steps[1..][i] == steps[i + 1];
        }
      }
      ForeignRunKeepsOwned(Apply(store, steps[0]), steps[1..], v);
    }
  }

  /** A store whose events sit under their own ids stays that way after any step. */
  lemma ApplyKeepsWellKeyed(store: Store, step: Step)
    requires WellKeyed(store)
    ensures WellKeyed(Apply(store, step))
  {
  }

  /** ... and after any sequence of steps. */
  lemma {:induction false} RunKeepsWellKeyed(store: Store, steps: seq<Step>)
    requires WellKeyed(store)
    ensures WellKeyed(Run(store, steps))
    decreases |steps|
  {
    if |steps| > 0 {
      ApplyKeepsWellKeyed(store, steps[0]);
      RunKeepsWellKeyed(Apply(store, steps[0]), steps[1..]);
    }
  }

  /** A create or update whose form the schema rejects writes nothing, whoever sends it. */
  lemma InvalidInputWritesNothing(store: Store, step: Step)
    requires step.action.Create? || step.action.Update?
    requires ParseEventData(step.action.input).Failure?
    ensures Apply(store, step) == store
  {
  }
}
