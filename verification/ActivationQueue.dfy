/** The queue of workflows whose activation failed and is retried, with a growing pause. */
module ActivationQueue {
  import opened Powers
  import opened Wrappers

  type Id = string

  const WORKFLOW_REACTIVATE_INITIAL_TIMEOUT: nat := 1000
  const WORKFLOW_REACTIVATE_MAX_TIMEOUT: nat := 24 * 60 * 60 * 1000

  /** A retry fails in the expression isolate or for another reason; `Failed` is the failure of a
      retry of `id`, which may have started before the entry that is there now. */
  datatype Event = Enqueued(id: Id) | Dequeued(id: Id) | Failed(id: Id, isolate: bool)

  function Min(a: nat, b: nat): nat {
    if a <= b then a else b
  }

  // ---------- the queue, event by event ----------

  /** The pause of each queued workflow, in milliseconds. */
  function Apply(queue: map<Id, nat>, e: Event): map<Id, nat> {
    match e
    case Enqueued(id) => queue[id := WORKFLOW_REACTIVATE_INITIAL_TIMEOUT]
    case Dequeued(id) => queue - {id}
    case Failed(id, isolate) =>
      if id !in queue then queue
      else if !isolate && queue[id] < WORKFLOW_REACTIVATE_MAX_TIMEOUT then
        queue[id := Min(queue[id] * 2, WORKFLOW_REACTIVATE_MAX_TIMEOUT)]
      else queue
  }

  function After(queue: map<Id, nat>, events: seq<Event>): map<Id, nat> {
    if events == [] then queue else Apply(After(queue, events[..|events| - 1]), events[|events| - 1])
  }

  // ---------- what a history amounts to ----------

  /** The failures outside the isolate since `id` was last queued; none when it is not queued. */
  function FailuresSince(events: seq<Event>, id: Id): Option<nat> {
    if events == [] then None
    else
      var before := FailuresSince(events[..|events| - 1], id);
      var e := events[|events| - 1];
      if e.id != id then before
      else
        match e
        case Enqueued(_) => Some(0)
        case Dequeued(_) => None
        case Failed(_, isolate) => if before.Some? && !isolate then Some(before.value + 1) else before
  }

  function Backoff(failures: nat): nat {
    Min(WORKFLOW_REACTIVATE_INITIAL_TIMEOUT * Pow2(failures), WORKFLOW_REACTIVATE_MAX_TIMEOUT)
  }

  /** Over every history: a workflow is queued exactly when the history says so, and its pause is
      determined by the number of its failures since it was last queued. */
  lemma {:induction false} PauseIsBackoff(events: seq<Event>, id: Id)
    ensures id in After(map[], events) <==> FailuresSince(events, id).Some?
    ensures FailuresSince(events, id).Some? ==>
              After(map[], events)[id] == Backoff(FailuresSince(events, id).value)
  {
    if events != [] {
      PauseIsBackoff(events[..|events| - 1], id);
    }
  }

  lemma SixteenDoublings()
    ensures Pow2(16) == 65536 && Pow2(17) == 131072
  {
    PowersAdd(1, 1);
    PowersAdd(2, 2);
    PowersAdd(4, 4);
    PowersAdd(8, 8);
    PowersAdd(16, 1);
  }

  /** The pause grows with the failures, stays within a second and a day, and reaches the day
      with the seventeenth failure and not before. */
  lemma BackoffGrowsToADay(m: nat, n: nat)
    requires m <= n
    ensures 1000 <= Backoff(m) <= Backoff(n) <= 86_400_000
    ensures Backoff(n) == if n >= 17 then 86_400_000 else 1000 * Pow2(n)
    ensures Backoff(n) == 86_400_000 <==> n >= 17
  {
    PowersGrow(m, n);
    SixteenDoublings();
    if n >= 17 {
      PowersGrow(17, n);
    } else {
      PowersGrow(n, 16);
    }
  }

  /** While a workflow is neither queued again nor removed, only its failures outside the isolate
      count, wherever in the history they are. */
  function Failures(events: seq<Event>, id: Id): nat {
    if events == [] then 0
    else Failures(events[..|events| - 1], id) + if events[|events| - 1] == Failed(id, false) then 1 else 0
  }

  lemma {:induction false} UndisturbedPause(before: seq<Event>, since: seq<Event>, id: Id)
    requires forall i :: 0 <= i < |since| ==> since[i] != Enqueued(id) && since[i] != Dequeued(id)
    ensures FailuresSince(before + [Enqueued(id)] + since, id) == Some(Failures(since, id))
    decreases |since|
  {
    var all := before + [Enqueued(id)] + since;
    if since == [] {
      assert all[..|all| - 1] == before;
    } else {
      assert all[..|all| - 1] == before + [Enqueued(id)] + since[..|since| - 1];
      UndisturbedPause(before, since[..|since| - 1], id);
    }
  }

  /** Queued once, then any failures of it and anything about other workflows. */
  lemma PauseAfterFailures(before: seq<Event>, since: seq<Event>, id: Id)
    requires forall i :: 0 <= i < |since| ==> since[i] != Enqueued(id) && since[i] != Dequeued(id)
    ensures var queue := After(map[], before + [Enqueued(id)] + since);
            id in queue && queue[id] == Backoff(Failures(since, id))
  {
    UndisturbedPause(before, since, id);
    PauseIsBackoff(before + [Enqueued(id)] + since, id);
  }

  // ---------- the queue as the program keeps it ----------

  class Queue {
    var queuedActivations: map<Id, nat>

    constructor ()
      ensures queuedActivations == map[]
    {
      queuedActivations := map[];
    }

    method AddQueuedWorkflowActivation(id: Id)
      modifies this
      ensures queuedActivations == Apply(old(queuedActivations), Enqueued(id))
    {
      RemoveQueuedWorkflowActivation(id);
      queuedActivations := queuedActivations[id := WORKFLOW_REACTIVATE_INITIAL_TIMEOUT];
    }

    method RemoveQueuedWorkflowActivation(id: Id)
      modifies this
      ensures queuedActivations == Apply(old(queuedActivations), Dequeued(id))
    {
      if id in queuedActivations {
        queuedActivations := queuedActivations - {id};
      }
    }

    /** The retry of `id` has failed. Returns the pause of the next retry, if there is one. */
    method RetryFailed(id: Id, isolate: bool) returns (pause: Option<nat>)
      modifies this
      ensures queuedActivations == Apply(old(queuedActivations), Failed(id, isolate))
      ensures pause == if id in queuedActivations then Some(queuedActivations[id]) else None
    {
      if id !in queuedActivations {
        return None;
      }
      var lastTimeout := queuedActivations[id];
      if !isolate && lastTimeout < WORKFLOW_REACTIVATE_MAX_TIMEOUT {
        lastTimeout := Min(lastTimeout * 2, WORKFLOW_REACTIVATE_MAX_TIMEOUT);
      }
      queuedActivations := queuedActivations[id := lastTimeout];
      pause := Some(lastTimeout);
    }

    method RemoveAllQueuedWorkflowActivations()
      modifies this
      ensures queuedActivations == map[]
    {
      var ids := queuedActivations.Keys;
      while ids != {}
        invariant queuedActivations.Keys == ids
        decreases |ids|
      {
        var id :| id in ids;
        RemoveQueuedWorkflowActivation(id);
        ids := ids - {id};
      }
    }
  }
}
