/** What each event of a process changes and what it leaves alone, and in which order queued calls go
    on. */
module EventEffects {
  import opened Executions

  // ---------- what an event does to one registration ----------

  /** The entry under an id is call `c`. */
  predicate LeadsTo(p: Process, id: Id, c: nat) {
    id in p.active && p.active[id] == c
  }

  lemma NotThrottledStays(p: Process, e: Event, c: nat, limit: nat)
    requires Sound(p, limit) && Possible(p, e) && c < |p.calls| && p.calls[c].stage != Throttled
    requires e.DoWriteFails? || e.DoCleanup? || e.DoRemoveQueued?
    ensures c < |Apply(p, e).calls|
    ensures var before, after := p.calls[c], Apply(p, e).calls[c];
            after.status == before.status && after.promise == before.promise
  {
    if e.DoWriteFails? {
      WriteFailsProgress(p, e.c, c, limit);
      ReleaseProgress(SetCall(p, e.c, p.calls[e.c].(stage := Failed)), e.c, c);
    } else if e.DoCleanup? {
      CleanupProgress(p, e.c, c, limit);
    } else {
      RemoveQueuedProgress(p, e.id, c, limit);
    }
  }

  /** An open promise is resolved by finalizing the id that leads to it and rejected by stopping that
      id, unless the execution waits; nothing else settles it, and a settled one stays as it is. */
  lemma PromiseTurnsExactlyWhen(p: Process, e: Event, c: nat, limit: nat)
    requires Sound(p, limit) && Possible(p, e) && c < |p.calls| && p.calls[c].stage == Registered
    ensures c < |Apply(p, e).calls|
    ensures var before, after := p.calls[c], Apply(p, e).calls[c].promise;
            && (before.promise != Open ==> after == before.promise)
            && (before.promise == Open ==>
                  && (after == Resolved <==> e == DoFinalize(before.id) && LeadsTo(p, before.id, c))
                  && (after == Rejected <==>
                      e == DoStop(before.id) && LeadsTo(p, before.id, c) && before.status != Waiting))
  {
    if e.DoWriteFails? || e.DoCleanup? || e.DoRemoveQueued? {
      NotThrottledStays(p, e, c, limit);
    }
  }

  /** A call's status is the one last reported for the id that leads to it; registering makes it
      `running`. */
  lemma StatusTurnsExactlyWhen(p: Process, e: Event, c: nat, limit: nat)
    requires Sound(p, limit) && Possible(p, e) && c < |p.calls| && p.calls[c].stage != Throttled
    ensures c < |Apply(p, e).calls|
    ensures var before, after := p.calls[c], Apply(p, e).calls[c].status;
            && (e == DoRegister(c) ==> after == Running)
            && (e.DoSetStatus? && LeadsTo(p, e.id, c) ==> after == e.status)
            && (e != DoRegister(c) && !(e.DoSetStatus? && LeadsTo(p, e.id, c)) ==> after == before.status)
  {
    if e.DoWriteFails? || e.DoCleanup? || e.DoRemoveQueued? {
      NotThrottledStays(p, e, c, limit);
    }
  }

  /** The event takes the entry under the id out of the map. */
  predicate TakesOut(p: Process, e: Event, id: Id)
    requires Possible(p, e)
  {
    || e == DoDrop(id)
    || (e == DoStop(id) && id in p.active && p.active[id] < |p.calls| && p.calls[p.active[id]].status == Waiting)
    || (e.DoCleanup? && p.calls[e.c].id == id && p.calls[e.c].status != Waiting)
  }

  /** The event registers a call under the id. */
  predicate PutsIn(p: Process, e: Event, id: Id)
    requires Possible(p, e)
  {
    e.DoRegister? && p.calls[e.c].id == id
  }

  /** The event does to what the id leads to what it should. */
  ghost predicate EntryTurns(p: Process, e: Event, id: Id)
    requires WellFormed(p) && Possible(p, e)
  {
    var after := Apply(p, e).active;
    && (TakesOut(p, e, id) ==> id !in after)
    && (PutsIn(p, e, id) ==> id in after && after[id] == e.c)
    && (!TakesOut(p, e, id) && !PutsIn(p, e, id) ==>
          && (id in after <==> id in p.active)
          && (id in after ==> after[id] == p.active[id]))
  }

  lemma PlainEntryTurns(p: Process, e: Event, id: Id)
    requires WellFormed(p) && Possible(p, e)
    requires !e.DoWriteFails? && !e.DoCleanup? && !e.DoRemoveQueued?
    ensures EntryTurns(p, e, id)
  {
  }

  /** What an id leads to changes by registering, dropping, stopping while it waits, and the clean-up
      of an execution with that id that does not wait; by nothing else. */
  lemma EntryTurnsExactlyWhen(p: Process, e: Event, id: Id, limit: nat)
    requires Sound(p, limit) && Possible(p, e)
    ensures EntryTurns(p, e, id)
  {
    match e
    case DoWriteFails(c) => WriteFailsProgress(p, c, c, limit);
    case DoCleanup(c) => CleanupProgress(p, c, c, limit);
    case DoRemoveQueued(queued) => RemovingKeepsActive(p, queued, limit);
    case _ => PlainEntryTurns(p, e, id);
  }

  // ---------- queueing up ----------

  /** Queued calls stand in the order in which they came, and none is queued while a slot is free. */
  ghost predicate Orderly(p: Process) {
    && (forall i, j :: 0 <= i < j < |p.queue| ==> p.queue[i] < p.queue[j])
    && (p.enabled && p.queue != [] ==> p.capacity + |p.queue| <= 0)
  }

  lemma ResolveNextKeepsOrderly(p: Process)
    requires WellFormed(p) && forall i, j :: 0 <= i < j < |p.queue| ==> p.queue[i] < p.queue[j]
    requires p.enabled && p.queue != [] ==> p.capacity + |p.queue| <= 1
    ensures Orderly(ResolveNext(p))
  {
  }

  lemma ReleaseKeepsOrderly(p: Process, c: nat)
    requires WellFormed(p) && Orderly(p) && c < |p.calls|
    ensures Orderly(Release(p, c))
  {
    var q := SetCall(p, c, p.calls[c].(acquired := false));
    ResolveNextKeepsOrderly(q.(capacity := q.capacity + 1));
  }

  lemma RestKeepsOrder(queue: seq<nat>, i: nat, rest: seq<nat>)
    requires i < |queue| && rest == queue[..i] + queue[i + 1..]
    requires forall k, l :: 0 <= k < l < |queue| ==> queue[k] < queue[l]
    ensures |rest| == |queue| - 1
    ensures forall k :: 0 <= k < |rest| ==> rest[k] in queue
    ensures forall k, l :: 0 <= k < l < |rest| ==> rest[k] < rest[l]
  {
    assert forall k :: 0 <= k < |rest| ==> rest[k] == queue[if k < i then k else k + 1];
  }

  lemma RemovalKeepsOrderly(p: Process, id: Id, limit: nat)
    requires Sound(p, limit) && Orderly(p)
    ensures Orderly(RemoveQueued(p, id))
  {
    var i := IndexOf(p, id, 0);
    if p.enabled && i < |p.queue| {
      var rest := p.queue[..i] + p.queue[i + 1..];
      RestKeepsOrder(p.queue, i, rest);
      ResolveNextKeepsOrderly(p.(queue := rest, capacity := p.capacity + 1));
    }
  }

  lemma OthersKeepOrderly(p: Process, e: Event, limit: nat)
    requires Sound(p, limit) && Possible(p, e) && Orderly(p)
    requires !e.DoWriteFails? && !e.DoCleanup? && !e.DoRemoveQueued?
    ensures Orderly(Apply(p, e))
  {
  }

  lemma StepKeepsOrderly(p: Process, e: Event, limit: nat)
    requires Sound(p, limit) && Possible(p, e) && Orderly(p)
    ensures Orderly(Apply(p, e))
  {
    match e
    case DoWriteFails(d) => ReleaseKeepsOrderly(SetCall(p, d, p.calls[d].(stage := Failed)), d);
    case DoCleanup(d) => ReleaseKeepsOrderly(SetCall(p, d, p.calls[d].(cleaned := true)), d);
    case DoRemoveQueued(id) => RemovalKeepsOrderly(p, id, limit);
    case _ => OthersKeepOrderly(p, e, limit);
  }

  lemma {:induction false} RunsAreOrderly(p: Process, events: seq<Event>, limit: nat)
    requires Sound(p, limit) && Orderly(p) && Run(p, events)
    ensures Sound(After(p, events), limit) && Orderly(After(p, events))
    decreases |events|
  {
    if events != [] {
      StepKeepsSound(p, events[0], limit);
      StepKeepsOrderly(p, events[0], limit);
      RunsAreOrderly(Apply(p, events[0]), events[1..], limit);
    }
  }

  /** Over every run, removals from the queue included, as long as capacity control is on: calls are
      queued only while at least `limit` slots are in use, and a new call that draws on the capacity
      has to wait if and only if that is so. No other call ever waits. */
  lemma WaitsExactlyWhenFull(limit: nat, enabled: bool, events: seq<Event>, id: Id, mode: Mode, resumes: bool)
    requires Run(Start(limit, enabled), events)
    ensures var p := After(Start(limit, enabled), events);
            && (p.enabled && p.queue != [] ==> Busy(p.calls) >= limit)
            && |Begin(p, id, mode, resumes).calls| == |p.calls| + 1
            && var call := Begin(p, id, mode, resumes).calls[|p.calls|];
               && (call.stage == Throttled <==> mode == Limited && p.enabled && Busy(p.calls) >= limit)
               && (call.stage != Throttled ==> call.stage == Writing)
  {
    StartIsSound(limit, enabled);
    RunsAreOrderly(Start(limit, enabled), events, limit);
  }

  /** The call goes on, and all that stay in the queue came after it. */
  ghost predicate GoesFirst(p: Process, q: Process, c: nat) {
    && c < |p.calls| && c < |q.calls| && p.calls[c].stage == Throttled && q.calls[c].stage != Throttled
    && forall d :: d in q.queue ==> c < d
  }

  lemma ResolveNextServesFirst(p: Process, c: nat)
    requires WellFormed(p) && forall i, j :: 0 <= i < j < |p.queue| ==> p.queue[i] < p.queue[j]
    requires c < |p.calls| && p.calls[c].stage == Throttled && ResolveNext(p).calls[c].stage != Throttled
    ensures GoesFirst(p, ResolveNext(p), c)
  {
  }

  lemma ReleaseServesFirst(p: Process, d: nat, c: nat)
    requires WellFormed(p) && forall i, j :: 0 <= i < j < |p.queue| ==> p.queue[i] < p.queue[j]
    requires d < |p.calls| && p.calls[d].stage != Throttled && c < |p.calls| && p.calls[c].stage == Throttled
    requires c < |Release(p, d).calls| && Release(p, d).calls[c].stage != Throttled
    ensures GoesFirst(p, Release(p, d), c)
  {
    var q := SetCall(p, d, p.calls[d].(acquired := false));
    if p.calls[d].acquired && p.calls[d].mode == Limited && p.enabled {
      ResolveNextServesFirst(q.(capacity := q.capacity + 1), c);
    }
  }

  lemma FailureServesFirst(p: Process, d: nat, c: nat)
    requires WellFormed(p) && Orderly(p) && d < |p.calls| && p.calls[d].stage == Writing
    requires c < |p.calls| && p.calls[c].stage == Throttled
    requires c < |WriteFails(p, d).calls| && WriteFails(p, d).calls[c].stage != Throttled
    ensures GoesFirst(p, WriteFails(p, d), c)
  {
    ReleaseServesFirst(SetCall(p, d, p.calls[d].(stage := Failed)), d, c);
  }

  lemma CleanupServesFirst(p: Process, d: nat, c: nat)
    requires WellFormed(p) && Orderly(p) && d < |p.calls| && CanClean(p.calls[d])
    requires c < |p.calls| && p.calls[c].stage == Throttled
    requires c < |Cleanup(p, d).calls| && Cleanup(p, d).calls[c].stage != Throttled
    ensures GoesFirst(p, Cleanup(p, d), c)
  {
    ReleaseServesFirst(SetCall(p, d, p.calls[d].(cleaned := true)), d, c);
  }

  lemma RemovalServesFirst(p: Process, id: Id, c: nat, limit: nat)
    requires Sound(p, limit) && Orderly(p) && c < |p.calls| && p.calls[c].stage == Throttled
    requires c < |RemoveQueued(p, id).calls| && RemoveQueued(p, id).calls[c].stage != Throttled
    ensures GoesFirst(p, RemoveQueued(p, id), c)
  {
    var i := IndexOf(p, id, 0);
    if p.enabled && i < |p.queue| {
      var rest := p.queue[..i] + p.queue[i + 1..];
      RestKeepsOrder(p.queue, i, rest);
      ResolveNextServesFirst(p.(queue := rest, capacity := p.capacity + 1), c);
    }
  }

  lemma OthersLetNobodyGo(p: Process, e: Event, c: nat, limit: nat)
    requires Sound(p, limit) && Possible(p, e) && c < |p.calls| && p.calls[c].stage == Throttled
    requires !e.DoWriteFails? && !e.DoCleanup? && !e.DoRemoveQueued?
    ensures c < |Apply(p, e).calls| && Apply(p, e).calls[c].stage == Throttled
  {
  }

  lemma ServesFirst(p: Process, e: Event, c: nat, limit: nat)
    requires Sound(p, limit) && Orderly(p) && Possible(p, e)
    requires c < |p.calls| && p.calls[c].stage == Throttled
    requires c < |Apply(p, e).calls| && Apply(p, e).calls[c].stage != Throttled
    ensures GoesFirst(p, Apply(p, e), c)
  {
    match e
    case DoWriteFails(d) => FailureServesFirst(p, d, c);
    case DoCleanup(d) => CleanupServesFirst(p, d, c);
    case DoRemoveQueued(id) => RemovalServesFirst(p, id, c, limit);
    case _ => OthersLetNobodyGo(p, e, c, limit);
  }

  /** Over every run, removals included: when a queued call goes on, all calls that stay in the queue
      came after it. */
  lemma FirstComeFirstServed(limit: nat, enabled: bool, events: seq<Event>, e: Event, c: nat)
    requires Run(Start(limit, enabled), events)
    requires var p := After(Start(limit, enabled), events);
             && WellFormed(p) && Possible(p, e) && c < |p.calls| && p.calls[c].stage == Throttled
             && c < |Apply(p, e).calls| && Apply(p, e).calls[c].stage != Throttled
    ensures forall d :: d in Apply(After(Start(limit, enabled), events), e).queue ==> c < d
  {
    StartIsSound(limit, enabled);
    RunsAreOrderly(Start(limit, enabled), events, limit);
    ServesFirst(After(Start(limit, enabled), events), e, c, limit);
  }
}
