/** The second half of a shutdown: waiting for the map to become empty while clean-ups run and
    executions that have been cancelled may still report `waiting`. */
module Shutdown {
  import opened Executions

  /** What can happen while nothing is added any more. */
  predicate DrainEvent(e: Event) {
    e.DoCleanup? || (e.DoSetStatus? && e.status == Waiting) || e.DoFinalize?
  }

  ghost predicate Drains(p: Process, events: seq<Event>)
    requires WellFormed(p)
  {
    Run(p, events) && forall i :: 0 <= i < |events| ==> DrainEvent(events[i])
  }

  /** A pending clean-up of a registration that is no longer the one under its id will not take
      the entry there out. Where memory reports `waiting` before the row does, every state is
      like this. */
  ghost predicate NoStrangers(p: Process) {
    forall c :: 0 <= c < |p.calls| && CanClean(p.calls[c]) && p.calls[c].id in p.active && p.active[p.calls[c].id] != c
      ==> p.calls[c].status == Waiting
  }

  /** The execution of registration `c` reports `waiting` before the clean-up of `c` has run. */
  ghost predicate ReportsLate(events: seq<Event>, id: Id, c: nat) {
    exists i :: 0 <= i < |events| && events[i] == DoSetStatus(id, Waiting) && DoCleanup(c) !in events[..i]
  }

  lemma LateStep(events: seq<Event>, id: Id, c: nat)
    requires events != []
    ensures ReportsLate(events, id, c) <==>
            events[0] != DoCleanup(c) && (events[0] == DoSetStatus(id, Waiting) || ReportsLate(events[1..], id, c))
  {
    var rest := events[1..];
    if ReportsLate(events, id, c) {
      var i :| 0 <= i < |events| && events[i] == DoSetStatus(id, Waiting) && DoCleanup(c) !in events[..i];
      if i > 0 {
        assert events[0] in events[..i];
        assert rest[i - 1] == events[i] && rest[..i - 1] == events[..i][1..];
      }
    }
    if events[0] == DoSetStatus(id, Waiting) {
      assert events[..0] == [];
    } else if events[0] != DoCleanup(c) && ReportsLate(rest, id, c) {
      var i :| 0 <= i < |rest| && rest[i] == DoSetStatus(id, Waiting) && DoCleanup(c) !in rest[..i];
      assert events[i + 1] == rest[i] && events[..i + 1] == [events[0]] + rest[..i];
    }
  }

  lemma DrainKeepsNoStrangers(p: Process, e: Event, limit: nat)
    requires Sound(p, limit) && NoStrangers(p) && DrainEvent(e) && Possible(p, e)
    ensures NoStrangers(Apply(p, e))
  {
    var q := Apply(p, e);
    StepBeginsNothing(p, e, limit);
    forall c | 0 <= c < |q.calls| && CanClean(q.calls[c]) && q.calls[c].id in q.active && q.active[q.calls[c].id] != c
      ensures q.calls[c].status == Waiting
    {
      if e.DoCleanup? {
        CleanupProgress(p, e.c, c, limit);
      }
    }
  }

  /** The entry under `id` is registration `c`, whose promise has settled. */
  ghost predicate EntryIs(p: Process, id: Id, c: nat) {
    && c < |p.calls| && p.calls[c].id == id && p.calls[c].stage == Registered && p.calls[c].promise != Open
    && id in p.active && p.active[id] == c
  }

  lemma OtherEventKeepsEntry(p: Process, e: Event, id: Id, c: nat, limit: nat)
    requires Sound(p, limit) && NoStrangers(p) && DrainEvent(e) && Possible(p, e) && EntryIs(p, id, c)
    requires e != DoCleanup(c)
    ensures EntryIs(Apply(p, e), id, c)
    ensures Apply(p, e).calls[c].cleaned == p.calls[c].cleaned
    ensures Apply(p, e).calls[c].status == if e == DoSetStatus(id, Waiting) then Waiting else p.calls[c].status
  {
    if e.DoCleanup? {
      CleanupProgress(p, e.c, c, limit);
      CleanupProgress(p, e.c, e.c, limit);
    }
  }

  /** No event of the drain phase adds an entry. */
  lemma {:induction false} GoneStaysGone(p: Process, events: seq<Event>, id: Id, limit: nat)
    requires Sound(p, limit) && Drains(p, events) && id !in p.active
    ensures id !in After(p, events).active
    decreases |events|
  {
    if events != [] {
      StepKeepsSound(p, events[0], limit);
      if events[0].DoCleanup? {
        CleanupProgress(p, events[0].c, events[0].c, limit);
      }
      DrainsTail(p, events);
      GoneStaysGone(Apply(p, events[0]), events[1..], id, limit);
    }
  }

  lemma DrainsTail(p: Process, events: seq<Event>)
    requires WellFormed(p) && Drains(p, events) && events != []
    ensures DrainEvent(events[0]) && Possible(p, events[0]) && WellFormed(Apply(p, events[0]))
    ensures Drains(Apply(p, events[0]), events[1..])
  {
    assert forall i :: 0 <= i < |events[1..]| ==> events[1..][i] == events[i + 1];
  }

  /** An entry whose clean-up has run without taking it out stays for good. */
  lemma {:induction false} KeptStaysKept(p: Process, events: seq<Event>, id: Id, c: nat, limit: nat)
    requires Sound(p, limit) && NoStrangers(p) && Drains(p, events) && EntryIs(p, id, c) && p.calls[c].cleaned
    ensures EntryIs(After(p, events), id, c) && After(p, events).calls[c].cleaned
    decreases |events|
  {
    if events != [] {
      DrainsTail(p, events);
      StepKeepsSound(p, events[0], limit);
      DrainKeepsNoStrangers(p, events[0], limit);
      OtherEventKeepsEntry(p, events[0], id, c, limit);
      KeptStaysKept(Apply(p, events[0]), events[1..], id, c, limit);
    }
  }

  /** The fate of one entry over any run of the drain phase: until its clean-up has run it stays,
      and after that it is still there exactly when it reported `waiting` before. */
  lemma {:induction false} EntryFate(p: Process, events: seq<Event>, id: Id, c: nat, limit: nat)
    requires Sound(p, limit) && NoStrangers(p) && Drains(p, events) && EntryIs(p, id, c) && !p.calls[c].cleaned
    ensures var q := After(p, events);
            && c < |q.calls|
            && (if q.calls[c].cleaned then
                  id in q.active <==> p.calls[c].status == Waiting || ReportsLate(events, id, c)
                else EntryIs(q, id, c))
    decreases |events|
  {
    if events != [] {
      var e, rest := events[0], events[1..];
      DrainsTail(p, events);
      StepKeepsSound(p, e, limit);
      DrainKeepsNoStrangers(p, e, limit);
      LateStep(events, id, c);
      var q := Apply(p, e);
      if e == DoCleanup(c) {
        CleanupProgress(p, c, c, limit);
        CleanedStays(q, rest, c, limit);
        if p.calls[c].status == Waiting {
          KeptStaysKept(q, rest, id, c, limit);
        } else {
          GoneStaysGone(q, rest, id, limit);
        }
      } else {
        OtherEventKeepsEntry(p, e, id, c, limit);
        EntryFate(q, rest, id, c, limit);
      }
    }
  }

  lemma {:induction false} CleanedStays(p: Process, events: seq<Event>, c: nat, limit: nat)
    requires Sound(p, limit) && Run(p, events) && c < |p.calls| && p.calls[c].cleaned
    ensures c < |After(p, events).calls| && After(p, events).calls[c].cleaned
    decreases |events|
  {
    if events != [] {
      StepKeepsSound(p, events[0], limit);
      StepProgress(p, events[0], c, limit);
      CleanedStays(Apply(p, events[0]), events[1..], c, limit);
    }
  }

  /** An entry's promise stays settled and its registration stays, so it is pending or cleaned. */
  lemma {:induction false} SettledStays(p: Process, events: seq<Event>, c: nat, limit: nat)
    requires Sound(p, limit) && Run(p, events)
    requires c < |p.calls| && p.calls[c].stage == Registered && p.calls[c].promise != Open
    ensures var q := After(p, events);
            c < |q.calls| && q.calls[c].stage == Registered && q.calls[c].promise != Open
    decreases |events|
  {
    if events != [] {
      StepKeepsSound(p, events[0], limit);
      StepProgress(p, events[0], c, limit);
      SettledStays(Apply(p, events[0]), events[1..], c, limit);
    }
  }

  /** Main result: once every pending clean-up has run, the ids still in the map are exactly those
      whose execution reported `waiting` before its clean-up. Nothing will take them out any more,
      so a shutdown ends if and only if there is none. */
  lemma DrainLeavesExactlyTheLate(p: Process, events: seq<Event>, limit: nat)
    requires Sound(p, limit) && Draining(p) && NoStrangers(p) && Drains(p, events)
    requires PendingCleanups(After(p, events)) == {}
    ensures forall id :: id in After(p, events).active <==> id in p.active && ReportsLate(events, id, p.active[id])
    ensures After(p, events).active == map[] <==> forall id :: id in p.active ==> !ReportsLate(events, id, p.active[id])
  {
    var q := After(p, events);
    forall id
      ensures id in q.active <==> id in p.active && ReportsLate(events, id, p.active[id])
    {
      if id in p.active {
        var c := p.active[id];
        EntryFate(p, events, id, c, limit);
        SettledStays(p, events, c, limit);
        assert c !in PendingCleanups(q);
      } else {
        GoneStaysGone(p, events, id, limit);
      }
    }
    if forall id :: id in p.active ==> !ReportsLate(events, id, p.active[id]) {
      assert q.active == map[];
    }
  }
}
