/** Registrations are found by execution id, not by identity: when that reaches the right one. */
module Addressing {
  import opened Wrappers
  import opened Executions
  import opened ResumeProtocol
  import opened Ownership

  /** Every registration whose promise is open is the one its id leads to, so finalizing or
      stopping by id settles it. */
  ghost predicate Addressable(p: Process) {
    forall c :: 0 <= c < |p.calls| ==> !Orphaned(p, c)
  }

  /** The registration under `id`, if any, has settled its promise. */
  predicate SettledUnder(p: Process, id: Id) {
    id in p.active && p.active[id] < |p.calls| ==> p.calls[p.active[id]].promise != Open
  }

  /** What the surrounding code must guarantee: a registration is replaced under its id, or its
      entry taken out, only after its promise has settled. That concerns registering again, stopping
      or dropping a waiting entry, and the clean-up of a registration that does not report
      `waiting`. */
  predicate Guarded(p: Process, e: Event) {
    match e
    case DoRegister(c) => c < |p.calls| ==> SettledUnder(p, p.calls[c].id)
    case DoStop(id) => Waits(p, id) ==> SettledUnder(p, id)
    case DoDrop(id) => SettledUnder(p, id)
    case DoCleanup(c) => c < |p.calls| && p.calls[c].status != Waiting ==> SettledUnder(p, p.calls[c].id)
    case _ => true
  }

  predicate Waits(p: Process, id: Id) {
    id in p.active && p.active[id] < |p.calls| && p.calls[p.active[id]].status == Waiting
  }

  // ---------- one event ----------

  lemma ReleasingKeepsAddressable(p: Process, e: Event, limit: nat)
    requires Sound(p, limit) && Possible(p, e) && Addressable(p)
    requires e.DoWriteFails? || e.DoRemoveQueued?
    ensures Addressable(Apply(p, e))
  {
    var q := Apply(p, e);
    StepBeginsNothing(p, e, limit);
    forall c | 0 <= c < |q.calls|
      ensures !Orphaned(q, c)
    {
      assert !Orphaned(p, c);
      if e.DoWriteFails? {
        WriteFailsProgress(p, e.c, c, limit);
      } else {
        RemoveQueuedProgress(p, e.id, c, limit);
      }
    }
  }

  lemma CleanupAddresses(p: Process, c: nat, limit: nat)
    requires Sound(p, limit) && c < |p.calls| && CanClean(p.calls[c]) && Addressable(p)
    ensures Addressable(Cleanup(p, c)) <==> p.calls[c].status == Waiting || SettledUnder(p, p.calls[c].id)
  {
    var q := Cleanup(p, c);
    var id := p.calls[c].id;
    CleanupProgress(p, c, c, limit);
    forall d | 0 <= d < |q.calls|
      ensures Orphaned(q, d) <==>
              p.calls[c].status != Waiting && id in p.active && p.active[id] == d && p.calls[d].promise == Open
    {
      assert !Orphaned(p, d);
      CleanupProgress(p, c, d, limit);
    }
    if p.calls[c].status != Waiting && !SettledUnder(p, id) {
      assert Orphaned(q, p.active[id]);
    }
  }

  lemma RegisterAddresses(p: Process, c: nat, limit: nat)
    requires Sound(p, limit) && Addressable(p) && c < |p.calls| && p.calls[c].stage == Won
    ensures Addressable(Register(p, c)) <==> SettledUnder(p, p.calls[c].id)
  {
    var q := Register(p, c);
    var id := p.calls[c].id;
    forall d | 0 <= d < |q.calls|
      ensures Orphaned(q, d) <==> id in p.active && p.active[id] == d && p.calls[d].promise == Open
    {
      assert !Orphaned(p, d);
    }
    if !SettledUnder(p, id) {
      assert Orphaned(q, p.active[id]);
    }
  }

  lemma RemovalAddresses(p: Process, id: Id, limit: nat)
    requires Sound(p, limit) && Addressable(p)
    ensures Addressable(Drop(p, id)) <==> SettledUnder(p, id)
  {
    var q := Drop(p, id);
    forall d | 0 <= d < |q.calls|
      ensures Orphaned(q, d) <==> id in p.active && p.active[id] == d && p.calls[d].promise == Open
    {
      assert !Orphaned(p, d);
    }
    if !SettledUnder(p, id) {
      assert Orphaned(q, p.active[id]);
    }
  }

  lemma SettlingKeepsAddressable(p: Process, id: Id, how: Promise, limit: nat)
    requires Sound(p, limit) && Addressable(p) && id in p.active && how != Open
    ensures Addressable(Settle(p, p.active[id], how))
  {
    var q := Settle(p, p.active[id], how);
    forall d | 0 <= d < |q.calls|
      ensures !Orphaned(q, d)
    {
      assert !Orphaned(p, d);
    }
  }

  lemma StatusKeepsAddressable(p: Process, id: Id, status: Status, limit: nat)
    requires Sound(p, limit) && Addressable(p)
    ensures Addressable(SetStatus(p, id, status))
  {
    var q := SetStatus(p, id, status);
    forall d | 0 <= d < |q.calls|
      ensures !Orphaned(q, d)
    {
      assert !Orphaned(p, d);
    }
  }

  /** The guard is exact: an event leaves some open promise out of reach if and only if it breaks
      the guard. */
  lemma GuardIsExact(p: Process, e: Event, limit: nat)
    requires Sound(p, limit) && Addressable(p) && LocalEvent(p, e)
    ensures Addressable(Apply(p, e)) <==> Guarded(p, e)
  {
    match e
    case DoRegister(c) => RegisterAddresses(p, c, limit);
    case DoCleanup(c) => CleanupAddresses(p, c, limit);
    case DoRemoveQueued(id) => ReleasingKeepsAddressable(p, e, limit);
    case DoSetStatus(id, status) => StatusKeepsAddressable(p, id, status, limit);
    case DoDrop(id) => RemovalAddresses(p, id, limit);
    case DoStop(id) =>
      if id in p.active {
        if p.calls[p.active[id]].status == Waiting {
          RemovalAddresses(p, id, limit);
        } else {
          SettlingKeepsAddressable(p, id, Rejected, limit);
        }
      }
    case DoFinalize(id) =>
      if id in p.active {
        SettlingKeepsAddressable(p, id, Resolved, limit);
      }
    case DoDisable =>
      forall c | 0 <= c < |p.calls| ensures !Orphaned(Apply(p, e), c) {
        assert !Orphaned(p, c);
      }
  }

  lemma OtherKeepsAddressable(p: Process, e: Event, limit: nat)
    requires Sound(p, limit) && Addressable(p) && Possible(p, e)
    requires e.DoBegin? || e.DoWriteSucceeds? || e.DoWriteFails?
    ensures Addressable(Apply(p, e))
  {
    if e.DoWriteFails? {
      ReleasingKeepsAddressable(p, e, limit);
    } else {
      forall c | 0 <= c < |Apply(p, e).calls| ensures !Orphaned(Apply(p, e), c) {
        assert c < |p.calls| ==> !Orphaned(p, c);
      }
    }
  }

  // ---------- over every run ----------

  ghost predicate AllAddressable(s: Sys) {
    forall p :: 0 <= p < |s.procs| ==> Addressable(s.procs[p])
  }

  predicate GuardedStep(s: Sys, step: Step) {
    step.Local? && step.p < |s.procs| ==> Guarded(s.procs[step.p], step.e)
  }

  lemma MoveAddressesExactlyWhen(s: Sys, step: Step, t: Sys)
    requires Books(s) && Moves(s, step, t) && AllAddressable(s)
    ensures AllAddressable(t) <==> GuardedStep(s, step)
  {
    var e := EventOf(s, step);
    StepIsEvent(s, step);
    if e.Some? {
      var p := e.value.0;
      if step.Local? {
        GuardIsExact(s.procs[p], e.value.1, s.limits[p]);
        assert t.procs[p] == Apply(s.procs[p], e.value.1);
      } else {
        OtherKeepsAddressable(s.procs[p], e.value.1, s.limits[p]);
      }
    }
  }

  lemma MoveKeepsOrphans(s: Sys, step: Step, t: Sys, p: nat, c: nat)
    requires Books(s) && Moves(s, step, t) && p < |s.procs| && Orphaned(s.procs[p], c)
    ensures p < |t.procs| && Orphaned(t.procs[p], c)
  {
    var e := EventOf(s, step);
    StepIsEvent(s, step);
    if e.Some? && e.value.0 == p {
      StepKeepsOrphan(s.procs[p], e.value.1, c, s.limits[p]);
    }
  }

  lemma OrphansStay(states: seq<Sys>, steps: seq<Step>, i: nat)
    requires IsRun(states, steps) && i < |steps| && !AllAddressable(states[i])
    ensures !AllAddressable(states[i + 1])
  {
    BooksHold(states, steps, i);
    assert MovesAt(states, steps, i);
    var p :| 0 <= p < |states[i].procs| && !Addressable(states[i].procs[p]);
    var c :| 0 <= c < |states[i].procs[p].calls| && Orphaned(states[i].procs[p], c);
    MoveKeepsOrphans(states[i], steps[i], states[i + 1], p, c);
    assert !Addressable(states[i + 1].procs[p]);
  }

  lemma RunStepAddressesExactlyWhen(states: seq<Sys>, steps: seq<Step>, i: nat)
    requires IsRun(states, steps) && i < |steps| && AllAddressable(states[i])
    ensures AllAddressable(states[i + 1]) <==> GuardedStep(states[i], steps[i])
  {
    BooksHold(states, steps, i);
    assert MovesAt(states, steps, i);
    MoveAddressesExactlyWhen(states[i], steps[i], states[i + 1]);
  }

  /** Main result, over every run of any number of processes in either mode: every open promise can
      be reached by its id if and only if every step so far has met the guard. So a registration
      is lost exactly when it is replaced or taken out before its promise has settled, and then
      for good. */
  lemma {:induction false} IdsReachOpenPromisesExactlyWhen(states: seq<Sys>, steps: seq<Step>, k: nat)
    requires IsRun(states, steps) && k <= |steps|
    ensures AllAddressable(states[k]) <==> forall i :: 0 <= i < k ==> GuardedStep(states[i], steps[i])
    decreases k
  {
    if k == 0 {
      InitIsAddressable(states[0]);
    } else {
      IdsReachOpenPromisesExactlyWhen(states, steps, k - 1);
      if AllAddressable(states[k - 1]) {
        RunStepAddressesExactlyWhen(states, steps, k - 1);
      } else {
        OrphansStay(states, steps, k - 1);
      }
    }
  }

  lemma InitIsAddressable(s: Sys)
    requires Init(s)
    ensures AllAddressable(s)
  {
  }

  // ---------- where memory reports first ----------

  /** Where memory reports first, clean-ups need no guard. */
  predicate GuardedElsewhere(s: Sys, step: Step) {
    step.Local? && !step.e.DoCleanup? ==> GuardedStep(s, step)
  }

  lemma CleanupIsGuarded(states: seq<Sys>, steps: seq<Step>, i: nat)
    requires ReportingRun(states, steps) && i < |steps| && steps[i].Local? && steps[i].e.DoCleanup?
    ensures GuardedStep(states[i], steps[i])
  {
    ControlHolds(states, steps, i);
    assert MovesAt(states, steps, i);
    var s, p, c := states[i], steps[i].p, steps[i].e.c;
    CleanupTakesOutOwnEntry(p, s.procs[p], c, s.rows, s.limits[p]);
  }

  /** There, an id leads to the registration whose promise is open as long as no other step replaces
      or takes out an unsettled one. */
  lemma IdsReachOpenPromises(states: seq<Sys>, steps: seq<Step>, k: nat)
    requires ReportingRun(states, steps) && k <= |steps|
    ensures AllAddressable(states[k]) <==> forall i :: 0 <= i < k ==> GuardedElsewhere(states[i], steps[i])
  {
    IdsReachOpenPromisesExactlyWhen(states, steps, k);
    forall i | 0 <= i < k
      ensures GuardedElsewhere(states[i], steps[i]) <==> GuardedStep(states[i], steps[i])
    {
      if steps[i].Local? && steps[i].e.DoCleanup? {
        CleanupIsGuarded(states, steps, i);
      }
    }
  }

  lemma FinalizeReaches(p: Process, c: nat, limit: nat)
    requires Sound(p, limit) && Addressable(p) && c < |p.calls|
    requires p.calls[c].stage == Registered && p.calls[c].promise == Open
    ensures Finalize(p, p.calls[c].id) == SetCall(p, c, p.calls[c].(promise := Resolved))
    ensures CanClean(Finalize(p, p.calls[c].id).calls[c]) || p.calls[c].cleaned
  {
    assert !Orphaned(p, c);
  }

  /** The clean-up of an earlier registration takes out a later one of the same id, and puts it out
      of reach for good, exactly when the earlier one does not report `waiting`, as on a main
      process whose workers run the jobs. */
  lemma CleanupTakesOutAnotherExactlyWhen(states: seq<Sys>, steps: seq<Step>, i: nat, k: nat, p: nat, c: nat, d: nat)
    requires IsRun(states, steps) && i < k <= |steps| && steps[i] == Local(p, DoCleanup(c))
    requires p < |states[i].procs| && c < |states[i].procs[p].calls| && c != d
    requires var proc := states[i].procs[p];
             && proc.calls[c].id in proc.active && proc.active[proc.calls[c].id] == d
             && d < |proc.calls| && proc.calls[d].promise == Open
    ensures p < |states[i + 1].procs| && p < |states[k].procs|
    ensures Orphaned(states[i + 1].procs[p], d) <==> states[i].procs[p].calls[c].status != Waiting
    ensures states[i].procs[p].calls[c].status != Waiting ==> Orphaned(states[k].procs[p], d)
  {
    BooksHold(states, steps, i);
    assert MovesAt(states, steps, i);
    CleanedUp(states[i], p, c, d, states[i + 1]);
    ProcessesStay(states, steps, i + 1, k);
    if Orphaned(states[i + 1].procs[p], d) {
      OrphanStays(states, steps, i + 1, k, p, d);
    }
  }

  lemma CleanedUp(s: Sys, p: nat, c: nat, d: nat, t: Sys)
    requires Books(s) && Moves(s, Local(p, DoCleanup(c)), t) && c != d
    requires var proc := s.procs[p];
             && proc.calls[c].id in proc.active && proc.active[proc.calls[c].id] == d
             && d < |proc.calls| && proc.calls[d].promise == Open
    ensures p < |t.procs|
    ensures Orphaned(t.procs[p], d) <==> s.procs[p].calls[c].status != Waiting
  {
    StepIsEvent(s, Local(p, DoCleanup(c)));
    CleanupProgress(s.procs[p], c, c, s.limits[p]);
    CleanupProgress(s.procs[p], c, d, s.limits[p]);
  }

  lemma {:induction false} ProcessesStay(states: seq<Sys>, steps: seq<Step>, i: nat, k: nat)
    requires IsRun(states, steps) && i <= k <= |steps|
    ensures |states[k].procs| == |states[i].procs|
    decreases k
  {
    if i < k {
      ProcessesStay(states, steps, i, k - 1);
      BooksHold(states, steps, k - 1);
      assert MovesAt(states, steps, k - 1);
      StepIsEvent(states[k - 1], steps[k - 1]);
    }
  }

  lemma {:induction false} OrphanStays(states: seq<Sys>, steps: seq<Step>, i: nat, k: nat, p: nat, c: nat)
    requires IsRun(states, steps) && i <= k <= |steps|
    requires p < |states[i].procs| && Orphaned(states[i].procs[p], c)
    ensures p < |states[k].procs| && Orphaned(states[k].procs[p], c)
    decreases k
  {
    if i < k {
      OrphanStays(states, steps, i, k - 1, p, c);
      BooksHold(states, steps, k - 1);
      assert MovesAt(states, steps, k - 1);
      MoveKeepsOrphans(states[k - 1], steps[k - 1], states[k], p, c);
    }
  }
}
