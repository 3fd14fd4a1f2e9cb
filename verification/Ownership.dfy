/** Who runs an execution, where a process reports `waiting` in memory before the row says so. */
module Ownership {
  import opened Executions
  import opened ParentUpdate
  import opened ResumeProtocol
  import opened Shutdown

  // ---------- when memory reports first ----------

  /** Local events as they are where runs and registrations live in one process: `waiting` is the
      only status reported, and a shutdown drops only entries that wait. */
  predicate ReportingEvent(proc: Process, e: Event) {
    && LocalEvent(proc, e)
    && (e.DoSetStatus? ==> e.status == Waiting)
    && (e.DoDrop? ==>
          && e.id in proc.active && proc.active[e.id] < |proc.calls|
          && proc.calls[proc.active[e.id]].status == Waiting)
  }

  /** A run saves its row as waiting only after the registration that ran it last has reported
      `waiting` in memory. */
  predicate Reporting(s: Sys, step: Step) {
    match step
    case Local(p, e) => p < |s.procs| ==> ReportingEvent(s.procs[p], e)
    case SaveWaiting(id, data) =>
      id in s.rows ==>
        var r := s.rows[id].runner;
        IsCall(s, r.proc, r.call) && CallAt(s, r).stage == Registered && CallAt(s, r).status == Waiting
    case _ => true
  }

  ghost predicate ReportingRun(states: seq<Sys>, steps: seq<Step>) {
    IsRun(states, steps) && forall i :: 0 <= i < |steps| ==> Reporting(states[i], steps[i])
  }

  // ---------- who may be running an execution ----------

  /** The call has won its row, or is on its way to running a new one, or runs and has not
      reported `waiting`. */
  predicate Demanding(call: Call) {
    || call.stage == Won
    || (!call.resumes && (call.stage == Throttled || call.stage == Writing))
    || RunsHere(call)
  }

  predicate RunsHere(call: Call) {
    call.stage == Registered && !call.cleaned && call.status != Waiting
  }

  ghost predicate CallControl(p: nat, proc: Process, c: nat, rows: map<Id, Row>)
    requires c < |proc.calls|
  {
    var call := proc.calls[c];
    && call.id in rows
    && (Demanding(call) ==> rows[call.id].runner == Runner(p, c))
    && (RunsHere(call) ==> call.id in proc.active && proc.active[call.id] == c)
  }

  ghost predicate ProcControl(p: nat, proc: Process, rows: map<Id, Row>) {
    forall c :: 0 <= c < |proc.calls| ==> CallControl(p, proc, c, rows)
  }

  /** A row waits only while the call that ran it last is registered and reports `waiting`. */
  ghost predicate RowControl(s: Sys, id: Id)
    requires id in s.rows
  {
    var r := s.rows[id].runner;
    && IsCall(s, r.proc, r.call) && CallAt(s, r).id == id
    && (s.rows[id].status == Waiting ==> CallAt(s, r).stage == Registered && CallAt(s, r).status == Waiting)
  }

  ghost predicate Control(s: Sys) {
    && Books(s)
    && (forall p :: 0 <= p < |s.procs| ==> ProcControl(p, s.procs[p], s.rows))
    && (forall id :: id in s.rows ==> RowControl(s, id))
  }

  /** How an event that wins nothing may change one call. */
  predicate Calmer(a: Call, b: Call) {
    && b.id == a.id
    && (Demanding(b) ==> Demanding(a))
    && (RunsHere(b) ==> RunsHere(a))
    && (a.stage == Registered && a.status == Waiting ==> b.stage == Registered && b.status == Waiting)
  }

  ghost predicate Calm(before: Process, after: Process) {
    && |after.calls| == |before.calls|
    && forall c :: 0 <= c < |before.calls| ==> Calmer(before.calls[c], after.calls[c])
  }

  lemma ReleaseIsCalm(p: Process, e: Event, limit: nat)
    requires Sound(p, limit) && Possible(p, e)
    requires e.DoCleanup? || e.DoWriteFails? || e.DoRemoveQueued?
    ensures Calm(p, Apply(p, e))
  {
    forall c | 0 <= c < |p.calls|
      ensures c < |Apply(p, e).calls| && Calmer(p.calls[c], Apply(p, e).calls[c])
    {
      if e.DoCleanup? {
        CleanupProgress(p, e.c, c, limit);
      } else if e.DoWriteFails? {
        WriteFailsProgress(p, e.c, c, limit);
      } else {
        RemoveQueuedProgress(p, e.id, c, limit);
      }
    }
    StepBeginsNothing(p, e, limit);
  }

  lemma PlainIsCalm(p: Process, e: Event, limit: nat)
    requires Sound(p, limit) && ReportingEvent(p, e)
    requires e.DoSetStatus? || e.DoFinalize? || e.DoStop? || e.DoDrop? || e.DoDisable?
    ensures Calm(p, Apply(p, e))
    ensures forall id :: id in p.active && p.calls[p.active[id]].status != Waiting ==>
              id in Apply(p, e).active && Apply(p, e).active[id] == p.active[id]
  {
  }

  lemma CalmKeepsProcControl(p: nat, before: Process, after: Process, rows: map<Id, Row>)
    requires ProcControl(p, before, rows) && Calm(before, after)
    requires forall c :: 0 <= c < |after.calls| && RunsHere(after.calls[c]) ==>
               after.calls[c].id in after.active && after.active[after.calls[c].id] == c
    ensures ProcControl(p, after, rows)
  {
    forall c | 0 <= c < |after.calls|
      ensures CallControl(p, after, c, rows)
    {
      assert CallControl(p, before, c, rows) && Calmer(before.calls[c], after.calls[c]);
    }
  }

  /** The clean-up of a registration never takes out the entry of another registration: if the
      entry goes, it led to this very registration. */
  lemma CleanupTakesOutOwnEntry(p: nat, proc: Process, c: nat, rows: map<Id, Row>, limit: nat)
    requires Sound(proc, limit) && ProcControl(p, proc, rows) && c < |proc.calls| && CanClean(proc.calls[c])
    ensures proc.calls[c].status != Waiting ==>
              proc.calls[c].id in proc.active && proc.active[proc.calls[c].id] == c
    ensures forall id :: id in proc.active && proc.active[id] != c ==>
              id in Cleanup(proc, c).active && Cleanup(proc, c).active[id] == proc.active[id]
  {
    assert CallControl(p, proc, c, rows);
    CleanupProgress(proc, c, c, limit);
  }

  lemma CleanupKeepsProcControl(p: nat, proc: Process, c: nat, rows: map<Id, Row>, limit: nat)
    requires Sound(proc, limit) && ProcControl(p, proc, rows) && c < |proc.calls| && CanClean(proc.calls[c])
    ensures ProcControl(p, Cleanup(proc, c), rows)
  {
    var after := Cleanup(proc, c);
    ReleaseIsCalm(proc, DoCleanup(c), limit);
    CleanupTakesOutOwnEntry(p, proc, c, rows, limit);
    forall d | 0 <= d < |after.calls| && RunsHere(after.calls[d])
      ensures after.calls[d].id in after.active && after.active[after.calls[d].id] == d
    {
      assert Calmer(proc.calls[d], after.calls[d]) && CallControl(p, proc, d, rows);
      CleanupProgress(proc, c, c, limit);
    }
    CalmKeepsProcControl(p, proc, after, rows);
  }

  lemma RegisterKeepsProcControl(p: nat, proc: Process, c: nat, rows: map<Id, Row>)
    requires WellFormed(proc) && ProcControl(p, proc, rows) && c < |proc.calls| && proc.calls[c].stage == Won
    ensures ProcControl(p, Register(proc, c), rows)
  {
    var after := Register(proc, c);
    assert CallControl(p, proc, c, rows);
    forall d | 0 <= d < |after.calls|
      ensures CallControl(p, after, d, rows)
    {
      assert CallControl(p, proc, d, rows);
    }
  }

  lemma LocalKeepsProcControl(p: nat, proc: Process, e: Event, rows: map<Id, Row>, limit: nat)
    requires Sound(proc, limit) && ProcControl(p, proc, rows) && ReportingEvent(proc, e)
    ensures ProcControl(p, Apply(proc, e), rows)
  {
    var after := Apply(proc, e);
    if e.DoRegister? {
      RegisterKeepsProcControl(p, proc, e.c, rows);
    } else if e.DoCleanup? {
      CleanupKeepsProcControl(p, proc, e.c, rows, limit);
    } else if e.DoRemoveQueued? {
      ReleaseIsCalm(proc, e, limit);
      RemovingKeepsActive(proc, e.id, limit);
      forall c | 0 <= c < |after.calls| && RunsHere(after.calls[c])
        ensures after.calls[c].id in after.active && after.active[after.calls[c].id] == c
      {
        assert Calmer(proc.calls[c], after.calls[c]) && CallControl(p, proc, c, rows);
      }
      CalmKeepsProcControl(p, proc, after, rows);
    } else {
      PlainIsCalm(proc, e, limit);
      forall c | 0 <= c < |after.calls| && RunsHere(after.calls[c])
        ensures after.calls[c].id in after.active && after.active[after.calls[c].id] == c
      {
        assert Calmer(proc.calls[c], after.calls[c]) && CallControl(p, proc, c, rows);
      }
      CalmKeepsProcControl(p, proc, after, rows);
    }
  }

  lemma WriteFailsKeepsProcControl(p: nat, proc: Process, c: nat, rows: map<Id, Row>, limit: nat)
    requires Sound(proc, limit) && ProcControl(p, proc, rows) && c < |proc.calls| && proc.calls[c].stage == Writing
    ensures ProcControl(p, WriteFails(proc, c), rows)
  {
    var after := WriteFails(proc, c);
    ReleaseIsCalm(proc, DoWriteFails(c), limit);
    WriteFailsProgress(proc, c, c, limit);
    forall d | 0 <= d < |after.calls| && RunsHere(after.calls[d])
      ensures after.calls[d].id in after.active && after.active[after.calls[d].id] == d
    {
      assert Calmer(proc.calls[d], after.calls[d]) && CallControl(p, proc, d, rows);
    }
    CalmKeepsProcControl(p, proc, after, rows);
  }

  // ---------- control over the whole system ----------

  /** What a waiting row relies on survives. */
  ghost predicate KeepsWaiters(before: Process, after: Process) {
    && |before.calls| <= |after.calls|
    && forall c :: 0 <= c < |before.calls| ==>
         && after.calls[c].id == before.calls[c].id
         && (before.calls[c].stage == Registered && before.calls[c].status == Waiting ==>
               after.calls[c].stage == Registered && after.calls[c].status == Waiting)
  }

  lemma ReplaceProcess(s: Sys, p: nat, after: Process)
    requires Control(s) && p < |s.procs|
    requires Sound(after, s.limits[p]) && ProcControl(p, after, s.rows) && KeepsWaiters(s.procs[p], after)
    ensures Control(s.(procs := s.procs[p := after]))
  {
    var t := s.(procs := s.procs[p := after]);
    forall id | id in t.rows
      ensures RowControl(t, id)
    {
      assert RowControl(s, id);
    }
  }

  lemma LocalKeepsWaiters(proc: Process, e: Event, limit: nat)
    requires Sound(proc, limit) && ReportingEvent(proc, e)
    ensures KeepsWaiters(proc, Apply(proc, e))
  {
    if e.DoCleanup? || e.DoRemoveQueued? {
      ReleaseIsCalm(proc, e, limit);
      assert forall c :: 0 <= c < |proc.calls| ==> Calmer(proc.calls[c], Apply(proc, e).calls[c]);
    } else if e.DoRegister? {
    } else {
      PlainIsCalm(proc, e, limit);
      assert forall c :: 0 <= c < |proc.calls| ==> Calmer(proc.calls[c], Apply(proc, e).calls[c]);
    }
  }

  lemma LocalKeepsControl(s: Sys, p: nat, e: Event)
    requires Control(s) && p < |s.procs| && ReportingEvent(s.procs[p], e)
    ensures Control(Happen(s, p, e))
  {
    StepKeepsSound(s.procs[p], e, s.limits[p]);
    LocalKeepsProcControl(p, s.procs[p], e, s.rows, s.limits[p]);
    LocalKeepsWaiters(s.procs[p], e, s.limits[p]);
    ReplaceProcess(s, p, Apply(s.procs[p], e));
  }

  lemma WriteFailsKeepsControl(s: Sys, p: nat, c: nat)
    requires Control(s) && IsCall(s, p, c) && s.procs[p].calls[c].stage == Writing
    ensures Control(Happen(s, p, DoWriteFails(c)))
  {
    var proc, limit := s.procs[p], s.limits[p];
    StepKeepsSound(proc, DoWriteFails(c), limit);
    WriteFailsKeepsProcControl(p, proc, c, s.rows, limit);
    ReleaseIsCalm(proc, DoWriteFails(c), limit);
    assert forall d :: 0 <= d < |proc.calls| ==> Calmer(proc.calls[d], WriteFails(proc, c).calls[d]);
    ReplaceProcess(s, p, WriteFails(proc, c));
  }

  /** Changing a row without changing who runs it. */
  lemma RowChangeKeepsControl(s: Sys, id: Id, row: Row)
    requires Control(s) && id in s.rows && row.runner == s.rows[id].runner
    requires row.status == Waiting ==>
               CallAt(s, row.runner).stage == Registered && CallAt(s, row.runner).status == Waiting
    ensures Control(SetRow(s, id, row))
  {
    var t := SetRow(s, id, row);
    forall p | 0 <= p < |s.procs|
      ensures ProcControl(p, t.procs[p], t.rows)
    {
      assert ProcControl(p, s.procs[p], s.rows);
      forall c | 0 <= c < |t.procs[p].calls|
        ensures CallControl(p, t.procs[p], c, t.rows)
      {
        assert CallControl(p, s.procs[p], c, s.rows);
      }
    }
    forall k | k in t.rows
      ensures RowControl(t, k)
    {
      assert RowControl(s, k);
    }
  }

  /** No call demands an execution whose row waits. */
  lemma WaitingIsUndemanded(s: Sys, id: Id, p: nat, c: nat)
    requires Control(s) && id in s.rows && s.rows[id].status == Waiting
    requires IsCall(s, p, c) && s.procs[p].calls[c].id == id
    ensures !Demanding(s.procs[p].calls[c])
  {
    assert RowControl(s, id) && ProcControl(p, s.procs[p], s.rows);
    assert CallControl(p, s.procs[p], c, s.rows);
  }

  lemma RowChangesHands(p: nat, proc: Process, rows: map<Id, Row>, id: Id, row: Row)
    requires ProcControl(p, proc, rows)
    requires forall c :: 0 <= c < |proc.calls| && proc.calls[c].id == id && Demanding(proc.calls[c]) ==>
               row.runner == Runner(p, c)
    ensures ProcControl(p, proc, rows[id := row])
  {
    var more := rows[id := row];
    forall c | 0 <= c < |proc.calls|
      ensures CallControl(p, proc, c, more)
    {
      assert CallControl(p, proc, c, rows);
    }
  }

  /** A row goes to call `r`; nobody else demands it. */
  lemma HandOverKeepsControl(s: Sys, id: Id, row: Row)
    requires Control(s) && id in s.rows && row.status != Waiting
    requires IsCall(s, row.runner.proc, row.runner.call) && CallAt(s, row.runner).id == id
    requires forall q: nat, d: nat :: (IsCall(s, q, d) && s.procs[q].calls[d].id == id
                                       && Demanding(s.procs[q].calls[d])) ==> row.runner == Runner(q, d)
    ensures Control(SetRow(s, id, row))
  {
    var t := SetRow(s, id, row);
    forall q | 0 <= q < |t.procs|
      ensures ProcControl(q, t.procs[q], t.rows)
    {
      assert ProcControl(q, s.procs[q], s.rows);
      assert forall d: nat :: d < |s.procs[q].calls| ==> IsCall(s, q, d);
      RowChangesHands(q, s.procs[q], s.rows, id, row);
    }
    forall k | k in t.rows
      ensures RowControl(t, k)
    {
      if k != id {
        assert RowControl(s, k);
      }
    }
  }

  /** The runner of a row wins it. */
  lemma WinKeepsControl(s: Sys, p: nat, c: nat)
    requires Control(s) && IsCall(s, p, c) && s.procs[p].calls[c].stage == Writing
    requires s.procs[p].calls[c].id in s.rows
    requires s.rows[s.procs[p].calls[c].id].runner == Runner(p, c)
    ensures Control(Happen(s, p, DoWriteSucceeds(c)))
  {
    var proc := s.procs[p];
    var after := WriteSucceeds(proc, c);
    StepKeepsSound(proc, DoWriteSucceeds(c), s.limits[p]);
    forall d | 0 <= d < |after.calls|
      ensures CallControl(p, after, d, s.rows)
    {
      assert CallControl(p, proc, d, s.rows);
    }
    ReplaceProcess(s, p, after);
  }

  lemma RowsGrow(p: nat, proc: Process, rows: map<Id, Row>, more: map<Id, Row>)
    requires ProcControl(p, proc, rows)
    requires forall id :: id in rows ==> id in more && more[id] == rows[id]
    ensures ProcControl(p, proc, more)
  {
    forall c | 0 <= c < |proc.calls|
      ensures CallControl(p, proc, c, more)
    {
      assert CallControl(p, proc, c, rows);
    }
  }

  lemma BeginKeepsProcControl(p: nat, proc: Process, id: Id, mode: Mode, resumes: bool, rows: map<Id, Row>)
    requires ProcControl(p, proc, rows) && id in rows
    requires !resumes ==> rows[id].runner == Runner(p, |proc.calls|)
    ensures ProcControl(p, Begin(proc, id, mode, resumes), rows)
  {
    var after := Begin(proc, id, mode, resumes);
    forall c | 0 <= c < |after.calls|
      ensures CallControl(p, after, c, rows)
    {
      if c < |proc.calls| {
        assert CallControl(p, proc, c, rows);
      }
    }
  }

  lemma ResumeReadKeepsControl(s: Sys, p: nat, id: Id, mode: Mode)
    requires Control(s) && p < |s.procs| && id in s.rows
    ensures Control(Happen(s, p, DoBegin(id, mode, true)))
  {
    StepKeepsSound(s.procs[p], DoBegin(id, mode, true), s.limits[p]);
    BeginKeepsProcControl(p, s.procs[p], id, mode, true, s.rows);
    ReplaceProcess(s, p, Begin(s.procs[p], id, mode, true));
  }

  lemma CreateKeepsProcs(s: Sys, p: nat, id: Id, mode: Mode, row: Row, q: nat)
    requires Control(s) && p < |s.procs| && id !in s.rows && q < |s.procs|
    requires row.runner == Runner(p, |s.procs[p].calls|)
    ensures var t := Happen(SetRow(s, id, row), p, DoBegin(id, mode, false));
            Sound(t.procs[q], t.limits[q]) && ProcControl(q, t.procs[q], t.rows)
  {
    var rows := s.rows[id := row];
    assert ProcControl(q, s.procs[q], s.rows);
    RowsGrow(q, s.procs[q], s.rows, rows);
    if q == p {
      StepKeepsSound(s.procs[p], DoBegin(id, mode, false), s.limits[p]);
      BeginKeepsProcControl(p, s.procs[p], id, mode, false, rows);
    }
  }

  lemma CreateKeepsRows(s: Sys, p: nat, id: Id, mode: Mode, row: Row, k: Id)
    requires Control(s) && p < |s.procs| && id !in s.rows && (k in s.rows || k == id)
    requires row.status != Waiting && row.runner == Runner(p, |s.procs[p].calls|)
    ensures RowControl(Happen(SetRow(s, id, row), p, DoBegin(id, mode, false)), k)
  {
    if k != id {
      assert RowControl(s, k);
    }
  }

  lemma CreateKeepsControl(s: Sys, p: nat, id: Id, mode: Mode, row: Row)
    requires Control(s) && p < |s.procs| && id !in s.rows
    requires row.status != Waiting && row.runner == Runner(p, |s.procs[p].calls|)
    ensures Control(Happen(SetRow(s, id, row), p, DoBegin(id, mode, false)))
  {
    var t := Happen(SetRow(s, id, row), p, DoBegin(id, mode, false));
    forall q | 0 <= q < |t.procs|
      ensures Sound(t.procs[q], t.limits[q]) && ProcControl(q, t.procs[q], t.rows)
    {
      CreateKeepsProcs(s, p, id, mode, row, q);
    }
    forall k | k in t.rows
      ensures RowControl(t, k)
    {
      CreateKeepsRows(s, p, id, mode, row, k);
    }
  }

  lemma CompareAndSetKeepsControl(s: Sys, p: nat, c: nat)
    requires Control(s) && Enabled(s, CompareAndSet(p, c))
    ensures Control(Next(s, CompareAndSet(p, c)))
  {
    var id := s.procs[p].calls[c].id;
    if s.rows[id].status == Waiting {
      forall q: nat, d: nat | IsCall(s, q, d) && s.procs[q].calls[d].id == id
        ensures !Demanding(s.procs[q].calls[d])
      {
        WaitingIsUndemanded(s, id, q, d);
      }
      var t := Next(s, CompareAndSet(p, c));
      HandOverKeepsControl(s, id, t.rows[id]);
      WinKeepsControl(SetRow(s, id, t.rows[id]), p, c);
      ControlIgnoresSnaps(Happen(SetRow(s, id, t.rows[id]), p, DoWriteSucceeds(c)), t.snaps, t.updates);
    } else {
      WriteFailsKeepsControl(s, p, c);
    }
  }

  lemma ControlIgnoresSnaps(s: Sys, snaps: map<Runner, Snapshot>, updates: seq<Update>)
    requires Control(s)
    ensures Control(s.(snaps := snaps, updates := updates))
  {
    var t := s.(snaps := snaps, updates := updates);
    forall id | id in t.rows
      ensures RowControl(t, id)
    {
      assert RowControl(s, id);
    }
  }

  lemma StartNewKeepsControl(s: Sys, p: nat, c: nat, regular: bool)
    requires Control(s) && Enabled(s, StartNew(p, c, regular))
    ensures Control(Next(s, StartNew(p, c, regular)))
  {
    var id := s.procs[p].calls[c].id;
    assert ProcControl(p, s.procs[p], s.rows) && CallControl(p, s.procs[p], c, s.rows);
    assert RowControl(s, id);
    if regular {
      var row := s.rows[id].(status := Running, touched := false);
      RowChangeKeepsControl(s, id, row);
      WinKeepsControl(SetRow(s, id, row), p, c);
    } else {
      WinKeepsControl(s, p, c);
    }
  }

  /** A step that changes one row and nothing else. */
  lemma OneRowStep(s: Sys, step: Step, id: Id, row: Row)
    requires Books(s) && Enabled(s, step) && (step.SaveWaiting? || step.RowChange? || step.UpdateWrite?)
    requires id in s.rows && RowsAfter(s, step) == s.rows[id := row]
    ensures Next(s, step) == SetRow(s, id, row)
  {
  }

  lemma RowStepKeepsControl(s: Sys, step: Step)
    requires Control(s) && Enabled(s, step) && Reporting(s, step)
    requires step.SaveWaiting? || step.RowChange? || step.UpdateRead? || step.UpdateWrite?
    ensures Control(Next(s, step))
  {
    if step.UpdateRead? {
      ControlIgnoresSnaps(s, s.snaps, Next(s, step).updates);
    } else {
      var id := if step.UpdateWrite? then s.updates[step.u].id else step.id;
      var row := RowsAfter(s, step)[id];
      assert RowControl(s, id);
      OneRowStep(s, step, id, row);
      RowChangeKeepsControl(s, id, row);
    }
  }

  lemma CreateStepKeepsControl(s: Sys, step: Step)
    requires Control(s) && step.Create? && Enabled(s, step)
    ensures Control(Next(s, step))
  {
    CreateKeepsControl(s, step.p, step.id, step.mode, RowsAfter(s, step)[step.id]);
  }

  lemma ResumeReadStepKeepsControl(s: Sys, step: Step)
    requires Control(s) && step.ResumeRead? && Enabled(s, step)
    ensures Control(Next(s, step))
  {
    ResumeReadKeepsControl(s, step.p, step.id, step.mode);
    ControlIgnoresSnaps(Happen(s, step.p, DoBegin(step.id, step.mode, true)), SnapsAfter(s, step), s.updates);
  }

  lemma StepKeepsControl(s: Sys, step: Step)
    requires Control(s) && Enabled(s, step) && Reporting(s, step)
    ensures Control(Next(s, step))
  {
    match step
    case Create(p, id, mode, data) => CreateStepKeepsControl(s, step);
    case ResumeRead(p, id, mode) => ResumeReadStepKeepsControl(s, step);
    case StartNew(p, c, regular) => StartNewKeepsControl(s, p, c, regular);
    case WriteError(p, c) => WriteFailsKeepsControl(s, p, c);
    case CompareAndSet(p, c) => CompareAndSetKeepsControl(s, p, c);
    case Local(p, e) => LocalKeepsControl(s, p, e);
    case _ => RowStepKeepsControl(s, step);
  }

  // ---------- over every run ----------

  lemma MoveKeepsControl(s: Sys, step: Step, t: Sys)
    requires Control(s) && Moves(s, step, t) && Reporting(s, step)
    ensures Control(t)
  {
    StepKeepsControl(s, step);
  }

  lemma InitIsControlled(s: Sys)
    requires Init(s)
    ensures Control(s)
  {
    InitHasBooks(s);
  }

  lemma {:induction false} ControlHolds(states: seq<Sys>, steps: seq<Step>, k: nat)
    requires ReportingRun(states, steps) && k <= |steps|
    ensures Control(states[k])
    decreases k
  {
    if k == 0 {
      InitIsControlled(states[0]);
    } else {
      ControlHolds(states, steps, k - 1);
      assert MovesAt(states, steps, k - 1) && Reporting(states[k - 1], steps[k - 1]);
      MoveKeepsControl(states[k - 1], steps[k - 1], states[k]);
    }
  }

  /** A process under control has no registrations whose clean-up takes out another's entry, which
      is what the second half of a shutdown needs. */
  lemma ControlHasNoStrangers(p: nat, proc: Process, rows: map<Id, Row>)
    requires ProcControl(p, proc, rows)
    ensures NoStrangers(proc)
  {
    forall c | 0 <= c < |proc.calls| && CanClean(proc.calls[c]) && proc.calls[c].id in proc.active
               && proc.active[proc.calls[c].id] != c
      ensures proc.calls[c].status == Waiting
    {
      assert CallControl(p, proc, c, rows);
    }
  }

  /** Over every run of every number of processes in which memory reports first: the clean-up of an
      earlier registration never takes the map entry of a later one under the same id. */
  lemma CleanupNeverTakesOutAnother(states: seq<Sys>, steps: seq<Step>, k: nat, p: nat, c: nat, id: Id)
    requires ReportingRun(states, steps) && k <= |steps|
    requires IsCall(states[k], p, c) && WellFormed(states[k].procs[p]) && CanClean(states[k].procs[p].calls[c])
    requires id in states[k].procs[p].active && states[k].procs[p].active[id] != c
    ensures var proc := states[k].procs[p];
            id in Cleanup(proc, c).active && Cleanup(proc, c).active[id] == proc.active[id]
  {
    ControlHolds(states, steps, k);
    var t := states[k];
    CleanupTakesOutOwnEntry(p, t.procs[p], c, t.rows, t.limits[p]);
  }
}
