/** What holds over every run of the resume protocol. */
module ResumeSafety {
  import opened Wrappers
  import opened Executions
  import opened ParentUpdate
  import opened ResumeProtocol

  // ---------- one resume per waiting period ----------

  /** A resuming call that got past the compare-and-set. Only such a call goes on to schedule the
      resume of its own parent. */
  predicate Wins(call: Call) {
    call.resumes && (call.stage == Won || call.stage == Registered)
  }

  lemma StepKeepsWins(p: Process, e: Event, c: nat, limit: nat)
    requires Sound(p, limit) && Possible(p, e) && c < |p.calls| && !e.DoWriteSucceeds?
    ensures c < |Apply(p, e).calls|
    ensures Wins(Apply(p, e).calls[c]) <==> Wins(p.calls[c])
    ensures Apply(p, e).calls[c].id == p.calls[c].id && Apply(p, e).calls[c].resumes == p.calls[c].resumes
  {
    StepProgress(p, e, c, limit);
    if e.DoWriteFails? {
      WriteFailsProgress(p, e.c, c, limit);
    } else if e.DoCleanup? {
      CleanupProgress(p, e.c, c, limit);
    } else if e.DoRemoveQueued? {
      RemoveQueuedProgress(p, e.id, c, limit);
    }
  }

  /** The winners of an id, over all its waiting periods. */
  ghost function WinnersIn(snaps: map<Runner, Snapshot>, id: Id): set<Runner> {
    set r | r in snaps && snaps[r].id == id && snaps[r].period.Some?
  }

  ghost function Winners(s: Sys, id: Id): set<Runner> {
    WinnersIn(s.snaps, id)
  }

  predicate SamePeriod(a: Snapshot, b: Snapshot) {
    a.id == b.id && a.period.Some? && a.period == b.period
  }

  ghost predicate OneWinnerPerPeriod(snaps: map<Runner, Snapshot>) {
    forall a, b :: (a in snaps && b in snaps && SamePeriod(snaps[a], snaps[b])) ==> a == b
  }

  /** A winner ended a period that its row has entered and left. */
  ghost predicate RowFits(rows: map<Id, Row>, snap: Snapshot) {
    && snap.id in rows
    && (snap.period.Some? ==> snap.period.value <= rows[snap.id].entered)
    && (snap.period.Some? && rows[snap.id].status == Waiting ==> snap.period.value < rows[snap.id].entered)
  }

  ghost predicate RowCounts(row: Row, winners: nat) {
    && winners == row.resumed <= row.entered
    && (row.status == Waiting ==> row.resumed < row.entered)
  }

  /** The rows against the snapshots. */
  ghost predicate Tally(rows: map<Id, Row>, snaps: map<Runner, Snapshot>) {
    && (forall r :: r in snaps ==> RowFits(rows, snaps[r]))
    && (forall id :: id in rows ==> RowCounts(rows[id], |WinnersIn(snaps, id)|))
    && OneWinnerPerPeriod(snaps)
  }

  predicate CallFits(procs: seq<Process>, r: Runner, snap: Snapshot) {
    && r.proc < |procs| && r.call < |procs[r.proc].calls|
    && procs[r.proc].calls[r.call].id == snap.id && procs[r.proc].calls[r.call].resumes
    && (Wins(procs[r.proc].calls[r.call]) <==> snap.period.Some?)
  }

  /** The calls against the snapshots: the resuming calls are the ones with a snapshot. */
  ghost predicate Known(procs: seq<Process>, snaps: map<Runner, Snapshot>) {
    && (forall r :: r in snaps ==> CallFits(procs, r, snaps[r]))
    && (forall p, c :: 0 <= p < |procs| && 0 <= c < |procs[p].calls| && procs[p].calls[c].resumes ==>
          Runner(p, c) in snaps)
  }

  ghost predicate Periods(s: Sys) {
    Known(s.procs, s.snaps) && Tally(s.rows, s.snaps)
  }

  // ---------- steps that neither start nor end a period ----------

  ghost predicate QuietProc(before: Process, after: Process) {
    && |before.calls| <= |after.calls|
    && (forall c :: 0 <= c < |before.calls| ==>
          && after.calls[c].id == before.calls[c].id && after.calls[c].resumes == before.calls[c].resumes
          && (Wins(after.calls[c]) <==> Wins(before.calls[c])))
    && (forall c :: |before.calls| <= c < |after.calls| ==> !after.calls[c].resumes)
  }

  predicate QuietRow(before: Row, after: Row) {
    && after.entered == before.entered && after.resumed == before.resumed
    && (after.status == Waiting ==> before.status == Waiting)
  }

  ghost predicate QuietRows(before: map<Id, Row>, after: map<Id, Row>) {
    && (forall id :: id in before ==> id in after && QuietRow(before[id], after[id]))
    && (forall id :: id in after && id !in before ==> after[id].resumed == 0 && after[id].status != Waiting)
  }

  ghost predicate Quiet(s: Sys, t: Sys) {
    && t.snaps == s.snaps
    && |t.procs| == |s.procs|
    && (forall p :: 0 <= p < |s.procs| ==> QuietProc(s.procs[p], t.procs[p]))
    && QuietRows(s.rows, t.rows)
  }

  lemma QuietKeepsPeriods(s: Sys, t: Sys)
    requires Periods(s) && Quiet(s, t)
    ensures Periods(t)
  {
    QuietKeepsKnown(s.procs, t.procs, s.snaps);
    QuietKeepsTally(s.rows, t.rows, s.snaps);
  }

  lemma QuietKeepsKnown(before: seq<Process>, after: seq<Process>, snaps: map<Runner, Snapshot>)
    requires Known(before, snaps) && |after| == |before|
    requires forall p :: 0 <= p < |before| ==> QuietProc(before[p], after[p])
    ensures Known(after, snaps)
  {
    forall r | r in snaps
      ensures CallFits(after, r, snaps[r])
    {
      assert CallFits(before, r, snaps[r]) && QuietProc(before[r.proc], after[r.proc]);
    }
    forall p, c | 0 <= p < |after| && 0 <= c < |after[p].calls| && after[p].calls[c].resumes
      ensures Runner(p, c) in snaps
    {
      assert QuietProc(before[p], after[p]);
    }
  }

  lemma QuietKeepsTally(before: map<Id, Row>, after: map<Id, Row>, snaps: map<Runner, Snapshot>)
    requires Tally(before, snaps) && QuietRows(before, after)
    ensures Tally(after, snaps)
  {
    forall r | r in snaps
      ensures RowFits(after, snaps[r])
    {
      assert RowFits(before, snaps[r]) && QuietRow(before[snaps[r].id], after[snaps[r].id]);
    }
    forall id | id in after
      ensures RowCounts(after[id], |WinnersIn(snaps, id)|)
    {
      if id in before {
        assert RowCounts(before[id], |WinnersIn(snaps, id)|) && QuietRow(before[id], after[id]);
      } else {
        assert WinnersIn(snaps, id) == {};
      }
    }
  }

  lemma EventIsQuiet(p: Process, e: Event, limit: nat)
    requires Sound(p, limit) && Possible(p, e)
    requires e.DoBegin? ==> !e.resumes
    requires e.DoWriteSucceeds? ==> !p.calls[e.c].resumes
    ensures QuietProc(p, Apply(p, e))
  {
    var q := Apply(p, e);
    forall c | 0 <= c < |p.calls|
      ensures c < |q.calls| && q.calls[c].id == p.calls[c].id && q.calls[c].resumes == p.calls[c].resumes
      ensures Wins(q.calls[c]) <==> Wins(p.calls[c])
    {
      if !e.DoWriteSucceeds? {
        StepKeepsWins(p, e, c, limit);
      }
    }
    if !e.DoBegin? {
      StepBeginsNothing(p, e, limit);
    }
  }

  lemma HappenIsQuiet(s: Sys, p: nat, e: Event)
    requires Books(s) && p < |s.procs| && Possible(s.procs[p], e)
    requires e.DoBegin? ==> !e.resumes
    requires e.DoWriteSucceeds? ==> !s.procs[p].calls[e.c].resumes
    ensures Quiet(s, Happen(s, p, e))
  {
    EventIsQuiet(s.procs[p], e, s.limits[p]);
  }

  lemma RowIsQuiet(s: Sys, id: Id, row: Row)
    requires id in s.rows && QuietRow(s.rows[id], row)
    ensures Quiet(s, SetRow(s, id, row))
  {
  }

  lemma UpdatesAreQuiet(s: Sys, updates: seq<Update>)
    ensures Quiet(s, s.(updates := updates))
  {
  }

  lemma CreateIsQuiet(s: Sys, p: nat, id: Id, mode: Mode, row: Row)
    requires Books(s) && p < |s.procs| && id !in s.rows && row.resumed == 0 && row.status != Waiting
    ensures Quiet(s, Happen(SetRow(s, id, row), p, DoBegin(id, mode, false)))
  {
    EventIsQuiet(s.procs[p], DoBegin(id, mode, false), s.limits[p]);
  }

  lemma StartNewIsQuiet(s: Sys, p: nat, c: nat, regular: bool)
    requires Books(s) && Enabled(s, StartNew(p, c, regular))
    ensures Quiet(s, Next(s, StartNew(p, c, regular)))
  {
    var id := s.procs[p].calls[c].id;
    RowIsQuiet(s, id, s.rows[id].(status := Running, touched := false));
    EventIsQuiet(s.procs[p], DoWriteSucceeds(c), s.limits[p]);
  }

  // ---------- reading, entering a period, winning ----------

  lemma BeginAppends(p: Process, id: Id, mode: Mode, resumes: bool)
    ensures var q := Begin(p, id, mode, resumes);
            && |q.calls| == |p.calls| + 1 && q.calls[..|p.calls|] == p.calls
            && q.calls[|p.calls|].id == id && q.calls[|p.calls|].resumes == resumes && !Wins(q.calls[|p.calls|])
  {
  }

  /** A resuming call arrives with its snapshot. */
  lemma ArrivalIsKnown(procs: seq<Process>, snaps: map<Runner, Snapshot>, p: nat, after: Process, snap: Snapshot)
    requires Known(procs, snaps) && p < |procs| && snap.period.None?
    requires |after.calls| == |procs[p].calls| + 1 && after.calls[..|procs[p].calls|] == procs[p].calls
    requires var call := after.calls[|procs[p].calls|]; call.id == snap.id && call.resumes && !Wins(call)
    ensures Runner(p, |procs[p].calls|) !in snaps
    ensures Known(procs[p := after], snaps[Runner(p, |procs[p].calls|) := snap])
  {
    var me := Runner(p, |procs[p].calls|);
    var now, more := procs[p := after], snaps[me := snap];
    assert me in snaps ==> CallFits(procs, me, snaps[me]);
    assert forall c :: 0 <= c < |procs[p].calls| ==> after.calls[c] == after.calls[..|procs[p].calls|][c];
    forall r | r in more
      ensures CallFits(now, r, more[r])
    {
      assert r in snaps ==> CallFits(procs, r, snaps[r]);
    }
  }

  lemma OtherWinners(snaps: map<Runner, Snapshot>, me: Runner, snap: Snapshot, id: Id)
    requires snap.period.None? || snap.id != id
    requires me in snaps ==> snaps[me].period.None? || snaps[me].id != id
    ensures WinnersIn(snaps[me := snap], id) == WinnersIn(snaps, id)
  {
  }

  lemma OneMoreWinner(snaps: map<Runner, Snapshot>, me: Runner, snap: Snapshot)
    requires snap.period.Some? && me in snaps && snaps[me].period.None?
    ensures |WinnersIn(snaps[me := snap], snap.id)| == |WinnersIn(snaps, snap.id)| + 1
  {
    assert WinnersIn(snaps[me := snap], snap.id) == WinnersIn(snaps, snap.id) + {me};
  }

  lemma ArrivalKeepsTally(rows: map<Id, Row>, snaps: map<Runner, Snapshot>, me: Runner, snap: Snapshot)
    requires Tally(rows, snaps) && me !in snaps && snap.period.None? && snap.id in rows
    ensures Tally(rows, snaps[me := snap])
  {
    var more := snaps[me := snap];
    forall id | id in rows
      ensures RowCounts(rows[id], |WinnersIn(more, id)|)
    {
      OtherWinners(snaps, me, snap, id);
    }
    forall r | r in more
      ensures RowFits(rows, more[r])
    {
      assert r in snaps ==> RowFits(rows, snaps[r]);
    }
    forall a, b | a in more && b in more && SamePeriod(more[a], more[b])
      ensures a == b
    {
      assert SamePeriod(snaps[a], snaps[b]);
    }
  }

  lemma ResumeReadKeepsPeriods(s: Sys, p: nat, id: Id, mode: Mode)
    requires Books(s) && Periods(s) && p < |s.procs| && id in s.rows
    ensures Periods(Next(s, ResumeRead(p, id, mode)))
  {
    var snap := Snapshot(id, s.rows[id].data, s.rows[id].history, s.rows[id].touched, None);
    BeginAppends(s.procs[p], id, mode, true);
    ArrivalIsKnown(s.procs, s.snaps, p, Begin(s.procs[p], id, mode, true), snap);
    ArrivalKeepsTally(s.rows, s.snaps, Runner(p, |s.procs[p].calls|), snap);
  }

  lemma PeriodStarts(rows: map<Id, Row>, snaps: map<Runner, Snapshot>, id: Id, row: Row)
    requires Tally(rows, snaps) && id in rows
    requires row.entered == rows[id].entered + 1 && row.resumed == rows[id].resumed
    ensures Tally(rows[id := row], snaps)
  {
    var now := rows[id := row];
    forall r | r in snaps
      ensures RowFits(now, snaps[r])
    {
      assert RowFits(rows, snaps[r]);
    }
  }

  /** The snapshot of the winner. */
  ghost function WithPeriod(snaps: map<Runner, Snapshot>, me: Runner, period: nat): map<Runner, Snapshot>
    requires me in snaps
  {
    snaps[me := snaps[me].(period := Some(period))]
  }

  ghost predicate CanWin(rows: map<Id, Row>, snaps: map<Runner, Snapshot>, me: Runner, row: Row) {
    && Tally(rows, snaps) && me in snaps && snaps[me].period.None?
    && snaps[me].id in rows && rows[snaps[me].id].status == Waiting && row.status != Waiting
    && row.entered == rows[snaps[me].id].entered && row.resumed == rows[snaps[me].id].resumed + 1
  }

  lemma WonRowCounts(rows: map<Id, Row>, snaps: map<Runner, Snapshot>, me: Runner, row: Row, k: Id)
    requires CanWin(rows, snaps, me, row) && k in rows
    ensures RowCounts(rows[snaps[me].id := row][k], |WinnersIn(WithPeriod(snaps, me, row.entered), k)|)
  {
    var snap := snaps[me].(period := Some(row.entered));
    assert RowCounts(rows[k], |WinnersIn(snaps, k)|);
    if k == snaps[me].id {
      OneMoreWinner(snaps, me, snap);
    } else {
      OtherWinners(snaps, me, snap, k);
    }
  }

  /** Winning ends the current period, which nobody has ended before. */
  lemma WinKeepsTally(rows: map<Id, Row>, snaps: map<Runner, Snapshot>, me: Runner, row: Row)
    requires CanWin(rows, snaps, me, row)
    ensures Tally(rows[snaps[me].id := row], WithPeriod(snaps, me, row.entered))
  {
    var now, more := rows[snaps[me].id := row], WithPeriod(snaps, me, row.entered);
    forall r | r in more
      ensures RowFits(now, more[r])
    {
      assert RowFits(rows, snaps[r]);
    }
    forall k | k in now
      ensures RowCounts(now[k], |WinnersIn(more, k)|)
    {
      WonRowCounts(rows, snaps, me, row, k);
    }
    forall a, b | a in more && b in more && SamePeriod(more[a], more[b])
      ensures a == b
    {
      assert RowFits(rows, snaps[a]) && RowFits(rows, snaps[b]);
      assert a != me && b != me ==> SamePeriod(snaps[a], snaps[b]);
    }
  }

  lemma WinIsKnown(procs: seq<Process>, snaps: map<Runner, Snapshot>, me: Runner, period: nat)
    requires Known(procs, snaps) && me in snaps && procs[me.proc].calls[me.call].stage == Writing
    ensures snaps[me].period.None?
    ensures Known(procs[me.proc := WriteSucceeds(procs[me.proc], me.call)], WithPeriod(snaps, me, period))
  {
    var now := procs[me.proc := WriteSucceeds(procs[me.proc], me.call)];
    var more := WithPeriod(snaps, me, period);
    assert CallFits(procs, me, snaps[me]);
    forall r | r in more
      ensures CallFits(now, r, more[r])
    {
      assert CallFits(procs, r, snaps[r]);
    }
  }

  lemma CompareAndSetKeepsPeriods(s: Sys, p: nat, c: nat)
    requires Books(s) && Periods(s) && Enabled(s, CompareAndSet(p, c))
    ensures Periods(Next(s, CompareAndSet(p, c)))
  {
    var t := Next(s, CompareAndSet(p, c));
    var id := s.procs[p].calls[c].id;
    if s.rows[id].status == Waiting {
      assert CallFits(s.procs, Runner(p, c), s.snaps[Runner(p, c)]);
      WinIsKnown(s.procs, s.snaps, Runner(p, c), s.rows[id].entered);
      WinKeepsTally(s.rows, s.snaps, Runner(p, c), t.rows[id]);
    } else {
      HappenIsQuiet(s, p, DoWriteFails(c));
      QuietKeepsPeriods(s, t);
    }
  }

  lemma RowStepKeepsPeriods(s: Sys, step: Step)
    requires Books(s) && Periods(s) && Enabled(s, step)
    requires step.SaveWaiting? || step.RowChange? || step.UpdateRead? || step.UpdateWrite?
    ensures Periods(Next(s, step))
  {
    var t := Next(s, step);
    match step
    case SaveWaiting(id, data) =>
      if s.rows[id].status == Waiting {
        RowIsQuiet(s, id, t.rows[id]);
        QuietKeepsPeriods(s, t);
      } else {
        PeriodStarts(s.rows, s.snaps, id, t.rows[id]);
      }
    case RowChange(id, status, data) =>
      RowIsQuiet(s, id, t.rows[id]);
      QuietKeepsPeriods(s, t);
    case UpdateRead(id, report) =>
      UpdatesAreQuiet(s, t.updates);
      QuietKeepsPeriods(s, t);
    case UpdateWrite(u) =>
      RowIsQuiet(s, s.updates[u].id, t.rows[s.updates[u].id]);
      QuietKeepsPeriods(s, t);
  }

  lemma StepKeepsPeriods(s: Sys, step: Step)
    requires Books(s) && Periods(s) && Enabled(s, step)
    ensures Periods(Next(s, step))
  {
    match step
    case Create(p, id, mode, data) =>
      CreateIsQuiet(s, p, id, mode, Next(s, step).rows[id]);
      QuietKeepsPeriods(s, Next(s, step));
    case ResumeRead(p, id, mode) =>
      ResumeReadKeepsPeriods(s, p, id, mode);
    case StartNew(p, c, regular) =>
      StartNewIsQuiet(s, p, c, regular);
      QuietKeepsPeriods(s, Next(s, step));
    case WriteError(p, c) =>
      HappenIsQuiet(s, p, DoWriteFails(c));
      QuietKeepsPeriods(s, Next(s, step));
    case CompareAndSet(p, c) => CompareAndSetKeepsPeriods(s, p, c);
    case Local(p, e) =>
      HappenIsQuiet(s, p, e);
      QuietKeepsPeriods(s, Next(s, step));
    case _ => RowStepKeepsPeriods(s, step);
  }

  lemma MoveKeepsPeriods(s: Sys, step: Step, t: Sys)
    requires Books(s) && Periods(s) && Moves(s, step, t)
    ensures Periods(t)
  {
    StepKeepsPeriods(s, step);
  }

  lemma RunStepKeepsPeriods(states: seq<Sys>, steps: seq<Step>, i: nat)
    requires IsRun(states, steps) && i < |steps| && Periods(states[i])
    ensures Periods(states[i + 1])
  {
    BooksHold(states, steps, i);
    assert MovesAt(states, steps, i);
    MoveKeepsPeriods(states[i], steps[i], states[i + 1]);
  }

  lemma {:induction false} PeriodsHold(states: seq<Sys>, steps: seq<Step>, k: nat)
    requires IsRun(states, steps) && k <= |steps|
    ensures Periods(states[k])
    decreases k
  {
    if k == 0 {
      InitHasNoPeriods(states[0]);
    } else {
      PeriodsHold(states, steps, k - 1);
      RunStepKeepsPeriods(states, steps, k - 1);
    }
  }

  lemma InitHasNoPeriods(s: Sys)
    requires Init(s)
    ensures Periods(s)
  {
  }

  /** Main result: in every interleaving of any number of processes, readers and retries, each
      waiting period of each execution is ended by at most one resume, so the calls that got past
      the compare-and-set are at most as many as the periods entered, and fewer while the row
      still waits. */
  lemma ResumesNeverExceedPeriods(states: seq<Sys>, steps: seq<Step>, k: nat, id: Id)
    requires IsRun(states, steps) && k <= |steps| && id in states[k].rows
    ensures var t := states[k];
            && OneWinnerPerPeriod(t.snaps)
            && |Winners(t, id)| <= t.rows[id].entered
            && (t.rows[id].status == Waiting ==> |Winners(t, id)| < t.rows[id].entered)
            && forall p, c :: 0 <= p < |t.procs| && 0 <= c < |t.procs[p].calls| && t.procs[p].calls[c].id == id ==>
                 (Wins(t.procs[p].calls[c]) <==> Runner(p, c) in Winners(t, id))
  {
    PeriodsHold(states, steps, k);
    var t := states[k];
    assert RowCounts(t.rows[id], |Winners(t, id)|);
    forall p, c | 0 <= p < |t.procs| && 0 <= c < |t.procs[p].calls| && t.procs[p].calls[c].id == id
      ensures Wins(t.procs[p].calls[c]) <==> Runner(p, c) in Winners(t, id)
    {
      if Runner(p, c) in t.snaps {
        assert CallFits(t.procs, Runner(p, c), t.snaps[Runner(p, c)]);
      }
    }
  }

  /** Every resumer that finds the period already ended fails, gives its slot back, and never
      registers the execution, whatever happens later. */
  lemma LoserFailsForGood(states: seq<Sys>, steps: seq<Step>, i: nat, k: nat, p: nat, c: nat)
    requires IsRun(states, steps) && i < k <= |steps| && steps[i] == CompareAndSet(p, c)
    requires IsCall(states[i], p, c)
    requires var id := states[i].procs[p].calls[c].id; id in states[i].rows && states[i].rows[id].status != Waiting
    ensures IsCall(states[k], p, c)
    ensures states[k].procs[p].calls[c].stage == Failed && !states[k].procs[p].calls[c].acquired
  {
    BooksHold(states, steps, i);
    assert MovesAt(states, steps, i);
    LoserFails(states[i], p, c, states[i + 1]);
    FailedStaysFailed(states, steps, i + 1, k, p, c);
    BooksHold(states, steps, k);
    FailedHoldsNothing(states[k].procs[p], c, states[k].limits[p]);
  }

  lemma LoserFails(s: Sys, p: nat, c: nat, t: Sys)
    requires Books(s) && Moves(s, CompareAndSet(p, c), t)
    requires s.rows[s.procs[p].calls[c].id].status != Waiting
    ensures IsCall(t, p, c) && t.procs[p].calls[c].stage == Failed
  {
    FailingFails(s.procs[p], c, s.limits[p]);
  }

  lemma FailingFails(p: Process, c: nat, limit: nat)
    requires Sound(p, limit) && c < |p.calls| && p.calls[c].stage == Writing
    ensures c < |WriteFails(p, c).calls| && WriteFails(p, c).calls[c].stage == Failed
  {
    var failed := SetCall(p, c, p.calls[c].(stage := Failed));
    ReleaseProgress(failed, c, c);
  }

  lemma FailedHoldsNothing(p: Process, c: nat, limit: nat)
    requires Sound(p, limit) && c < |p.calls| && p.calls[c].stage == Failed
    ensures !p.calls[c].acquired
  {
  }

  lemma {:induction false} FailedStaysFailed(states: seq<Sys>, steps: seq<Step>, i: nat, k: nat, p: nat, c: nat)
    requires IsRun(states, steps) && i <= k <= |steps|
    requires IsCall(states[i], p, c) && states[i].procs[p].calls[c].stage == Failed
    ensures IsCall(states[k], p, c) && states[k].procs[p].calls[c].stage == Failed
    decreases k
  {
    if i < k {
      FailedStaysFailed(states, steps, i, k - 1, p, c);
      BooksHold(states, steps, k - 1);
      assert MovesAt(states, steps, k - 1);
      MoveKeepsFailed(states[k - 1], steps[k - 1], states[k], p, c);
    }
  }

  lemma MoveKeepsFailed(s: Sys, step: Step, t: Sys, p: nat, c: nat)
    requires Books(s) && Moves(s, step, t) && IsCall(s, p, c) && s.procs[p].calls[c].stage == Failed
    ensures IsCall(t, p, c) && t.procs[p].calls[c].stage == Failed
  {
    StepIsEvent(s, step);
    var e := EventOf(s, step);
    if e.Some? && e.value.0 == p {
      EventKeepsFailed(s.procs[p], e.value.1, c, s.limits[p]);
    }
  }

  lemma EventKeepsFailed(p: Process, e: Event, c: nat, limit: nat)
    requires Sound(p, limit) && Possible(p, e) && c < |p.calls| && p.calls[c].stage == Failed
    ensures c < |Apply(p, e).calls| && Apply(p, e).calls[c].stage == Failed
  {
    StepProgress(p, e, c, limit);
  }
}
