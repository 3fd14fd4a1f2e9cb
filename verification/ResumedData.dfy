/** What a resumed parent starts from, however reads and writes of its row interleave. */
module ResumedData {
  import opened Executions
  import opened ParentUpdate
  import opened ResumeProtocol
  import opened ResumeSafety

  ghost predicate RowCarries(row: Row) {
    row.touched ==> row.status == Waiting && CarriesChild(row.data)
  }

  predicate WritesResult(w: Update) {
    HasResult(w.report) && w.snapshot.stack != []
  }

  ghost predicate RowsCarry(rows: map<Id, Row>) {
    forall id :: id in rows ==> RowCarries(rows[id])
  }

  ghost predicate UpdatesCarry(updates: seq<Update>) {
    forall i :: 0 <= i < |updates| ==> WritesResult(updates[i])
  }

  ghost predicate SnapsCarry(snaps: map<Runner, Snapshot>) {
    forall r :: r in snaps && snaps[r].sawResult ==> CarriesChild(snaps[r].data)
  }

  ghost predicate Carried(s: Sys) {
    RowsCarry(s.rows) && UpdatesCarry(s.updates) && SnapsCarry(s.snaps)
  }

  lemma RowsKeepCarrying(s: Sys, step: Step)
    requires Carried(s) && Enabled(s, step)
    ensures RowsCarry(RowsAfter(s, step))
  {
    if step.UpdateWrite? {
      var w := s.updates[step.u];
      assert WritesResult(w) && RowCarries(s.rows[w.id]);
      AppliedCarriesChild(w.snapshot, w.report);
    }
  }

  lemma SnapsKeepCarrying(s: Sys, step: Step)
    requires Carried(s) && Enabled(s, step)
    ensures SnapsCarry(SnapsAfter(s, step))
  {
    if step.ResumeRead? {
      assert RowCarries(s.rows[step.id]);
    }
  }

  lemma StepKeepsCarried(s: Sys, step: Step)
    requires Books(s) && Carried(s) && Enabled(s, step)
    ensures Carried(Next(s, step))
  {
    RowsKeepCarrying(s, step);
    SnapsKeepCarrying(s, step);
  }

  // ---------- a written result stays until the row is saved anew ----------

  ghost predicate StillTouched(rows: map<Id, Row>, id: Id, save: nat) {
    id in rows && rows[id].saves >= save
    && (rows[id].saves == save && rows[id].status == Waiting ==> rows[id].touched)
  }

  lemma StepKeepsTouched(s: Sys, step: Step, id: Id, save: nat)
    requires Enabled(s, step) && StillTouched(s.rows, id, save)
    ensures StillTouched(RowsAfter(s, step), id, save)
  {
  }

  lemma MoveKeepsTouched(s: Sys, step: Step, t: Sys, id: Id, save: nat)
    requires Moves(s, step, t) && StillTouched(s.rows, id, save)
    ensures StillTouched(t.rows, id, save)
  {
    StepKeepsTouched(s, step, id, save);
  }

  lemma {:induction false} TouchedHolds(states: seq<Sys>, steps: seq<Step>, i: nat, k: nat, id: Id, save: nat)
    requires IsRun(states, steps) && i <= k <= |steps| && StillTouched(states[i].rows, id, save)
    ensures StillTouched(states[k].rows, id, save)
    decreases k
  {
    if i < k {
      TouchedHolds(states, steps, i, k - 1, id, save);
      assert MovesAt(states, steps, k - 1);
      MoveKeepsTouched(states[k - 1], steps[k - 1], states[k], id, save);
    }
  }

  // ---------- a reader keeps what it read ----------

  predicate SameReading(a: Snapshot, b: Snapshot) {
    a.id == b.id && a.data == b.data && a.sawResult == b.sawResult
  }

  lemma StepKeepsReading(s: Sys, step: Step, r: Runner)
    requires Known(s.procs, s.snaps) && Enabled(s, step) && r in s.snaps
    ensures r in SnapsAfter(s, step) && SameReading(s.snaps[r], SnapsAfter(s, step)[r])
  {
    assert CallFits(s.procs, r, s.snaps[r]);
  }

  lemma MoveKeepsReading(s: Sys, step: Step, t: Sys, r: Runner)
    requires Known(s.procs, s.snaps) && Moves(s, step, t) && r in s.snaps
    ensures r in t.snaps && SameReading(s.snaps[r], t.snaps[r])
  {
    StepKeepsReading(s, step, r);
  }

  lemma RunStepKeepsReading(states: seq<Sys>, steps: seq<Step>, i: nat, r: Runner)
    requires IsRun(states, steps) && i < |steps| && r in states[i].snaps
    ensures r in states[i + 1].snaps && SameReading(states[i].snaps[r], states[i + 1].snaps[r])
  {
    PeriodsHold(states, steps, i);
    assert MovesAt(states, steps, i);
    MoveKeepsReading(states[i], steps[i], states[i + 1], r);
  }

  lemma {:induction false} ReadingHolds(states: seq<Sys>, steps: seq<Step>, i: nat, k: nat, r: Runner)
    requires IsRun(states, steps) && i <= k <= |steps| && r in states[i].snaps
    ensures r in states[k].snaps && SameReading(states[i].snaps[r], states[k].snaps[r])
    decreases k
  {
    if i < k {
      ReadingHolds(states, steps, i, k - 1, r);
      RunStepKeepsReading(states, steps, k - 1, r);
    }
  }

  // ---------- the main result ----------

  ghost predicate Consistent(s: Sys) {
    Books(s) && Periods(s) && Carried(s)
  }

  lemma InitIsConsistent(s: Sys)
    requires Init(s)
    ensures Consistent(s)
  {
    InitHasBooks(s);
    InitHasNoPeriods(s);
  }

  lemma MoveStaysConsistent(s: Sys, step: Step, t: Sys)
    requires Consistent(s) && Moves(s, step, t)
    ensures Consistent(t)
  {
    MoveKeepsBooks(s, step, t);
    MoveKeepsPeriods(s, step, t);
    StepKeepsCarried(s, step);
  }

  lemma {:induction false} RunStaysConsistent(states: seq<Sys>, steps: seq<Step>, k: nat)
    requires IsRun(states, steps) && k <= |steps|
    ensures Consistent(states[k])
    decreases k
  {
    if k == 0 {
      InitIsConsistent(states[0]);
    } else {
      RunStaysConsistent(states, steps, k - 1);
      assert MovesAt(states, steps, k - 1);
      MoveStaysConsistent(states[k - 1], steps[k - 1], states[k]);
    }
  }

  /** Step `r` of the run is a resumer's read of the row `id`, and step `k` is its compare-and-set,
      which finds the row waiting. */
  ghost predicate ReadsThenWins(states: seq<Sys>, steps: seq<Step>, r: nat, k: nat, id: Id) {
    && |states| == |steps| + 1 && r < k < |steps|
    && steps[r].ResumeRead? && steps[r].id == id && steps[r].p < |states[r].procs|
    && steps[k] == CompareAndSet(steps[r].p, |states[r].procs[steps[r].p].calls|)
    && id in states[k].rows && states[k].rows[id].status == Waiting
  }

  lemma ReadingIsTaken(s: Sys, step: Step, t: Sys)
    requires step.ResumeRead? && Moves(s, step, t)
    ensures var me := Runner(step.p, |s.procs[step.p].calls|);
            && me in t.snaps && t.snaps[me].id == step.id && t.snaps[me].data == s.rows[step.id].data
            && t.snaps[me].sawResult == s.rows[step.id].touched
  {
  }

  lemma WinnerTakesReading(s: Sys, r: Runner, id: Id, t: Sys)
    requires Known(s.procs, s.snaps) && Moves(s, CompareAndSet(r.proc, r.call), t)
    requires r in s.snaps && s.snaps[r].id == id && id in s.rows && s.rows[id].status == Waiting
    ensures id in t.rows && t.rows[id].status == Running && t.rows[id].data == s.snaps[r].data
  {
    assert CallFits(s.procs, r, s.snaps[r]);
    assert t.rows == RowsAfter(s, CompareAndSet(r.proc, r.call));
  }

  /** Whatever happens between its read and its compare-and-set: the execution starts from exactly
      what the winner read. */
  lemma WinnerStartsFromReading(states: seq<Sys>, steps: seq<Step>, r: nat, k: nat, id: Id)
    requires IsRun(states, steps) && ReadsThenWins(states, steps, r, k, id)
    ensures id in states[r].rows && id in states[k + 1].rows
    ensures states[k + 1].rows[id].status == Running
    ensures states[k + 1].rows[id].data == states[r].rows[id].data
  {
    var me := Runner(steps[r].p, |states[r].procs[steps[r].p].calls|);
    assert MovesAt(states, steps, r) && MovesAt(states, steps, k);
    ReadingIsTaken(states[r], steps[r], states[r + 1]);
    ReadingHolds(states, steps, r + 1, k, me);
    PeriodsHold(states, steps, k);
    WinnerTakesReading(states[k], me, id, states[k + 1]);
  }

  /** Step `w` of the run writes a child's result into the row `id`, which waits. */
  ghost predicate ChildWrites(states: seq<Sys>, steps: seq<Step>, w: nat, id: Id) {
    && |states| == |steps| + 1 && w < |steps|
    && steps[w].UpdateWrite? && steps[w].u < |states[w].updates| && states[w].updates[steps[w].u].id == id
    && id in states[w].rows && states[w].rows[id].status == Waiting
  }

  lemma WriteTouches(s: Sys, u: nat, t: Sys)
    requires Moves(s, UpdateWrite(u), t) && s.rows[s.updates[u].id].status == Waiting
    ensures StillTouched(t.rows, s.updates[u].id, s.rows[s.updates[u].id].saves)
  {
    assert t.rows == RowsAfter(s, UpdateWrite(u));
  }

  /** In any run of any number of processes: a child writes its result while the parent waits;
      later, with the row still waiting and not saved anew by a run, a resumer reads it; later
      still that resumer wins. Then the
      parent starts from a stack head that shows a child's output or error, whatever else has
      happened, overlapping updates of other children included. */
  lemma LaterReaderStartsFromChildResult(states: seq<Sys>, steps: seq<Step>, w: nat, r: nat, k: nat, id: Id)
    requires IsRun(states, steps)
    requires ChildWrites(states, steps, w, id) && w < r && ReadsThenWins(states, steps, r, k, id)
    requires id in states[r].rows && states[r].rows[id].status == Waiting
    requires states[r].rows[id].saves == states[w].rows[id].saves
    ensures id in states[k + 1].rows && states[k + 1].rows[id].status == Running
    ensures CarriesChild(states[k + 1].rows[id].data)
  {
    assert MovesAt(states, steps, w);
    WriteTouches(states[w], steps[w].u, states[w + 1]);
    TouchedHolds(states, steps, w + 1, r, id, states[w].rows[id].saves);
    RunStaysConsistent(states, steps, r);
    assert RowCarries(states[r].rows[id]);
    WinnerStartsFromReading(states, steps, r, k, id);
  }

  // ---------- a reader that was too early ----------

  lemma UnlimitedGoesOn(p: Process, id: Id)
    ensures var q := Begin(p, id, Unlimited, true);
            && |q.calls| == |p.calls| + 1
            && q.calls[|p.calls|] == Call(id, Unlimited, true, Writing, true, New, Open, false)
  {
  }

  /** The call of a resumer that has read its row and waits for nothing but the database. */
  ghost predicate ReadyToResume(s: Sys, r: Runner, id: Id, data: Parent) {
    && IsCall(s, r.proc, r.call) && CallAt(s, r) == Call(id, Unlimited, true, Writing, true, New, Open, false)
    && r in s.snaps && s.snaps[r].data == data
  }

  lemma ReaderIsReady(s: Sys, p: nat, id: Id, read: Sys)
    requires Consistent(s) && Moves(s, ResumeRead(p, id, Unlimited), read)
    ensures read.rows == s.rows && read.updates == s.updates
    ensures ReadyToResume(read, Runner(p, |s.procs[p].calls|), id, s.rows[id].data)
  {
    UnlimitedGoesOn(s.procs[p], id);
  }

  lemma WrittenRow(s: Sys, u: nat)
    requires UpdatesCarry(s.updates) && Enabled(s, UpdateWrite(u))
    ensures s.updates[u].id in RowsAfter(s, UpdateWrite(u))
    ensures RowsAfter(s, UpdateWrite(u))[s.updates[u].id].status == s.rows[s.updates[u].id].status
    ensures CarriesChild(RowsAfter(s, UpdateWrite(u))[s.updates[u].id].data)
  {
    assert WritesResult(s.updates[u]);
    AppliedCarriesChild(s.updates[u].snapshot, s.updates[u].report);
  }

  lemma WriteShowsResult(s: Sys, u: nat, r: Runner, id: Id, data: Parent, t: Sys)
    requires Consistent(s) && Moves(s, UpdateWrite(u), t) && s.updates[u].id == id && s.rows[id].status == Waiting
    requires ReadyToResume(s, r, id, data)
    ensures id in t.rows && t.rows[id].status == Waiting && CarriesChild(t.rows[id].data)
    ensures ReadyToResume(t, r, id, data)
  {
    WrittenRow(s, u);
    assert t.rows == RowsAfter(s, UpdateWrite(u)) && t.procs == s.procs && t.snaps == s.snaps;
  }

  /** The other half: a resumer that reads before the child's write can still win, and then the
      parent starts from its original input although the child's result had been written. */
  lemma EarlyReaderLosesResult(s: Sys, p: nat, id: Id, u: nat, read: Sys, written: Sys)
    requires Consistent(s) && id in s.rows && s.rows[id].status == Waiting && !CarriesChild(s.rows[id].data)
    requires u < |s.updates| && s.updates[u].id == id
    requires Moves(s, ResumeRead(p, id, Unlimited), read)
    requires Moves(read, UpdateWrite(u), written)
    ensures id in written.rows && CarriesChild(written.rows[id].data)
    ensures var steal := CompareAndSet(p, |s.procs[p].calls|);
            && Enabled(written, steal) && id in RowsAfter(written, steal)
            && RowsAfter(written, steal)[id].status == Running
            && RowsAfter(written, steal)[id].data == s.rows[id].data
  {
    MoveStaysConsistent(s, ResumeRead(p, id, Unlimited), read);
    ReaderIsReady(s, p, id, read);
    WriteShowsResult(read, u, Runner(p, |s.procs[p].calls|), id, s.rows[id].data, written);
  }
}
