/** Which children's reports a resumed parent shows, however their updates overlap. */
module ReportHistory {
  import opened Wrappers
  import opened Executions
  import opened ParentUpdate
  import opened ResumeProtocol
  import opened ResumeSafety
  import opened ResumedData

  predicate HaveResults(reports: seq<Report>) {
    forall i :: 0 <= i < |reports| ==> HasResult(reports[i])
  }

  /** The data is what was saved, with the reports applied one after the other. */
  ghost predicate Explains(h: History, data: Parent) {
    data == AppliedAll(h.base, h.reports) && HaveResults(h.reports)
  }

  ghost predicate RowsExplained(rows: map<Id, Row>) {
    forall id :: id in rows ==> Explains(rows[id].history, rows[id].data)
  }

  ghost predicate SnapsExplained(snaps: map<Runner, Snapshot>) {
    forall r :: r in snaps ==> Explains(snaps[r].history, snaps[r].data)
  }

  ghost predicate UpdatesExplained(updates: seq<Update>) {
    forall i :: 0 <= i < |updates| ==> Explains(updates[i].history, updates[i].snapshot) && HasResult(updates[i].report)
  }

  ghost predicate Explained(s: Sys) {
    RowsExplained(s.rows) && SnapsExplained(s.snaps) && UpdatesExplained(s.updates)
  }

  lemma {:induction false} OneMoreReport(p: Parent, reports: seq<Report>, r: Report)
    ensures AppliedAll(p, reports + [r]) == Applied(AppliedAll(p, reports), r)
    decreases |reports|
  {
    if reports != [] {
      assert (reports + [r])[1..] == reports[1..] + [r];
      OneMoreReport(Applied(p, reports[0]), reports[1..], r);
    } else {
      assert [r][1..] == [] && AppliedAll(Applied(p, r), []) == Applied(p, r);
    }
  }

  lemma ReportedExplains(h: History, data: Parent, r: Report)
    requires Explains(h, data) && HasResult(r)
    ensures Explains(Reported(h, r), Applied(data, r))
  {
    OneMoreReport(h.base, h.reports, r);
  }

  lemma RowsStayExplained(s: Sys, step: Step)
    requires Explained(s) && Enabled(s, step)
    ensures RowsExplained(RowsAfter(s, step))
  {
    if step.UpdateWrite? {
      var w := s.updates[step.u];
      ReportedExplains(w.history, w.snapshot, w.report);
    }
  }

  lemma MoveKeepsExplained(s: Sys, step: Step, t: Sys)
    requires Explained(s) && Moves(s, step, t)
    ensures Explained(t)
  {
    RowsStayExplained(s, step);
    assert t.rows == RowsAfter(s, step) && t.snaps == SnapsAfter(s, step) && t.updates == UpdatesAfter(s, step);
  }

  /** Over every run: the data of every row is what was last saved there with the reports of its
      history applied in order. */
  lemma {:induction false} ExplainedHolds(states: seq<Sys>, steps: seq<Step>, k: nat)
    requires IsRun(states, steps) && k <= |steps|
    ensures Explained(states[k])
    decreases k
  {
    if k > 0 {
      ExplainedHolds(states, steps, k - 1);
      assert MovesAt(states, steps, k - 1);
      MoveKeepsExplained(states[k - 1], steps[k - 1], states[k]);
    }
  }

  /** Step `j` read the parent for this update: a row that waited and had something to resume, for a
      report with an error or an output. */
  ghost predicate ReadWhileWaiting(states: seq<Sys>, steps: seq<Step>, j: nat, w: Update)
    requires |states| == |steps| + 1 && j < |steps|
  {
    && steps[j] == UpdateRead(w.id, w.report) && (w.report.error.Some? || w.report.output.Some?)
    && w.id in states[j].rows && states[j].rows[w.id].status == Waiting
    && states[j].rows[w.id].data == w.snapshot && w.snapshot.stack != []
  }

  lemma MoveKeepsUpdates(s: Sys, step: Step, t: Sys, u: nat)
    requires Moves(s, step, t) && u < |t.updates|
    ensures u < |s.updates| ==> t.updates[u] == s.updates[u]
    ensures u >= |s.updates| ==>
              && step.UpdateRead? && step.id in s.rows && HasResult(step.report)
              && s.rows[step.id].status == Waiting && s.rows[step.id].data.stack != []
              && t.updates[u] == Update(step.id, s.rows[step.id].data, s.rows[step.id].history, step.report)
  {
    assert t.updates == UpdatesAfter(s, step);
  }

  /** Over every run: whatever is written into a parent, and whenever, was read while it waited. */
  lemma {:induction false} WritesWereReadWhileWaiting(states: seq<Sys>, steps: seq<Step>, k: nat, u: nat)
    returns (j: nat)
    requires IsRun(states, steps) && k <= |steps| && u < |states[k].updates|
    ensures j < k && ReadWhileWaiting(states, steps, j, states[k].updates[u])
    decreases k
  {
    if k > 0 {
      assert MovesAt(states, steps, k - 1);
      MoveKeepsUpdates(states[k - 1], steps[k - 1], states[k], u);
      if u < |states[k - 1].updates| {
        j := WritesWereReadWhileWaiting(states, steps, k - 1, u);
      } else {
        j := k - 1;
      }
    }
  }

  predicate SomeFailed(reports: seq<Report>) {
    exists i :: 0 <= i < |reports| && reports[i].error.Some?
  }

  /** What a history shows at the head of the stack. */
  lemma {:induction false} HistoryShows(p: Parent, reports: seq<Report>)
    requires p.stack != [] && HaveResults(reports)
    ensures var q := AppliedAll(p, reports);
            q.stack != [] && (CarriesChild(q) <==> CarriesChild(p) || reports != [])
    decreases |reports|
  {
    if reports != [] {
      AppliedCarriesChild(p, reports[0]);
      HistoryShows(Applied(p, reports[0]), reports[1..]);
    }
  }

  /** Main result, over every run of every number of processes and overlapping updates: a resumed
      parent fails exactly when what was saved had an error or some report in the history that
      the winner read has one, and it shows a child's result exactly when there is such a report
      or the saved data showed one. */
  lemma ResumedParentShowsItsHistory(states: seq<Sys>, steps: seq<Step>, r: nat, k: nat, id: Id)
    requires IsRun(states, steps) && ReadsThenWins(states, steps, r, k, id)
    requires id in states[r].rows && states[r].rows[id].history.base.stack != []
    ensures id in states[k + 1].rows && states[k + 1].rows[id].status == Running
    ensures states[k + 1].rows[id].data.stack != []
    ensures var h := states[r].rows[id].history;
            var started := states[k + 1].rows[id].data;
            && (started.stack[0].resumeError.Some? <==> h.base.stack[0].resumeError.Some? || SomeFailed(h.reports))
            && (CarriesChild(started) <==> CarriesChild(h.base) || h.reports != [])
  {
    var h := states[r].rows[id].history;
    WinnerStartsFromReading(states, steps, r, k, id);
    ExplainedHolds(states, steps, r);
    assert Explains(h, states[r].rows[id].data);
    HistoryShows(h.base, h.reports);
    FailsExactlyWhenSomeChildFailed(h.base, h.reports);
  }

  /** The same run, in detail: output, error, link and credential flags of the resumed head are those
      of the history that the winner read, and the rest of the stack is as it was saved. */
  lemma ResumedHeadFollowsItsHistory(states: seq<Sys>, steps: seq<Step>, r: nat, k: nat, id: Id)
    requires IsRun(states, steps) && ReadsThenWins(states, steps, r, k, id)
    requires id in states[r].rows && states[r].rows[id].history.base.stack != []
    ensures id in states[k + 1].rows && states[k + 1].rows[id].data.stack != []
    ensures var h := states[r].rows[id].history;
            var base, head := h.base.stack[0], states[k + 1].rows[id].data.stack[0];
            && head.data == LastOutput(h.reports, base.data)
            && head.resumeError == LastError(h.reports, base.resumeError)
            && head.subExecution == LastFailedChild(h.reports, base.subExecution)
            && head.usage.used == (base.usage.used || AnyUsed(h.reports))
            && head.usage.attempted == (base.usage.attempted || AnyAttempted(h.reports))
            && head.node == base.node && states[k + 1].rows[id].data.stack[1..] == h.base.stack[1..]
  {
    var h := states[r].rows[id].history;
    WinnerStartsFromReading(states, steps, r, k, id);
    ExplainedHolds(states, steps, r);
    assert Explains(h, states[r].rows[id].data);
    LastResultsSurvive(h.base, h.reports);
    LastFailedChildIsLinked(h.base, h.reports);
    FlagsAccumulate(h.base, h.reports);
  }

  /** The same run: of all tasks that were saved, the resumed parent has all, unchanged but for the
      flags of the last one of the waiting node, which are those of the history. */
  lemma ResumedTasksFollowTheirHistory(states: seq<Sys>, steps: seq<Step>, r: nat, k: nat, id: Id)
    requires IsRun(states, steps) && ReadsThenWins(states, steps, r, k, id)
    requires id in states[r].rows && states[r].rows[id].history.base.stack != []
    ensures id in states[k + 1].rows
    ensures var h := states[r].rows[id].history;
            var base, started, node := h.base.tasks, states[k + 1].rows[id].data.tasks, h.base.stack[0].node;
            && OnlyLastTaskDiffers(base, started, node)
            && (node in base && base[node] != [] ==>
                  var last := |base[node]| - 1;
                  && started[node][last].used == (base[node][last].used || AnyUsed(h.reports))
                  && started[node][last].attempted == (base[node][last].attempted || AnyAttempted(h.reports)))
  {
    var h := states[r].rows[id].history;
    WinnerStartsFromReading(states, steps, r, k, id);
    ExplainedHolds(states, steps, r);
    assert Explains(h, states[r].rows[id].data);
    OtherTasksStay(h.base, h.reports);
    FlagsAccumulate(h.base, h.reports);
  }

  /** A write puts its own reading's history in place of the row's: reports that were written
      since that reading are gone, and the error with them if only they had one. */
  lemma OverlappingWriteDropsReports(s: Sys, u: nat, t: Sys)
    requires Explained(s) && Moves(s, UpdateWrite(u), t) && s.updates[u].history.base.stack != []
    ensures var w := s.updates[u];
            w.id in t.rows && t.rows[w.id].data.stack != [] && t.rows[w.id].history == Reported(w.history, w.report)
    ensures var w := s.updates[u];
            t.rows[w.id].data.stack[0].resumeError.Some?
            <==> w.history.base.stack[0].resumeError.Some? || SomeFailed(w.history.reports) || w.report.error.Some?
  {
    var w := s.updates[u];
    MoveKeepsExplained(s, UpdateWrite(u), t);
    var h := Reported(w.history, w.report);
    assert t.rows == RowsAfter(s, UpdateWrite(u));
    assert t.rows[w.id].history == h && Explains(h, t.rows[w.id].data);
    HistoryShows(h.base, h.reports);
    FailsExactlyWhenSomeChildFailed(h.base, h.reports);
    assert h.reports[|w.history.reports|] == w.report;
    assert forall i :: 0 <= i < |w.history.reports| ==> h.reports[i] == w.history.reports[i];
  }
}
