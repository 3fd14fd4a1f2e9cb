/** Writing a finished child's result into its waiting parent. */
module ParentUpdate {
  import opened Wrappers

  // ---------- data ----------

  /** Private-credential usage; flags are only ever present when set. */
  datatype Usage = Usage(used: bool, attempted: bool, userId: Option<string>)

  const NO_USAGE: Usage := Usage(false, false, None)

  /** A node's input: what the parent ran it with, or the last output of a child. */
  datatype Payload = Input(items: int) | ChildOutput(output: int)

  datatype Entry = Entry(node: string, data: Payload, usage: Usage,
                         resumeError: Option<string>, subExecution: Option<string>)

  datatype Task = Task(used: bool, attempted: bool)

  /** The stored run of a parent: its node stack, its tasks by node, and, when runtime data
      exists, the user it was resolved for. */
  datatype Parent = Parent(stack: seq<Entry>, tasks: map<string, seq<Task>>, executedBy: Option<Option<string>>)

  /** What a finished child reports; `child` is absent for some callers. */
  datatype Report = Report(error: Option<string>, output: Option<int>, usage: Usage, child: Option<string>)

  /** The summary of a run names a user only when a private credential was used. */
  predicate ProperUsage(u: Usage) {
    u.userId.Some? ==> u.used
  }

  // ---------- one update, as a function ----------

  /** A report with neither error nor output writes nothing. */
  predicate HasResult(r: Report) {
    r.error.Some? || r.output.Some?
  }

  function Merge(prior: Usage, more: Usage): Usage {
    Usage(prior.used || more.used, prior.attempted || more.attempted,
          if more.userId.Some? then more.userId else prior.userId)
  }

  function FlagTask(t: Task, u: Usage): Task {
    Task(t.used || u.used, t.attempted || u.attempted)
  }

  /** Flags the last task of a node, if it has one. */
  function FlagLast(tasks: map<string, seq<Task>>, node: string, u: Usage): map<string, seq<Task>> {
    if node in tasks && |tasks[node]| > 0 then
      var ts := tasks[node];
      tasks[node := ts[|ts| - 1 := FlagTask(ts[|ts| - 1], u)]]
    else tasks
  }

  ghost function Applied(p: Parent, r: Report): Parent {
    if !HasResult(r) || p.stack == [] then p
    else
      var head := p.stack[0];
      var head1 := head.(usage := Merge(head.usage, r.usage));
      var head2 :=
        if r.error.Some? then
          head1.(resumeError := r.error, subExecution := if r.child.Some? then r.child else head1.subExecution)
        else head1.(data := ChildOutput(r.output.value));
      Parent([head2] + p.stack[1..],
             FlagLast(p.tasks, head.node, r.usage),
             if r.usage.used && r.usage.userId.Some? && p.executedBy.Some? then Some(r.usage.userId) else p.executedBy)
  }

  ghost function AppliedAll(p: Parent, reports: seq<Report>): Parent
    decreases |reports|
  {
    if reports == [] then p else AppliedAll(Applied(p, reports[0]), reports[1..])
  }

  /** Between the two, at most the last task of `node` differs: no node comes or goes, and neither
      does a task. */
  ghost predicate OnlyLastTaskDiffers(before: map<string, seq<Task>>, after: map<string, seq<Task>>, node: string) {
    && after.Keys == before.Keys
    && (forall other :: other in before && other != node ==> after[other] == before[other])
    && (node in before ==>
          && |after[node]| == |before[node]|
          && forall i :: 0 <= i < |before[node]| - 1 ==> after[node][i] == before[node][i])
  }

  // ---------- the program's update of a copy of the parent ----------

  /** Returns `None` where the program returns early without writing the row. `waiting` says
      whether the parent row was found in status `waiting`. */
  method UpdateWithChildResults(p: Parent, waiting: bool, r: Report) returns (written: Option<Parent>)
    ensures written == if waiting && HasResult(r) && p.stack != [] then Some(Applied(p, r)) else None
    ensures written.Some? ==> p.stack != [] && OnlyLastTaskDiffers(p.tasks, written.value.tasks, p.stack[0].node)
  {
    if r.error.None? && r.output.None? {
      return None;
    }
    if !waiting {
      return None;
    }
    if |p.stack| == 0 {
      return None;
    }
    var head, tasks, executedBy := p.stack[0], p.tasks, p.executedBy;
    if r.usage.used || r.usage.attempted || r.usage.userId.Some? {
      head := head.(usage := Usage(
        head.usage.used || r.usage.used,
        head.usage.attempted || r.usage.attempted,
        if r.usage.userId.Some? then r.usage.userId else head.usage.userId));
      if head.node in tasks && |tasks[head.node]| > 0 {
        var waitingTasks := tasks[head.node];
        var last := |waitingTasks| - 1;
        var waitingTask := waitingTasks[last];
        if r.usage.used {
          waitingTask := waitingTask.(used := true);
        }
        if r.usage.attempted {
          waitingTask := waitingTask.(attempted := true);
        }
        tasks := tasks[head.node := waitingTasks[last := waitingTask]];
      }
      if r.usage.used && r.usage.userId.Some? && executedBy.Some? {
        executedBy := Some(r.usage.userId);
      }
    } else {
      NoUsageKeepsTasks(p.tasks, head.node, r.usage);
    }
    if r.error.Some? {
      head := head.(resumeError := r.error);
      if r.child.Some? {
        head := head.(subExecution := r.child);
      }
    } else {
      head := head.(data := ChildOutput(r.output.value));
    }
    return Some(Parent([head] + p.stack[1..], tasks, executedBy));
  }

  lemma NoUsageKeepsTasks(tasks: map<string, seq<Task>>, node: string, u: Usage)
    requires !u.used && !u.attempted
    ensures FlagLast(tasks, node, u) == tasks
  {
    if node in tasks && |tasks[node]| > 0 {
      var ts := tasks[node];
      assert ts[|ts| - 1 := FlagTask(ts[|ts| - 1], u)] == ts;
    }
  }

  // ---------- folding any sequence of updates, each reading what the one before wrote ----------

  predicate AnyUsed(reports: seq<Report>) {
    exists i :: 0 <= i < |reports| && HasResult(reports[i]) && reports[i].usage.used
  }

  predicate AnyAttempted(reports: seq<Report>) {
    exists i :: 0 <= i < |reports| && HasResult(reports[i]) && reports[i].usage.attempted
  }

  function LastError(reports: seq<Report>, start: Option<string>): Option<string>
    decreases |reports|
  {
    if reports == [] then start
    else LastError(reports[1..], if reports[0].error.Some? then reports[0].error else start)
  }

  function LastOutput(reports: seq<Report>, start: Payload): Payload
    decreases |reports|
  {
    if reports == [] then start
    else LastOutput(reports[1..],
                    if reports[0].error.None? && reports[0].output.Some? then ChildOutput(reports[0].output.value)
                    else start)
  }

  /** The task that the parent's waiting node will be resumed from. */
  function WaitingTask(p: Parent): Option<Task> {
    if p.stack != [] && p.stack[0].node in p.tasks && |p.tasks[p.stack[0].node]| > 0 then
      var ts := p.tasks[p.stack[0].node];
      Some(ts[|ts| - 1])
    else None
  }

  lemma AppliedKeepsShape(p: Parent, r: Report)
    ensures var q := Applied(p, r);
            && |q.stack| == |p.stack|
            && (p.stack != [] ==> q.stack[0].node == p.stack[0].node && q.stack[1..] == p.stack[1..])
            && (WaitingTask(p).Some? <==> WaitingTask(q).Some?)
            && (WaitingTask(p).Some? && HasResult(r) ==>
                  WaitingTask(q).value == FlagTask(WaitingTask(p).value, r.usage))
  {
  }

  lemma AnyOfFirst(reports: seq<Report>)
    requires reports != []
    ensures AnyUsed(reports) <==> (HasResult(reports[0]) && reports[0].usage.used) || AnyUsed(reports[1..])
    ensures AnyAttempted(reports) <==>
            (HasResult(reports[0]) && reports[0].usage.attempted) || AnyAttempted(reports[1..])
  {
    var rest := reports[1..];
    assert forall i :: 0 <= i < |rest| ==> rest[i] == reports[i + 1];
    assert forall i :: 1 <= i < |reports| ==> reports[i] == rest[i - 1];
  }

  /** Over any sequence of updates the head's flags are the union of the initial flags and all
      applied reports, the waiting task's flags likewise, and nothing else of the stack changes. */
  lemma {:induction false} FlagsAccumulate(p: Parent, reports: seq<Report>)
    requires p.stack != []
    ensures var q := AppliedAll(p, reports);
            && q.stack != [] && q.stack[0].node == p.stack[0].node && q.stack[1..] == p.stack[1..]
            && q.stack[0].usage.used == (p.stack[0].usage.used || AnyUsed(reports))
            && q.stack[0].usage.attempted == (p.stack[0].usage.attempted || AnyAttempted(reports))
            && (WaitingTask(p).None? ==> WaitingTask(q).None?)
            && (WaitingTask(p).Some? ==>
                  WaitingTask(q) == Some(Task(WaitingTask(p).value.used || AnyUsed(reports),
                                              WaitingTask(p).value.attempted || AnyAttempted(reports))))
    decreases |reports|
  {
    if reports != [] {
      AppliedKeepsShape(p, reports[0]);
      AnyOfFirst(reports);
      FlagsAccumulate(Applied(p, reports[0]), reports[1..]);
    }
  }

  /** Of updates that do not overlap: the last output and the last error survive SEPARATELY: an
      error stays on the stack entry even when a sibling's output is written after it, and the
      other way round. */
  lemma {:induction false} LastResultsSurvive(p: Parent, reports: seq<Report>)
    requires p.stack != []
    ensures var q := AppliedAll(p, reports);
            && q.stack != []
            && q.stack[0].resumeError == LastError(reports, p.stack[0].resumeError)
            && q.stack[0].data == LastOutput(reports, p.stack[0].data)
    decreases |reports|
  {
    if reports != [] {
      AppliedKeepsShape(p, reports[0]);
      LastResultsSurvive(Applied(p, reports[0]), reports[1..]);
    }
  }

  /** Over any sequence of updates all tasks of all other nodes, and all but the last one of the
      head's node, are what they were. */
  lemma {:induction false} OtherTasksStay(p: Parent, reports: seq<Report>)
    requires p.stack != []
    ensures OnlyLastTaskDiffers(p.tasks, AppliedAll(p, reports).tasks, p.stack[0].node)
    decreases |reports|
  {
    if reports != [] {
      AppliedKeepsShape(p, reports[0]);
      OtherTasksStay(Applied(p, reports[0]), reports[1..]);
    }
  }

  /** The link to the sub-execution that failed: the last failed child that names itself. */
  function LastFailedChild(reports: seq<Report>, start: Option<string>): Option<string>
    decreases |reports|
  {
    if reports == [] then start
    else LastFailedChild(reports[1..],
                         if reports[0].error.Some? && reports[0].child.Some? then reports[0].child else start)
  }

  lemma {:induction false} LastFailedChildIsLinked(p: Parent, reports: seq<Report>)
    requires p.stack != []
    ensures var q := AppliedAll(p, reports);
            q.stack != [] && q.stack[0].subExecution == LastFailedChild(reports, p.stack[0].subExecution)
    decreases |reports|
  {
    if reports != [] {
      AppliedKeepsShape(p, reports[0]);
      LastFailedChildIsLinked(Applied(p, reports[0]), reports[1..]);
    }
  }

  lemma {:induction false} LastErrorIsSome(reports: seq<Report>, start: Option<string>)
    ensures LastError(reports, start).Some? <==>
            start.Some? || exists i :: 0 <= i < |reports| && reports[i].error.Some?
    decreases |reports|
  {
    if reports != [] {
      var next := if reports[0].error.Some? then reports[0].error else start;
      LastErrorIsSome(reports[1..], next);
      assert forall i :: 0 <= i < |reports[1..]| ==> reports[1..][i] == reports[i + 1];
      assert forall i :: 1 <= i < |reports| ==> reports[i] == reports[1..][i - 1];
    }
  }

  /** Of updates that do not overlap: the parent fails on resume exactly when SOME applied child
      failed, not when the last one did. Overlapping ones are the subject of `ReportHistory`. */
  lemma FailsExactlyWhenSomeChildFailed(p: Parent, reports: seq<Report>)
    requires p.stack != []
    ensures AppliedAll(p, reports).stack != []
    ensures AppliedAll(p, reports).stack[0].resumeError.Some? <==>
            p.stack[0].resumeError.Some? || exists i :: 0 <= i < |reports| && reports[i].error.Some?
  {
    LastResultsSurvive(p, reports);
    LastErrorIsSome(reports, p.stack[0].resumeError);
  }

  /** The user a private credential was resolved for: the latest report that names one wins, in
      the head's metadata and, where the parent has runtime data, in that data. */
  function LastUser(reports: seq<Report>, start: Option<string>): Option<string>
    decreases |reports|
  {
    if reports == [] then start
    else LastUser(reports[1..],
                  if HasResult(reports[0]) && reports[0].usage.userId.Some? then reports[0].usage.userId else start)
  }

  lemma {:induction false} LastUserWins(p: Parent, reports: seq<Report>)
    requires p.stack != [] && forall i :: 0 <= i < |reports| ==> ProperUsage(reports[i].usage)
    ensures var q := AppliedAll(p, reports);
            && q.stack != []
            && q.stack[0].usage.userId == LastUser(reports, p.stack[0].usage.userId)
            && (p.executedBy.None? ==> q.executedBy.None?)
            && (p.executedBy.Some? ==> q.executedBy == Some(LastUser(reports, p.executedBy.value)))
    decreases |reports|
  {
    if reports != [] {
      AppliedKeepsShape(p, reports[0]);
      LastUserWins(Applied(p, reports[0]), reports[1..]);
    }
  }

  // ---------- what a resumed parent starts from ----------

  /** The stack head shows the result of some child. */
  predicate CarriesChild(p: Parent) {
    p.stack != [] && (p.stack[0].data.ChildOutput? || p.stack[0].resumeError.Some?)
  }

  lemma AppliedCarriesChild(p: Parent, r: Report)
    requires HasResult(r) && p.stack != []
    ensures CarriesChild(Applied(p, r))
  {
  }
}
