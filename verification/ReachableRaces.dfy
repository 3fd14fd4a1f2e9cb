/** Runs that show that the races described elsewhere can happen: one process, one execution. */
module ReachableRaces {
  import opened Wrappers
  import opened Executions
  import opened ParentUpdate
  import opened ResumeProtocol
  import opened ResumeSafety
  import opened ResumedData

  /** A system with a single process and plenty of capacity. */
  ghost function Solo(calls: seq<Call>, active: map<Id, nat>, rows: map<Id, Row>,
                      snaps: map<Runner, Snapshot>, updates: seq<Update>): Sys {
    Sys(rows, [Process(calls, active, 1, [], true)], [1], snaps, updates)
  }

  ghost predicate ProperSolo(calls: seq<Call>, active: map<Id, nat>) {
    forall id :: id in active ==> active[id] < |calls| && calls[active[id]].id == id
  }

  /** One more step after a run. */
  lemma Extend(states: seq<Sys>, steps: seq<Step>, step: Step, t: Sys) returns (more: seq<Sys>, done: seq<Step>)
    requires IsRun(states, steps) && Moves(states[|steps|], step, t)
    ensures IsRun(more, done) && more == states + [t] && done == steps + [step]
  {
    more, done := states + [t], steps + [step];
    forall i | 0 <= i < |done|
      ensures MovesAt(more, done, i)
    {
      if i < |steps| {
        assert MovesAt(states, steps, i);
      }
    }
  }

  function Fresh(id: Id, resumes: bool): Call {
    Call(id, Unlimited, resumes, Writing, true, New, Open, false)
  }

  // ---------- the steps of a single process ----------

  lemma Creates(calls: seq<Call>, active: map<Id, nat>, rows: map<Id, Row>, id: Id, data: Parent)
    requires ProperSolo(calls, active) && id !in rows
    ensures var row := Row(New, data, History(data, []), Runner(0, |calls|), 0, 0, 0, false);
            Moves(Solo(calls, active, rows, map[], []), Create(0, id, Unlimited, data),
                  Solo(calls + [Fresh(id, false)], active, rows[id := row], map[], []))
  {
  }

  lemma Starts(call: Call, row: Row, regular: bool)
    requires call.stage == Writing && !call.resumes
    ensures var started := if regular then row.(status := Running, touched := false) else row;
            Moves(Solo([call], map[], map[call.id := row], map[], []), StartNew(0, 0, regular),
                  Solo([call.(stage := Won)], map[], map[call.id := started], map[], []))
  {
    var running := row.(status := Running, touched := false);
    assert map[call.id := row][call.id := running] == map[call.id := running];
    assert [call][0 := call.(stage := Won)] == [call.(stage := Won)];
  }

  lemma Happens(calls: seq<Call>, active: map<Id, nat>, rows: map<Id, Row>, snaps: map<Runner, Snapshot>,
                updates: seq<Update>, e: Event, calls': seq<Call>, active': map<Id, nat>)
    requires ProperSolo(calls, active)
    requires var p := Process(calls, active, 1, [], true);
             LocalEvent(p, e) && Apply(p, e) == Process(calls', active', 1, [], true)
    ensures Moves(Solo(calls, active, rows, snaps, updates), Local(0, e), Solo(calls', active', rows, snaps, updates))
  {
  }

  lemma Saves(calls: seq<Call>, active: map<Id, nat>, id: Id, row: Row, data: Parent)
    requires ProperSolo(calls, active) && row.status == Running
    ensures var saved := row.(status := Waiting, data := data, history := History(data, []), entered := row.entered + 1,
                              saves := row.saves + 1, touched := false);
            Moves(Solo(calls, active, map[id := row], map[], []), SaveWaiting(id, data),
                  Solo(calls, active, map[id := saved], map[], []))
  {
    var saved := row.(status := Waiting, data := data, history := History(data, []), entered := row.entered + 1,
                      saves := row.saves + 1, touched := false);
    assert map[id := row][id := saved] == map[id := saved];
  }

  lemma ReadsForUpdate(calls: seq<Call>, active: map<Id, nat>, rows: map<Id, Row>, snaps: map<Runner, Snapshot>,
                       updates: seq<Update>, id: Id, report: Report)
    requires ProperSolo(calls, active) && id in rows && rows[id].status == Waiting
    requires HasResult(report) && rows[id].data.stack != []
    ensures Moves(Solo(calls, active, rows, snaps, updates), UpdateRead(id, report),
                  Solo(calls, active, rows, snaps, updates + [Update(id, rows[id].data, rows[id].history, report)]))
  {
  }

  lemma WritesUpdate(calls: seq<Call>, active: map<Id, nat>, rows: map<Id, Row>, snaps: map<Runner, Snapshot>,
                     updates: seq<Update>, u: nat)
    requires ProperSolo(calls, active) && u < |updates|
    requires updates[u].id in rows && rows[updates[u].id].status == Waiting
    ensures var w := updates[u];
            var written := rows[w.id].(data := Applied(w.snapshot, w.report), history := Reported(w.history, w.report),
                                       touched := true);
            Moves(Solo(calls, active, rows, snaps, updates), UpdateWrite(u),
                  Solo(calls, active, rows[w.id := written], snaps, updates))
  {
  }

  lemma ReadsForResume(calls: seq<Call>, active: map<Id, nat>, rows: map<Id, Row>, snaps: map<Runner, Snapshot>,
                       updates: seq<Update>, id: Id)
    requires ProperSolo(calls, active) && id in rows
    ensures var row := rows[id];
            var snap := Snapshot(id, row.data, row.history, row.touched, None);
            Moves(Solo(calls, active, rows, snaps, updates), ResumeRead(0, id, Unlimited),
                  Solo(calls + [Fresh(id, true)], active, rows, snaps[Runner(0, |calls|) := snap], updates))
  {
  }

  lemma WinsRow(calls: seq<Call>, active: map<Id, nat>, rows: map<Id, Row>, snaps: map<Runner, Snapshot>,
                updates: seq<Update>, c: nat)
    requires ProperSolo(calls, active) && c < |calls| && calls[c] == Fresh(calls[c].id, true) && Runner(0, c) in snaps
    requires calls[c].id in rows && rows[calls[c].id].status == Waiting
    ensures var id := calls[c].id;
            var row, snap := rows[id], snaps[Runner(0, c)];
            var won := row.(status := Running, data := snap.data, history := snap.history, runner := Runner(0, c),
                            resumed := row.resumed + 1, touched := false);
            Moves(Solo(calls, active, rows, snaps, updates), CompareAndSet(0, c),
                  Solo(calls[c := calls[c].(stage := Won)], active, rows[id := won],
                       snaps[Runner(0, c) := snap.(period := Some(row.entered))], updates))
  {
  }

  // ---------- an execution that waits ----------

  function Ran(id: Id, reported: bool): Call {
    Call(id, Unlimited, false, Registered, true, if reported then Waiting else Running, Open, false)
  }

  function WaitingRow(data: Parent): Row {
    Row(Waiting, data, History(data, []), Runner(0, 0), 1, 0, 1, false)
  }

  lemma NothingRuns() returns (states: seq<Sys>)
    ensures IsRun(states, []) && states == [Solo([], map[], map[], map[], [])]
  {
    states := [Solo([], map[], map[], map[], [])];
  }

  lemma SomethingRuns(id: Id, data: Parent) returns (states: seq<Sys>, steps: seq<Step>)
    ensures IsRun(states, steps) && |steps| == 3
    ensures states[3] == Solo([Ran(id, false)], map[id := 0],
                              map[id := WaitingRow(data).(status := Running, entered := 0, saves := 0)], map[], [])
  {
    states := NothingRuns();
    steps := [];
    var row := WaitingRow(data).(status := New, entered := 0, saves := 0);
    var call := Fresh(id, false);
    Creates([], map[], map[], id, data);
    assert [] + [call] == [call] && map[][id := row] == map[id := row];
    states, steps := Extend(states, steps, Create(0, id, Unlimited, data),
                            Solo([call], map[], map[id := row], map[], []));
    Starts(call, row, true);
    var running := row.(status := Running);
    states, steps := Extend(states, steps, StartNew(0, 0, true),
                            Solo([call.(stage := Won)], map[], map[id := running], map[], []));
    Registers(call);
    Happens([call.(stage := Won)], map[], map[id := running], map[], [], DoRegister(0), [Ran(id, false)], map[id := 0]);
    states, steps := Extend(states, steps, Local(0, DoRegister(0)),
                            Solo([Ran(id, false)], map[id := 0], map[id := running], map[], []));
  }

  lemma Registers(call: Call)
    requires call == Fresh(call.id, false)
    ensures Apply(Process([call.(stage := Won)], map[], 1, [], true), DoRegister(0))
         == Process([Ran(call.id, false)], map[call.id := 0], 1, [], true)
  {
  }

  /** The run saves its row as waiting, after it has reported so in memory or, as on a worker,
      without that. */
  lemma SomethingWaits(id: Id, data: Parent, reported: bool) returns (states: seq<Sys>, steps: seq<Step>)
    ensures IsRun(states, steps) && |steps| == if reported then 5 else 4
    ensures states[|steps|] == Solo([Ran(id, reported)], map[id := 0], map[id := WaitingRow(data)], map[], [])
  {
    states, steps := SomethingRuns(id, data);
    var running := WaitingRow(data).(status := Running, entered := 0, saves := 0);
    if reported {
      assert SetStatus(Process([Ran(id, false)], map[id := 0], 1, [], true), id, Waiting)
          == Process([Ran(id, true)], map[id := 0], 1, [], true);
      Happens([Ran(id, false)], map[id := 0], map[id := running], map[], [], DoSetStatus(id, Waiting),
              [Ran(id, true)], map[id := 0]);
      states, steps := Extend(states, steps, Local(0, DoSetStatus(id, Waiting)),
                              Solo([Ran(id, true)], map[id := 0], map[id := running], map[], []));
    }
    Saves([Ran(id, reported)], map[id := 0], id, running, data);
    states, steps := Extend(states, steps, SaveWaiting(id, data),
                            Solo([Ran(id, reported)], map[id := 0], map[id := WaitingRow(data)], map[], []));
  }

  // ---------- the races ----------

  /** A child and a resumer have both read the row of an execution that waits. */
  ghost function BothHaveRead(id: Id, data: Parent, report: Report): Sys {
    var row := WaitingRow(data);
    Solo([Ran(id, true), Fresh(id, true)], map[id := 0], map[id := row],
         map[Runner(0, 1) := Snapshot(id, data, row.history, false, None)], [Update(id, data, row.history, report)])
  }

  lemma ChildAndResumerRead(id: Id, data: Parent, report: Report) returns (states: seq<Sys>, steps: seq<Step>)
    requires data.stack != [] && HasResult(report)
    ensures IsRun(states, steps) && |steps| == 7 && steps[6] == ResumeRead(0, id, Unlimited)
    ensures id in states[6].rows && states[6].rows[id] == WaitingRow(data)
    ensures |states[6].procs| == 1 && |states[6].procs[0].calls| == 1
    ensures states[7] == BothHaveRead(id, data, report)
  {
    states, steps := SomethingWaits(id, data, true);
    var calls, active := [Ran(id, true)], map[id := 0];
    var row := WaitingRow(data);
    var rows := map[id := row];
    var update := Update(id, data, row.history, report);
    ReadsForUpdate(calls, active, rows, map[], [], id, report);
    assert [] + [update] == [update];
    states, steps := Extend(states, steps, UpdateRead(id, report), Solo(calls, active, rows, map[], [update]));
    ReadsForResume(calls, active, rows, map[], [update], id);
    var snap := Snapshot(id, data, row.history, false, None);
    assert calls + [Fresh(id, true)] == [Ran(id, true), Fresh(id, true)];
    assert map[][Runner(0, 1) := snap] == map[Runner(0, 1) := snap];
    states, steps := Extend(states, steps, ResumeRead(0, id, Unlimited), BothHaveRead(id, data, report));
  }

  ghost function ChildHasWritten(id: Id, data: Parent, report: Report): Sys {
    var written := WaitingRow(data)
                   .(data := Applied(data, report), history := History(data, [report]), touched := true);
    BothHaveRead(id, data, report).(rows := map[id := written])
  }

  lemma ChildWritesAfterBothRead(id: Id, data: Parent, report: Report)
    ensures Moves(BothHaveRead(id, data, report), UpdateWrite(0), ChildHasWritten(id, data, report))
  {
    var row := WaitingRow(data);
    var snaps := map[Runner(0, 1) := Snapshot(id, data, row.history, false, None)];
    WritesUpdate([Ran(id, true), Fresh(id, true)], map[id := 0], map[id := row], snaps,
                 [Update(id, data, row.history, report)], 0);
    assert [] + [report] == [report];
    var written := ChildHasWritten(id, data, report).rows[id];
    assert map[id := row][id := written] == map[id := written];
  }

  lemma EarlyReaderTakesRow(id: Id, data: Parent, report: Report) returns (t: Sys)
    ensures Moves(ChildHasWritten(id, data, report), CompareAndSet(0, 1), t)
    ensures id in t.rows && t.rows[id].status == Running && t.rows[id].data == data
  {
    var s := ChildHasWritten(id, data, report);
    WinsRow([Ran(id, true), Fresh(id, true)], map[id := 0], s.rows, s.snaps, s.updates, 1);
    t := Next(s, CompareAndSet(0, 1));
  }

  /** A resumer reads the row, a child writes its result, the resumer wins, and the parent starts
      from the data it was saved with: a run from the initial state. */
  lemma EarlyReaderWins(id: Id, data: Parent, report: Report) returns (states: seq<Sys>, steps: seq<Step>)
    requires data.stack != [] && !CarriesChild(data) && HasResult(report)
    ensures IsRun(states, steps) && |steps| == 9
    ensures ChildWrites(states, steps, 7, id) && ReadsThenWins(states, steps, 6, 8, id)
    ensures id in states[8].rows && CarriesChild(states[8].rows[id].data)
    ensures id in states[9].rows && states[9].rows[id].status == Running && states[9].rows[id].data == data
  {
    states, steps := ChildAndResumerRead(id, data, report);
    ChildWritesAfterBothRead(id, data, report);
    states, steps := Extend(states, steps, UpdateWrite(0), ChildHasWritten(id, data, report));
    var last := EarlyReaderTakesRow(id, data, report);
    states, steps := Extend(states, steps, CompareAndSet(0, 1), last);
    AppliedCarriesChild(data, report);
  }

  /** Two children have read the row of an execution that waits; `row` is what is there now. */
  ghost function ChildrenHaveRead(id: Id, data: Parent, one: Report, two: Report, row: Row): Sys {
    var h := History(data, []);
    Solo([Ran(id, true)], map[id := 0], map[id := row], map[], [Update(id, data, h, one), Update(id, data, h, two)])
  }

  lemma ChildrenRead(id: Id, data: Parent, one: Report, two: Report) returns (states: seq<Sys>, steps: seq<Step>)
    requires data.stack != [] && HasResult(one) && HasResult(two)
    ensures IsRun(states, steps) && |steps| == 7
    ensures states[7] == ChildrenHaveRead(id, data, one, two, WaitingRow(data))
  {
    states, steps := SomethingWaits(id, data, true);
    var calls, active := [Ran(id, true)], map[id := 0];
    var row := WaitingRow(data);
    var rows := map[id := row];
    var first, second := Update(id, data, row.history, one), Update(id, data, row.history, two);
    ReadsForUpdate(calls, active, rows, map[], [], id, one);
    assert [] + [first] == [first];
    states, steps := Extend(states, steps, UpdateRead(id, one), Solo(calls, active, rows, map[], [first]));
    ReadsForUpdate(calls, active, rows, map[], [first], id, two);
    assert [first] + [second] == [first, second];
    states, steps := Extend(states, steps, UpdateRead(id, two), ChildrenHaveRead(id, data, one, two, row));
  }

  lemma ChildWritesOver(id: Id, data: Parent, one: Report, two: Report, row: Row, u: nat)
    requires row.status == Waiting && u < 2
    ensures var report := if u == 0 then one else two;
            var written := row.(data := Applied(data, report), history := Reported(History(data, []), report),
                                touched := true);
            Moves(ChildrenHaveRead(id, data, one, two, row), UpdateWrite(u),
                  ChildrenHaveRead(id, data, one, two, written))
  {
    var s := ChildrenHaveRead(id, data, one, two, row);
    WritesUpdate([Ran(id, true)], map[id := 0], s.rows, map[], s.updates, u);
    var report := if u == 0 then one else two;
    var written := row.(data := Applied(data, report), history := Reported(History(data, []), report), touched := true);
    assert map[id := row][id := written] == map[id := written];
  }

  /** Two children finish, one with an error, and read the row before either has written: the
      error is gone after both writes. */
  lemma OverlapLosesError(id: Id, data: Parent, failed: Report, succeeded: Report)
    returns (states: seq<Sys>, steps: seq<Step>)
    requires data.stack != [] && data.stack[0].resumeError.None?
    requires failed.error.Some? && succeeded.error.None? && succeeded.output.Some?
    ensures IsRun(states, steps) && |steps| == 9 && steps[7] == UpdateWrite(0) && steps[8] == UpdateWrite(1)
    ensures |states[7].updates| == |states[8].updates| == 2
    ensures states[7].updates[0].report == failed && states[8].updates[1].report == succeeded
    ensures id in states[8].rows && states[8].rows[id].data == Applied(data, failed)
    ensures states[8].rows[id].data.stack != [] && states[8].rows[id].data.stack[0].resumeError.Some?
    ensures id in states[9].rows && states[9].rows[id].status == Waiting
    ensures states[9].rows[id].data.stack != [] && states[9].rows[id].data.stack[0].resumeError.None?
  {
    states, steps := ChildrenRead(id, data, failed, succeeded);
    var row := WaitingRow(data);
    ChildWritesOver(id, data, failed, succeeded, row, 0);
    var first := row.(data := Applied(data, failed), history := Reported(row.history, failed), touched := true);
    states, steps := Extend(states, steps, UpdateWrite(0), ChildrenHaveRead(id, data, failed, succeeded, first));
    ChildWritesOver(id, data, failed, succeeded, first, 1);
    var second := first
                  .(data := Applied(data, succeeded), history := Reported(row.history, succeeded), touched := true);
    states, steps := Extend(states, steps, UpdateWrite(1), ChildrenHaveRead(id, data, failed, succeeded, second));
  }

  /** A second call has resumed an execution whose first registration still reports `running`. */
  ghost function Resumed(id: Id, data: Parent, first: Call, second: Call, active: map<Id, nat>): Sys {
    var row := WaitingRow(data);
    Solo([first, second], active, map[id := row.(status := Running, runner := Runner(0, 1), resumed := 1)],
         map[Runner(0, 1) := Snapshot(id, data, row.history, false, Some(1))], [])
  }

  lemma AnotherResumes(id: Id, data: Parent) returns (states: seq<Sys>, steps: seq<Step>)
    ensures IsRun(states, steps) && |steps| == 6
    ensures states[6] == Resumed(id, data, Ran(id, false), Fresh(id, true).(stage := Won), map[id := 0])
  {
    states, steps := SomethingWaits(id, data, false);
    var first, active := Ran(id, false), map[id := 0];
    var row := WaitingRow(data);
    var rows := map[id := row];
    ReadsForResume([first], active, rows, map[], [], id);
    var snap := Snapshot(id, data, row.history, false, None);
    var snaps := map[Runner(0, 1) := snap];
    assert map[][Runner(0, 1) := snap] == snaps;
    assert [first] + [Fresh(id, true)] == [first, Fresh(id, true)];
    states, steps := Extend(states, steps, ResumeRead(0, id, Unlimited),
                            Solo([first, Fresh(id, true)], active, rows, snaps, []));
    WinsRow([first, Fresh(id, true)], active, rows, snaps, [], 1);
    var won := row.(status := Running, runner := Runner(0, 1), resumed := 1);
    var ended := snap.(period := Some(1));
    assert rows[id := won] == map[id := won] && snaps[Runner(0, 1) := ended] == map[Runner(0, 1) := ended];
    var second := Fresh(id, true).(stage := Won);
    assert [first, Fresh(id, true)][1 := second] == [first, second];
    states, steps := Extend(states, steps, CompareAndSet(0, 1), Resumed(id, data, first, second, active));
  }

  lemma SecondIsEntered(id: Id, data: Parent) returns (states: seq<Sys>, steps: seq<Step>)
    ensures IsRun(states, steps) && |steps| == 8
    ensures states[8] == Resumed(id, data, Ran(id, false).(promise := Resolved),
                                 Fresh(id, true).(stage := Registered, status := Running), map[id := 1])
  {
    states, steps := AnotherResumes(id, data);
    var first, second := Ran(id, false), Fresh(id, true).(stage := Won);
    var rows, snaps := states[6].rows, states[6].snaps;
    var settled := first.(promise := Resolved);
    FinalizesFirst(first, second, id);
    Happens([first, second], map[id := 0], rows, snaps, [], DoFinalize(id), [settled, second], map[id := 0]);
    states, steps := Extend(states, steps, Local(0, DoFinalize(id)), Resumed(id, data, settled, second, map[id := 0]));
    var entered := second.(stage := Registered, status := Running);
    EntersSecond(settled, second, id);
    Happens([settled, second], map[id := 0], rows, snaps, [], DoRegister(1), [settled, entered], map[id := 1]);
    states, steps := Extend(states, steps, Local(0, DoRegister(1)), Resumed(id, data, settled, entered, map[id := 1]));
  }

  /** The row of a run was saved as waiting without a report in memory, as by a worker. Another
      call resumes it, the first registration is finalized just before the second one is entered,
      and its clean-up takes the second one's entry out: that one's promise is out of reach. */
  lemma CleanupTakesOutAnother(id: Id, data: Parent) returns (states: seq<Sys>, steps: seq<Step>)
    ensures IsRun(states, steps) && |steps| == 9 && steps[8] == Local(0, DoCleanup(0))
    ensures |states[8].procs| == 1 && id in states[8].procs[0].active && states[8].procs[0].active[id] == 1
    ensures |states[9].procs| == 1 && id !in states[9].procs[0].active && Orphaned(states[9].procs[0], 1)
  {
    states, steps := SecondIsEntered(id, data);
    var settled := Ran(id, false).(promise := Resolved);
    var entered := Fresh(id, true).(stage := Registered, status := Running);
    var rows, snaps := states[8].rows, states[8].snaps;
    var cleaned := settled.(cleaned := true, acquired := false);
    CleansFirst(settled, entered, id);
    Happens([settled, entered], map[id := 1], rows, snaps, [], DoCleanup(0), [cleaned, entered], map[]);
    states, steps := Extend(states, steps, Local(0, DoCleanup(0)), Resumed(id, data, cleaned, entered, map[]));
  }

  lemma FinalizesFirst(first: Call, second: Call, id: Id)
    requires first == Ran(id, false)
    ensures Finalize(Process([first, second], map[id := 0], 1, [], true), id)
         == Process([first.(promise := Resolved), second], map[id := 0], 1, [], true)
  {
  }

  lemma EntersSecond(first: Call, second: Call, id: Id)
    requires first == Ran(id, false).(promise := Resolved) && second == Fresh(id, true).(stage := Won)
    ensures Register(Process([first, second], map[id := 0], 1, [], true), 1)
         == Process([first, second.(stage := Registered, status := Running)], map[id := 1], 1, [], true)
  {
    assert map[id := 0][id := 1] == map[id := 1];
  }

  lemma CleansFirst(first: Call, second: Call, id: Id)
    requires first == Ran(id, false).(promise := Resolved) && second.id == id
    ensures Cleanup(Process([first, second], map[id := 1], 1, [], true), 0)
         == Process([first.(cleaned := true, acquired := false), second], map[], 1, [], true)
  {
    assert map[id := 1] - {id} == map[];
  }
}
