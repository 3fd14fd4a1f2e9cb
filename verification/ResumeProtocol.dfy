/** Any number of processes resuming waiting executions that live in one shared table.

    A step is one atomic action: a database statement, or a stretch of code without an `await`.
    Reading a row and the compare-and-set that ends its waiting period are separate steps, and so
    are reading a waiting parent and writing a child's result into it. */
module ResumeProtocol {
  import opened Wrappers
  import opened Executions
  import opened ParentUpdate

  /** An `add` call, named by its process and its position there. */
  datatype Runner = Runner(proc: nat, call: nat)

  /** Where the data of a row comes from: what a run saved, and the child reports written over it
      since, each into what its update had read. Kept for the statements only. */
  datatype History = History(base: Parent, reports: seq<Report>)

  /** A row of the executions table. After the data come history fields: who runs it or ran it
      last, how often it entered `waiting` and left it by a resume, how often a run has saved it
      as waiting, and whether some child's result has been written since. */
  datatype Row = Row(status: Status, data: Parent, history: History, runner: Runner,
                     entered: nat, resumed: nat, saves: nat, touched: bool)

  /** What a resuming call read before it was made, whether a child's result had been written by
      then, and the waiting period the call ended, once it has. */
  datatype Snapshot = Snapshot(id: Id, data: Parent, history: History, sawResult: bool, period: Option<nat>)

  /** A child's update between its read and its write. */
  datatype Update = Update(id: Id, snapshot: Parent, history: History, report: Report)

  datatype Sys = Sys(rows: map<Id, Row>, procs: seq<Process>, limits: seq<nat>,
                     snaps: map<Runner, Snapshot>, updates: seq<Update>)

  datatype Step =
    | Create(p: nat, id: Id, mode: Mode, data: Parent)
    | ResumeRead(p: nat, id: Id, mode: Mode)
    | StartNew(p: nat, c: nat, regular: bool)
    | WriteError(p: nat, c: nat)
    | CompareAndSet(p: nat, c: nat)
    | Local(p: nat, e: Event)
    | SaveWaiting(id: Id, data: Parent)
    | RowChange(id: Id, status: Status, data: Parent)
    | UpdateRead(id: Id, report: Report)
    | UpdateWrite(u: nat)

  predicate IsCall(s: Sys, p: nat, c: nat) {
    p < |s.procs| && c < |s.procs[p].calls|
  }

  function CallAt(s: Sys, r: Runner): Call
    requires IsCall(s, r.proc, r.call)
  {
    s.procs[r.proc].calls[r.call]
  }

  /** The events of one process that touch no row. */
  predicate LocalEvent(proc: Process, e: Event) {
    Possible(proc, e) && !e.DoBegin? && !e.DoWriteSucceeds? && !e.DoWriteFails?
  }

  predicate Enabled(s: Sys, step: Step) {
    match step
    case Create(p, id, mode, data) => p < |s.procs| && id !in s.rows
    case ResumeRead(p, id, mode) => p < |s.procs| && id in s.rows
    case StartNew(p, c, regular) =>
      && IsCall(s, p, c) && s.procs[p].calls[c].stage == Writing && !s.procs[p].calls[c].resumes
      && s.procs[p].calls[c].id in s.rows
    case WriteError(p, c) => IsCall(s, p, c) && s.procs[p].calls[c].stage == Writing
    case CompareAndSet(p, c) =>
      && IsCall(s, p, c) && s.procs[p].calls[c].stage == Writing && s.procs[p].calls[c].resumes
      && s.procs[p].calls[c].id in s.rows && Runner(p, c) in s.snaps
    case Local(p, e) => p < |s.procs| && LocalEvent(s.procs[p], e)
    case SaveWaiting(id, data) =>
      // the save hook of a run, in whichever process that is; a worker's hook has no condition
      id in s.rows
    case RowChange(id, status, data) => id in s.rows && status != Waiting
    case UpdateRead(id, report) =>
      id in s.rows && s.rows[id].status == Waiting && HasResult(report) && s.rows[id].data.stack != []
    case UpdateWrite(u) => u < |s.updates| && s.updates[u].id in s.rows
  }

  ghost function Happen(s: Sys, p: nat, e: Event): Sys
    requires p < |s.procs| && WellFormed(s.procs[p]) && Possible(s.procs[p], e)
  {
    s.(procs := s.procs[p := Apply(s.procs[p], e)])
  }

  ghost function SetRow(s: Sys, id: Id, row: Row): Sys {
    s.(rows := s.rows[id := row])
  }

  /** The event a step causes, and in which process. */
  function EventOf(s: Sys, step: Step): Option<(nat, Event)>
    requires Enabled(s, step)
  {
    match step
    case Create(p, id, mode, data) => Some((p, DoBegin(id, mode, false)))
    case ResumeRead(p, id, mode) => Some((p, DoBegin(id, mode, true)))
    case StartNew(p, c, regular) => Some((p, DoWriteSucceeds(c)))
    case WriteError(p, c) => Some((p, DoWriteFails(c)))
    case CompareAndSet(p, c) =>
      var row := s.rows[s.procs[p].calls[c].id];
      Some((p, if row.status == Waiting then DoWriteSucceeds(c) else DoWriteFails(c)))
    case Local(p, e) => Some((p, e))
    case _ => None
  }

  ghost function RowsAfter(s: Sys, step: Step): map<Id, Row>
    requires Enabled(s, step)
  {
    match step
    case Create(p, id, mode, data) =>
      s.rows[id := Row(New, data, History(data, []), Runner(p, |s.procs[p].calls|), 0, 0, 0, false)]
    case StartNew(p, c, regular) =>
      var id := s.procs[p].calls[c].id;
      if regular then s.rows[id := s.rows[id].(status := Running, touched := false)] else s.rows
    case CompareAndSet(p, c) =>
      var id := s.procs[p].calls[c].id;
      var row, snap := s.rows[id], s.snaps[Runner(p, c)];
      if row.status == Waiting then
        s.rows[id := row.(status := Running, data := snap.data, history := snap.history, runner := Runner(p, c),
                          resumed := row.resumed + 1, touched := false)]
      else s.rows
    case SaveWaiting(id, data) =>
      var row := s.rows[id];
      s.rows[id := row.(status := Waiting, data := data, history := History(data, []),
                        entered := if row.status == Waiting then row.entered else row.entered + 1,
                        saves := row.saves + 1, touched := false)]
    case RowChange(id, status, data) =>
      s.rows[id := s.rows[id].(status := status, data := data, history := History(data, []), touched := false)]
    case UpdateWrite(u) =>
      // the write has no condition: it lands whatever the row's status is by now
      var w := s.updates[u];
      var row := s.rows[w.id];
      s.rows[w.id := row.(data := Applied(w.snapshot, w.report), history := Reported(w.history, w.report),
                          touched := row.touched || row.status == Waiting)]
    case _ => s.rows
  }

  function Reported(h: History, report: Report): History {
    h.(reports := h.reports + [report])
  }

  ghost function SnapsAfter(s: Sys, step: Step): map<Runner, Snapshot>
    requires Enabled(s, step)
  {
    match step
    case ResumeRead(p, id, mode) =>
      var row := s.rows[id];
      s.snaps[Runner(p, |s.procs[p].calls|) := Snapshot(id, row.data, row.history, row.touched, None)]
    case CompareAndSet(p, c) =>
      var row := s.rows[s.procs[p].calls[c].id];
      if row.status == Waiting then
        s.snaps[Runner(p, c) := s.snaps[Runner(p, c)].(period := Some(row.entered))]
      else s.snaps
    case _ => s.snaps
  }

  function UpdatesAfter(s: Sys, step: Step): seq<Update>
    requires Enabled(s, step)
  {
    if step.UpdateRead? then
      s.updates + [Update(step.id, s.rows[step.id].data, s.rows[step.id].history, step.report)]
    else s.updates
  }

  ghost function Next(s: Sys, step: Step): Sys
    requires Enabled(s, step) && forall p :: 0 <= p < |s.procs| ==> WellFormed(s.procs[p])
  {
    var e := EventOf(s, step);
    var t := s.(rows := RowsAfter(s, step), snaps := SnapsAfter(s, step), updates := UpdatesAfter(s, step));
    if e.Some? then Happen(t, e.value.0, e.value.1) else t
  }

  ghost predicate Init(s: Sys) {
    && s.rows == map[] && s.snaps == map[] && s.updates == []
    && |s.procs| == |s.limits|
    && forall p :: 0 <= p < |s.procs| ==> s.procs[p] == Start(s.limits[p], s.procs[p].enabled)
  }

  // ---------- the books of every process ----------

  /** Every process keeps its own books, whatever the other processes and the rows do. */
  ghost predicate Books(s: Sys) {
    && |s.procs| == |s.limits|
    && forall p :: 0 <= p < |s.procs| ==> Sound(s.procs[p], s.limits[p])
  }

  /** Every step of the system is at most one event of at most one process, so what holds over
      every run of a process (its slots, its orphans) holds here too. */
  lemma StepIsEvent(s: Sys, step: Step)
    requires Books(s) && Enabled(s, step)
    ensures var e := EventOf(s, step);
            if e.None? then Next(s, step).procs == s.procs
            else
              && e.value.0 < |s.procs| && Possible(s.procs[e.value.0], e.value.1)
              && Next(s, step).procs == s.procs[e.value.0 := Apply(s.procs[e.value.0], e.value.1)]
  {
  }

  lemma StepKeepsBooks(s: Sys, step: Step)
    requires Books(s) && Enabled(s, step)
    ensures Books(Next(s, step))
  {
    StepIsEvent(s, step);
    var e := EventOf(s, step);
    if e.Some? {
      StepKeepsSound(s.procs[e.value.0], e.value.1, s.limits[e.value.0]);
    }
  }

  // ---------- runs ----------

  /** One step. Every state that a run reaches is well formed, so that part excludes nothing. */
  ghost predicate Moves(s: Sys, step: Step, t: Sys) {
    && Enabled(s, step) && (forall p :: 0 <= p < |s.procs| ==> WellFormed(s.procs[p]))
    && t == Next(s, step)
  }

  ghost predicate MovesAt(states: seq<Sys>, steps: seq<Step>, i: nat)
    requires |states| == |steps| + 1 && i < |steps|
  {
    Moves(states[i], steps[i], states[i + 1])
  }

  /** A run: the states, one more than the steps, from an initial one on. */
  ghost predicate IsRun(states: seq<Sys>, steps: seq<Step>) {
    && |states| == |steps| + 1 && Init(states[0])
    && forall i :: 0 <= i < |steps| ==> MovesAt(states, steps, i)
  }

  lemma MoveKeepsBooks(s: Sys, step: Step, t: Sys)
    requires Books(s) && Moves(s, step, t)
    ensures Books(t)
  {
    StepKeepsBooks(s, step);
  }

  lemma InitHasBooks(s: Sys)
    requires Init(s)
    ensures Books(s)
  {
    forall p | 0 <= p < |s.procs|
      ensures Sound(s.procs[p], s.limits[p])
    {
      StartIsSound(s.limits[p], s.procs[p].enabled);
    }
  }

  /** Slot conservation for every process, over every run of the whole system. */
  lemma {:induction false} BooksHold(states: seq<Sys>, steps: seq<Step>, k: nat)
    requires IsRun(states, steps) && k <= |steps|
    ensures Books(states[k])
    decreases k
  {
    if k == 0 {
      InitHasBooks(states[0]);
    } else {
      BooksHold(states, steps, k - 1);
      assert MovesAt(states, steps, k - 1);
      MoveKeepsBooks(states[k - 1], steps[k - 1], states[k]);
    }
  }
}
