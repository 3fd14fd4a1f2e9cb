/** The executions of one process: `add` calls from their capacity reservation to the clean-up of
    their registration, the map from execution id to registration, and the capacity counter.

    An `add` call is identified by its index in `calls`: two calls may carry the same execution
    id, and everything that addresses an execution by id goes through `active`. Every function
    below is one stretch of code without an `await`. */
module Executions {

  type Id = string

  datatype Status = New | Running | Waiting | Success | Failure | Canceled | Crashed | Unknown

  /** Which capacity queue an execution mode draws on. `Evaluation` is throttled elsewhere and
      reserves nothing here; `Unlimited` reserves without drawing on a queue. */
  datatype Mode = Evaluation | Unlimited | Limited

  datatype Promise = Open | Resolved | Rejected

  /** Waiting for capacity; waiting for the database; the write succeeded; the call threw; the
      execution is registered. */
  datatype Stage = Throttled | Writing | Won | Failed | Registered

  datatype Call = Call(id: Id, mode: Mode, resumes: bool, stage: Stage, acquired: bool,
                       status: Status, promise: Promise, cleaned: bool)

  datatype Process = Process(calls: seq<Call>, active: map<Id, nat>,
                             capacity: int, queue: seq<nat>, enabled: bool)

  ghost predicate WellFormed(p: Process) {
    && (forall i :: 0 <= i < |p.queue| ==> p.queue[i] < |p.calls|)
    && (forall id :: id in p.active ==> p.active[id] < |p.calls| && p.calls[p.active[id]].id == id)
  }

  function Start(limit: nat, enabled: bool): Process {
    Process([], map[], limit, [], enabled)
  }

  ghost function SetCall(p: Process, c: nat, call: Call): Process
    requires c < |p.calls|
  {
    p.(calls := p.calls[c := call])
  }

  // ---------- the steps ----------

  /** Entering `add`: reserve capacity, or queue up for it. */
  ghost function Begin(p: Process, id: Id, mode: Mode, resumes: bool): Process {
    var call := Call(id, mode, resumes, Writing, mode != Evaluation, New, Open, false);
    if mode == Limited && p.enabled then
      if p.capacity - 1 < 0 then
        p.(calls := p.calls + [call.(stage := Throttled, acquired := false)],
           capacity := p.capacity - 1, queue := p.queue + [|p.calls|])
      else
        p.(calls := p.calls + [call], capacity := p.capacity - 1)
    else
      p.(calls := p.calls + [call])
  }

  /** Lets the first queued call proceed. */
  ghost function ResolveNext(p: Process): Process
    requires WellFormed(p)
  {
    if p.queue == [] then p
    else
      var next := p.queue[0];
      SetCall(p.(queue := p.queue[1..]), next, p.calls[next].(stage := Writing, acquired := true))
  }

  /** Releasing a reservation; nothing happens when nothing was reserved. */
  ghost function Release(p: Process, c: nat): Process
    requires WellFormed(p) && c < |p.calls|
  {
    if !p.calls[c].acquired then p
    else
      var q := SetCall(p, c, p.calls[c].(acquired := false));
      if p.calls[c].mode == Limited && p.enabled then ResolveNext(q.(capacity := q.capacity + 1)) else q
  }

  ghost function WriteSucceeds(p: Process, c: nat): Process
    requires c < |p.calls|
  {
    SetCall(p, c, p.calls[c].(stage := Won))
  }

  /** The database rejected the write, or the compare-and-set found another status. */
  ghost function WriteFails(p: Process, c: nat): Process
    requires WellFormed(p) && c < |p.calls| && p.calls[c].stage == Writing
  {
    Release(SetCall(p, c, p.calls[c].(stage := Failed)), c)
  }

  ghost function Register(p: Process, c: nat): Process
    requires c < |p.calls|
  {
    SetCall(p, c, p.calls[c].(stage := Registered, status := Running, promise := Open))
      .(active := p.active[p.calls[c].id := c])
  }

  ghost function SetStatus(p: Process, id: Id, status: Status): Process
    requires WellFormed(p)
  {
    if id in p.active then SetCall(p, p.active[id], p.calls[p.active[id]].(status := status)) else p
  }

  ghost function Settle(p: Process, c: nat, how: Promise): Process
    requires c < |p.calls|
  {
    if p.calls[c].promise == Open then SetCall(p, c, p.calls[c].(promise := how)) else p
  }

  ghost function Finalize(p: Process, id: Id): Process
    requires WellFormed(p)
  {
    if id in p.active then Settle(p, p.active[id], Resolved) else p
  }

  ghost function Stop(p: Process, id: Id): Process
    requires WellFormed(p)
  {
    if id !in p.active then p
    else if p.calls[p.active[id]].status == Waiting then p.(active := p.active - {id})
    else Settle(p, p.active[id], Rejected)
  }

  predicate CanClean(call: Call) {
    call.stage == Registered && call.promise != Open && !call.cleaned
  }

  /** The callback that runs once the promise of call `c` has settled. */
  ghost function Cleanup(p: Process, c: nat): Process
    requires WellFormed(p) && c < |p.calls| && CanClean(p.calls[c])
  {
    var q := Release(SetCall(p, c, p.calls[c].(cleaned := true)), c);
    if p.calls[c].status == Waiting then q else q.(active := q.active - {p.calls[c].id})
  }

  /** Shutdown forgets executions that are waiting or new. */
  ghost function Drop(p: Process, id: Id): Process {
    p.(active := p.active - {id})
  }

  function IndexOf(p: Process, id: Id, from: nat): (i: nat)
    requires from <= |p.queue| && forall k :: 0 <= k < |p.queue| ==> p.queue[k] < |p.calls|
    ensures from <= i <= |p.queue|
    ensures i < |p.queue| ==> p.calls[p.queue[i]].id == id
    ensures forall k :: from <= k < i ==> p.calls[p.queue[k]].id != id
    decreases |p.queue| - from
  {
    if from == |p.queue| || p.calls[p.queue[from]].id == id then from else IndexOf(p, id, from + 1)
  }

  /** Taking a stopped execution out of the capacity queue. The code also lets the next one go. */
  ghost function RemoveQueued(p: Process, id: Id): Process
    requires WellFormed(p)
  {
    var i := IndexOf(p, id, 0);
    if !p.enabled || i == |p.queue| then p
    else ResolveNext(p.(queue := p.queue[..i] + p.queue[i + 1..], capacity := p.capacity + 1))
  }

  datatype Event =
    | DoBegin(id: Id, mode: Mode, resumes: bool)
    | DoWriteSucceeds(c: nat)
    | DoWriteFails(c: nat)
    | DoRegister(c: nat)
    | DoSetStatus(id: Id, status: Status)
    | DoFinalize(id: Id)
    | DoStop(id: Id)
    | DoCleanup(c: nat)
    | DoRemoveQueued(id: Id)
    | DoDisable
    | DoDrop(id: Id)

  /** When an event can happen at all. */
  predicate Possible(p: Process, e: Event) {
    match e
    case DoWriteSucceeds(c) => c < |p.calls| && p.calls[c].stage == Writing
    case DoWriteFails(c) => c < |p.calls| && p.calls[c].stage == Writing
    case DoRegister(c) => c < |p.calls| && p.calls[c].stage == Won
    case DoCleanup(c) => c < |p.calls| && CanClean(p.calls[c])
    case _ => true
  }

  ghost function Apply(p: Process, e: Event): Process
    requires WellFormed(p) && Possible(p, e)
  {
    match e
    case DoBegin(id, mode, resumes) => Begin(p, id, mode, resumes)
    case DoWriteSucceeds(c) => WriteSucceeds(p, c)
    case DoWriteFails(c) => WriteFails(p, c)
    case DoRegister(c) => Register(p, c)
    case DoSetStatus(id, status) => SetStatus(p, id, status)
    case DoFinalize(id) => Finalize(p, id)
    case DoStop(id) => Stop(p, id)
    case DoCleanup(c) => Cleanup(p, c)
    case DoRemoveQueued(id) => RemoveQueued(p, id)
    case DoDisable => p.(enabled := false)
    case DoDrop(id) => Drop(p, id)
  }

  // ---------- slot conservation ----------

  /** The call has been let through and neither failed nor been cleaned up. */
  predicate Occupies(call: Call) {
    || call.stage == Writing || call.stage == Won
    || (call.stage == Registered && !call.cleaned)
  }

  predicate UsesSlot(call: Call) {
    call.mode == Limited && Occupies(call)
  }

  /** The number of slots in use. */
  ghost function Busy(calls: seq<Call>): nat {
    if calls == [] then 0 else Busy(calls[..|calls| - 1]) + if UsesSlot(calls[|calls| - 1]) then 1 else 0
  }

  ghost predicate Distinct(s: seq<nat>) {
    forall i, j :: 0 <= i < j < |s| ==> s[i] != s[j]
  }

  /** The bookkeeping of one process; `limit` is its capacity. */
  ghost predicate Sound(p: Process, limit: nat) {
    && WellFormed(p)
    && (forall id :: id in p.active ==> p.calls[p.active[id]].stage == Registered)
    && (forall c :: 0 <= c < |p.calls| && p.calls[c].cleaned ==>
          p.calls[c].stage == Registered && p.calls[c].promise != Open)
    && (forall c :: 0 <= c < |p.calls| ==>
          (p.calls[c].acquired <==> p.calls[c].mode != Evaluation && Occupies(p.calls[c])))
    && (forall i :: 0 <= i < |p.queue| ==>
          p.calls[p.queue[i]].stage == Throttled && p.calls[p.queue[i]].mode == Limited)
    && Distinct(p.queue)
    && (p.enabled ==> p.capacity + Busy(p.calls) + |p.queue| == limit)
  }

  lemma {:induction false} BusyUpdate(calls: seq<Call>, c: nat, call: Call)
    requires c < |calls|
    ensures Busy(calls[c := call])
         == Busy(calls) - (if UsesSlot(calls[c]) then 1 else 0) + (if UsesSlot(call) then 1 else 0)
  {
    var n := |calls| - 1;
    var updated := calls[c := call];
    if c == n {
      assert updated[..n] == calls[..n];
    } else {
      assert updated[..n] == calls[..n][c := call];
      BusyUpdate(calls[..n], c, call);
    }
  }

  lemma BusyAppend(calls: seq<Call>, call: Call)
    ensures Busy(calls + [call]) == Busy(calls) + if UsesSlot(call) then 1 else 0
  {
    assert (calls + [call])[..|calls|] == calls;
  }

  /** Setting one call that keeps its bookkeeping keeps the process sound. */
  lemma SetCallKeepsSound(p: Process, c: nat, call: Call, limit: nat)
    requires Sound(p, limit) && c < |p.calls|
    requires call.id == p.calls[c].id && call.mode == p.calls[c].mode && call.acquired == p.calls[c].acquired
    requires Occupies(call) == Occupies(p.calls[c])
    requires p.calls[c].stage != Throttled && call.stage != Throttled
    requires p.calls[c].stage == Registered ==> call.stage == Registered
    requires call.cleaned ==> call.stage == Registered && call.promise != Open
    ensures Sound(SetCall(p, c, call), limit)
  {
    BusyUpdate(p.calls, c, call);
  }

  lemma ResolveNextKeepsSound(p: Process, limit: nat)
    requires Sound(p, limit)
    ensures Sound(ResolveNext(p), limit)
  {
    if p.queue != [] {
      var next := p.queue[0];
      BusyUpdate(p.calls, next, p.calls[next].(stage := Writing, acquired := true));
    }
  }

  lemma SetTwice(p: Process, c: nat, first: Call, second: Call)
    requires c < |p.calls|
    ensures SetCall(SetCall(p, c, first), c, second) == SetCall(p, c, second)
  {
    assert p.calls[c := first][c := second] == p.calls[c := second];
  }

  /** Call `c` gives its slot back, before anyone else takes it. */
  lemma VacateKeepsSound(p: Process, c: nat, call: Call, limit: nat)
    requires Sound(p, limit) && c < |p.calls| && Occupies(p.calls[c]) && !Occupies(call) && !call.acquired
    requires call.id == p.calls[c].id && call.mode == p.calls[c].mode && call.stage != Throttled
    requires p.calls[c].stage == Registered ==> call.stage == Registered
    requires call.cleaned ==> call.stage == Registered && call.promise != Open
    ensures var back := if call.mode == Limited && p.enabled then 1 else 0;
            Sound(SetCall(p, c, call).(capacity := p.capacity + back), limit)
  {
    BusyUpdate(p.calls, c, call);
  }

  /** Call `c` has just stopped occupying its slot, but still holds its reservation. */
  lemma ReleaseKeepsSound(p: Process, c: nat, call: Call, limit: nat)
    requires Sound(p, limit) && c < |p.calls| && Occupies(p.calls[c]) && !Occupies(call)
    requires call.id == p.calls[c].id && call.mode == p.calls[c].mode && call.acquired == p.calls[c].acquired
    requires call.stage != Throttled
    requires p.calls[c].stage == Registered ==> call.stage == Registered
    requires call.cleaned ==> call.stage == Registered && call.promise != Open
    ensures WellFormed(SetCall(p, c, call))
    ensures Sound(Release(SetCall(p, c, call), c), limit)
  {
    var vacated := call.(acquired := false);
    VacateKeepsSound(p, c, vacated, limit);
    SetTwice(p, c, call, vacated);
    var r := SetCall(p, c, vacated);
    if call.mode == Limited && p.enabled && call.acquired {
      ResolveNextKeepsSound(r.(capacity := r.capacity + 1), limit);
    } else {
      assert r.(capacity := p.capacity + 0) == r;
    }
  }

  /** A new call, `taken` being 1 if it takes a slot. */
  lemma AppendKeepsSound(p: Process, call: Call, taken: nat, limit: nat)
    requires Sound(p, limit) && !call.cleaned && call.stage != Registered
    requires call.acquired <==> call.mode != Evaluation && Occupies(call)
    requires p.enabled ==> taken == if UsesSlot(call) then 1 else 0
    ensures Sound(p.(calls := p.calls + [call], capacity := p.capacity - taken), limit)
  {
    BusyAppend(p.calls, call);
  }

  /** The newest call joins the queue. */
  lemma JoinKeepsSound(p: Process, c: nat, limit: nat)
    requires Sound(p, limit) && c < |p.calls| && p.calls[c].stage == Throttled && p.calls[c].mode == Limited
    requires forall i :: 0 <= i < |p.queue| ==> p.queue[i] != c
    ensures Sound(p.(capacity := p.capacity - 1, queue := p.queue + [c]), limit)
  {
  }

  lemma BeginKeepsSound(p: Process, id: Id, mode: Mode, resumes: bool, limit: nat)
    requires Sound(p, limit)
    ensures Sound(Begin(p, id, mode, resumes), limit)
  {
    var call := Begin(p, id, mode, resumes).calls[|p.calls|];
    if call.stage == Throttled {
      AppendKeepsSound(p, call, 0, limit);
      JoinKeepsSound(p.(calls := p.calls + [call], capacity := p.capacity - 0), |p.calls|, limit);
    } else {
      var taken := if mode == Limited && p.enabled then 1 else 0;
      AppendKeepsSound(p, call, taken, limit);
    }
  }

  lemma DropKeepsSound(p: Process, i: nat, limit: nat)
    requires Sound(p, limit) && i < |p.queue|
    ensures Sound(p.(queue := p.queue[..i] + p.queue[i + 1..], capacity := p.capacity + 1), limit)
  {
    var rest := p.queue[..i] + p.queue[i + 1..];
    assert forall k :: 0 <= k < |rest| ==> rest[k] == p.queue[if k < i then k else k + 1];
  }

  lemma RemoveAtKeepsSound(p: Process, i: nat, limit: nat)
    requires Sound(p, limit) && i < |p.queue|
    ensures Sound(ResolveNext(p.(queue := p.queue[..i] + p.queue[i + 1..], capacity := p.capacity + 1)), limit)
  {
    DropKeepsSound(p, i, limit);
    ResolveNextKeepsSound(p.(queue := p.queue[..i] + p.queue[i + 1..], capacity := p.capacity + 1), limit);
  }

  lemma RemoveQueuedKeepsSound(p: Process, id: Id, limit: nat)
    requires Sound(p, limit)
    ensures Sound(RemoveQueued(p, id), limit)
  {
    var i := IndexOf(p, id, 0);
    if p.enabled && i < |p.queue| {
      RemoveAtKeepsSound(p, i, limit);
    }
  }

  lemma WriteSucceedsKeepsSound(p: Process, c: nat, limit: nat)
    requires Sound(p, limit) && c < |p.calls| && p.calls[c].stage == Writing
    ensures Sound(WriteSucceeds(p, c), limit)
  {
    SetCallKeepsSound(p, c, p.calls[c].(stage := Won), limit);
  }

  lemma WriteFailsKeepsSound(p: Process, c: nat, limit: nat)
    requires Sound(p, limit) && c < |p.calls| && p.calls[c].stage == Writing
    ensures Sound(WriteFails(p, c), limit)
  {
    ReleaseKeepsSound(p, c, p.calls[c].(stage := Failed), limit);
  }

  lemma RegisterKeepsSound(p: Process, c: nat, limit: nat)
    requires Sound(p, limit) && c < |p.calls| && p.calls[c].stage == Won
    ensures Sound(Register(p, c), limit)
  {
    var call := p.calls[c].(stage := Registered, status := Running, promise := Open);
    SetCallKeepsSound(p, c, call, limit);
    EnterKeepsSound(SetCall(p, c, call), c, limit);
  }

  lemma EnterKeepsSound(p: Process, c: nat, limit: nat)
    requires Sound(p, limit) && c < |p.calls| && p.calls[c].stage == Registered
    ensures Sound(p.(active := p.active[p.calls[c].id := c]), limit)
  {
  }

  lemma CleanupKeepsSound(p: Process, c: nat, limit: nat)
    requires Sound(p, limit) && c < |p.calls| && CanClean(p.calls[c])
    ensures Sound(Cleanup(p, c), limit)
  {
    var call := p.calls[c].(cleaned := true);
    ReleaseKeepsSound(p, c, call, limit);
    DropEntryKeepsSound(Release(SetCall(p, c, call), c), p.calls[c].id, limit);
  }

  lemma IdStepKeepsSound(p: Process, e: Event, limit: nat)
    requires Sound(p, limit)
    requires e.DoSetStatus? || e.DoFinalize? || e.DoStop?
    ensures Sound(Apply(p, e), limit)
  {
    if e.id in p.active {
      var c := p.active[e.id];
      match e
      case DoSetStatus(id, status) => SetCallKeepsSound(p, c, p.calls[c].(status := status), limit);
      case DoFinalize(id) => SettleKeepsSound(p, c, Resolved, limit);
      case DoStop(id) => StopKeepsSound(p, id, limit);
    }
  }

  /** Every step keeps the books: capacity, slots in use and queued calls add up to the limit,
      and a call holds a reservation exactly while it occupies a slot. */
  lemma StepKeepsSound(p: Process, e: Event, limit: nat)
    requires Sound(p, limit) && Possible(p, e)
    ensures Sound(Apply(p, e), limit)
  {
    match e
    case DoBegin(id, mode, resumes) => BeginKeepsSound(p, id, mode, resumes, limit);
    case DoRemoveQueued(id) => RemoveQueuedKeepsSound(p, id, limit);
    case DoDisable => DisableKeepsSound(p, limit);
    case DoDrop(id) => DropEntryKeepsSound(p, id, limit);
    case DoSetStatus(id, status) => IdStepKeepsSound(p, e, limit);
    case DoFinalize(id) => IdStepKeepsSound(p, e, limit);
    case DoStop(id) => IdStepKeepsSound(p, e, limit);
    case DoWriteSucceeds(c) => WriteSucceedsKeepsSound(p, c, limit);
    case DoWriteFails(c) => WriteFailsKeepsSound(p, c, limit);
    case DoRegister(c) => RegisterKeepsSound(p, c, limit);
    case DoCleanup(c) => CleanupKeepsSound(p, c, limit);
  }

  lemma DisableKeepsSound(p: Process, limit: nat)
    requires Sound(p, limit)
    ensures Sound(p.(enabled := false), limit)
  {
  }

  lemma DropEntryKeepsSound(p: Process, id: Id, limit: nat)
    requires Sound(p, limit)
    ensures Sound(Drop(p, id), limit)
  {
  }

  lemma StopKeepsSound(p: Process, id: Id, limit: nat)
    requires Sound(p, limit)
    ensures Sound(Stop(p, id), limit)
  {
    if id in p.active && p.calls[p.active[id]].status != Waiting {
      SettleKeepsSound(p, p.active[id], Rejected, limit);
    }
  }

  lemma SettleKeepsSound(p: Process, c: nat, how: Promise, limit: nat)
    requires Sound(p, limit) && c < |p.calls| && p.calls[c].stage == Registered && how != Open
    ensures Sound(Settle(p, c, how), limit)
  {
    if p.calls[c].promise == Open {
      SetCallKeepsSound(p, c, p.calls[c].(promise := how), limit);
    }
  }

  // ---------- runs ----------

  /** The events of a run, each possible when it happens. */
  ghost predicate Run(p: Process, events: seq<Event>)
    requires WellFormed(p)
    decreases |events|
  {
    events == [] || (Possible(p, events[0]) && WellFormed(Apply(p, events[0])) && Run(Apply(p, events[0]), events[1..]))
  }

  ghost function After(p: Process, events: seq<Event>): Process
    requires WellFormed(p) && Run(p, events)
    decreases |events|
  {
    if events == [] then p else After(Apply(p, events[0]), events[1..])
  }

  /** Slot conservation, over every run from the start. */
  lemma {:induction false} SlotsAreConserved(p: Process, events: seq<Event>, limit: nat)
    requires Sound(p, limit) && Run(p, events)
    ensures Sound(After(p, events), limit)
    decreases |events|
  {
    if events != [] {
      StepKeepsSound(p, events[0], limit);
      SlotsAreConserved(Apply(p, events[0]), events[1..], limit);
    }
  }

  lemma StartIsSound(limit: nat, enabled: bool)
    ensures Sound(Start(limit, enabled), limit)
  {
  }

  // ---------- how far a call has come ----------

  /** What any step may do to one call. */
  predicate Progress(a: Call, b: Call) {
    && b.id == a.id && b.mode == a.mode && b.resumes == a.resumes
    && (b.stage == a.stage
        || (a.stage == Throttled && b.stage == Writing)
        || (a.stage == Writing && (b.stage == Won || b.stage == Failed))
        || (a.stage == Won && b.stage == Registered))
    && (a.cleaned ==> b.cleaned)
    && (a.stage == Registered && a.promise != Open ==> b.promise == a.promise)
  }

  lemma ResolveNextProgress(p: Process)
    requires WellFormed(p)
    requires p.queue != [] ==> p.calls[p.queue[0]].stage == Throttled
    ensures |ResolveNext(p).calls| == |p.calls| && ResolveNext(p).active == p.active
    ensures forall c :: 0 <= c < |p.calls| ==> Progress(p.calls[c], ResolveNext(p).calls[c])
    ensures forall c :: 0 <= c < |p.calls| && p.calls[c].stage != Throttled ==> ResolveNext(p).calls[c] == p.calls[c]
  {
  }

  lemma ReleaseProgress(p: Process, c: nat, d: nat)
    requires WellFormed(p) && c < |p.calls| && d < |p.calls|
    requires p.queue != [] ==> p.calls[p.queue[0]].stage == Throttled
    requires p.calls[c].stage != Throttled
    ensures |Release(p, c).calls| == |p.calls| && Release(p, c).active == p.active
    ensures Progress(p.calls[d], Release(p, c).calls[d])
    ensures p.calls[d].stage != Throttled ==>
              Release(p, c).calls[d] == if d == c then p.calls[d].(acquired := false) else p.calls[d]
  {
    if p.calls[c].acquired && p.calls[c].mode == Limited && p.enabled {
      var q := SetCall(p, c, p.calls[c].(acquired := false));
      ResolveNextProgress(q.(capacity := q.capacity + 1));
    }
  }

  lemma RemoveQueuedProgress(p: Process, id: Id, c: nat, limit: nat)
    requires Sound(p, limit) && c < |p.calls|
    ensures var q := RemoveQueued(p, id);
            && |q.calls| == |p.calls| && q.active == p.active && Progress(p.calls[c], q.calls[c])
            && (p.calls[c].stage != Throttled ==> q.calls[c] == p.calls[c])
  {
    var i := IndexOf(p, id, 0);
    if p.enabled && i < |p.queue| {
      DropKeepsSound(p, i, limit);
      ResolveNextProgress(p.(queue := p.queue[..i] + p.queue[i + 1..], capacity := p.capacity + 1));
    }
  }

  lemma WriteFailsProgress(p: Process, d: nat, c: nat, limit: nat)
    requires Sound(p, limit) && d < |p.calls| && p.calls[d].stage == Writing && c < |p.calls|
    ensures var q := WriteFails(p, d);
            |q.calls| == |p.calls| && q.active == p.active && Progress(p.calls[c], q.calls[c])
    ensures c != d && p.calls[c].stage != Throttled ==> WriteFails(p, d).calls[c] == p.calls[c]
  {
    ReleaseProgress(SetCall(p, d, p.calls[d].(stage := Failed)), d, c);
  }

  lemma CleanupProgress(p: Process, d: nat, c: nat, limit: nat)
    requires Sound(p, limit) && d < |p.calls| && CanClean(p.calls[d]) && c < |p.calls|
    ensures var q := Cleanup(p, d);
            && |q.calls| == |p.calls| && Progress(p.calls[c], q.calls[c])
            && q.active == if p.calls[d].status == Waiting then p.active else p.active - {p.calls[d].id}
    ensures c != d && p.calls[c].stage != Throttled ==> Cleanup(p, d).calls[c] == p.calls[c]
    ensures c == d ==> Cleanup(p, d).calls[c] == p.calls[c].(cleaned := true, acquired := false)
  {
    ReleaseProgress(SetCall(p, d, p.calls[d].(cleaned := true)), d, c);
  }

  lemma PlainProgress(p: Process, e: Event, c: nat)
    requires WellFormed(p) && Possible(p, e) && c < |p.calls|
    requires !e.DoWriteFails? && !e.DoCleanup? && !e.DoRemoveQueued?
    ensures c < |Apply(p, e).calls| && Progress(p.calls[c], Apply(p, e).calls[c])
  {
  }

  lemma StepProgress(p: Process, e: Event, c: nat, limit: nat)
    requires Sound(p, limit) && Possible(p, e) && c < |p.calls|
    ensures c < |Apply(p, e).calls| && Progress(p.calls[c], Apply(p, e).calls[c])
  {
    if e.DoWriteFails? {
      WriteFailsProgress(p, e.c, c, limit);
    } else if e.DoCleanup? {
      CleanupProgress(p, e.c, c, limit);
    } else if e.DoRemoveQueued? {
      RemoveQueuedProgress(p, e.id, c, limit);
    } else {
      PlainProgress(p, e, c);
    }
  }

  // ---------- each reservation is released once ----------

  predicate Held(p: Process, c: nat) {
    c < |p.calls| && p.calls[c].acquired
  }

  /** The number of events in a run at which call `c` gives its reservation back. */
  ghost function Releases(p: Process, events: seq<Event>, c: nat): nat
    requires WellFormed(p) && Run(p, events)
    decreases |events|
  {
    if events == [] then 0
    else
      var q := Apply(p, events[0]);
      (if Held(p, c) && !Held(q, c) then 1 else 0) + Releases(q, events[1..], c)
  }

  /** The call's write failed, or its promise settled and the clean-up ran. */
  predicate Ended(p: Process, c: nat) {
    c < |p.calls| && p.calls[c].mode != Evaluation && (p.calls[c].stage == Failed || p.calls[c].cleaned)
  }

  lemma StepReleases(p: Process, e: Event, c: nat, limit: nat)
    requires Sound(p, limit) && Possible(p, e)
    ensures Ended(p, c) ==> Ended(Apply(p, e), c)
    ensures Held(p, c) && !Held(Apply(p, e), c) <==> !Ended(p, c) && Ended(Apply(p, e), c)
  {
    StepKeepsSound(p, e, limit);
    if c < |p.calls| {
      StepProgress(p, e, c, limit);
    } else if e.DoBegin? {
      assert c < |Apply(p, e).calls| ==> Apply(p, e).calls[c].stage != Failed;
    } else {
      StepBeginsNothing(p, e, limit);
    }
  }

  lemma StepBeginsNothing(p: Process, e: Event, limit: nat)
    requires Sound(p, limit) && Possible(p, e) && !e.DoBegin?
    ensures |Apply(p, e).calls| == |p.calls|
  {
  }

  /** A reservation is released at most once, and exactly once when `add` failed, lost the
      compare-and-set, or its registration was cleaned up after its promise settled. */
  lemma {:induction false} ReleasedExactlyOnce(p: Process, events: seq<Event>, c: nat, limit: nat)
    requires Sound(p, limit) && Run(p, events) && !Ended(p, c)
    ensures Releases(p, events, c) == if Ended(After(p, events), c) then 1 else 0
    decreases |events|
  {
    if events != [] {
      var q := Apply(p, events[0]);
      StepReleases(p, events[0], c, limit);
      StepKeepsSound(p, events[0], limit);
      if Ended(q, c) {
        NothingLeftToRelease(q, events[1..], c, limit);
      } else {
        ReleasedExactlyOnce(q, events[1..], c, limit);
      }
    }
  }

  lemma {:induction false} NothingLeftToRelease(p: Process, events: seq<Event>, c: nat, limit: nat)
    requires Sound(p, limit) && Run(p, events) && Ended(p, c)
    ensures Releases(p, events, c) == 0 && Ended(After(p, events), c)
    decreases |events|
  {
    if events != [] {
      StepReleases(p, events[0], c, limit);
      StepKeepsSound(p, events[0], limit);
      NothingLeftToRelease(Apply(p, events[0]), events[1..], c, limit);
    }
  }

  // ---------- the limit itself ----------

  /** As many calls are queued as the capacity is overdrawn. */
  ghost predicate Tight(p: Process) {
    p.enabled ==> |p.queue| == if p.capacity < 0 then -p.capacity else 0
  }

  lemma TightRespectsLimit(p: Process, limit: nat)
    requires Sound(p, limit) && Tight(p) && p.enabled
    ensures Busy(p.calls) <= limit
    ensures p.queue != [] ==> Busy(p.calls) == limit
  {
  }

  lemma StepKeepsTight(p: Process, e: Event, limit: nat)
    requires Sound(p, limit) && Possible(p, e) && Tight(p) && !e.DoRemoveQueued?
    ensures Tight(Apply(p, e))
  {
  }

  /** The event takes a queued execution out of the queue. */
  ghost predicate Removes(p: Process, e: Event)
    requires WellFormed(p)
  {
    e.DoRemoveQueued? && p.enabled && IndexOf(p, e.id, 0) < |p.queue|
  }

  /** Taking a queued execution out hands a slot to the next one in the queue although none was
      given back. So the limit is overrun exactly when another execution is queued. */
  lemma RemovalOverrunsLimit(p: Process, id: Id, limit: nat)
    requires Sound(p, limit) && Tight(p) && Removes(p, DoRemoveQueued(id))
    ensures Busy(RemoveQueued(p, id).calls) > limit <==> |p.queue| > 1
  {
    TightRespectsLimit(p, limit);
    RemoveQueuedKeepsSound(p, id, limit);
  }

  lemma HarmlessKeepsTight(p: Process, e: Event, limit: nat)
    requires Sound(p, limit) && Tight(p) && Possible(p, e) && (Removes(p, e) ==> |p.queue| == 1)
    ensures Tight(Apply(p, e))
  {
    if e.DoRemoveQueued? {
      if Removes(p, e) {
        assert IndexOf(p, e.id, 0) == 0;
      }
    } else {
      StepKeepsTight(p, e, limit);
    }
  }

  /** While capacity control is on, no more than `limit` slots are in use, in any state of the run. */
  ghost predicate StaysWithin(p: Process, events: seq<Event>, limit: nat)
    requires WellFormed(p) && Run(p, events)
    decreases |events|
  {
    (p.enabled ==> Busy(p.calls) <= limit) && (events == [] || StaysWithin(Apply(p, events[0]), events[1..], limit))
  }

  /** Whenever the run takes an execution out of the queue, it is the only one there. */
  ghost predicate RemovesOnlyLast(p: Process, events: seq<Event>)
    requires WellFormed(p) && Run(p, events)
    decreases |events|
  {
    events == [] || ((Removes(p, events[0]) ==> |p.queue| == 1) && RemovesOnlyLast(Apply(p, events[0]), events[1..]))
  }

  /** Main result, over every run: the limit is respected throughout if and only if every removal
      from the queue finds nobody else queued. */
  lemma {:induction false} LimitHoldsExactlyWhen(p: Process, events: seq<Event>, limit: nat)
    requires Sound(p, limit) && Tight(p) && Run(p, events)
    ensures StaysWithin(p, events, limit) <==> RemovesOnlyLast(p, events)
    decreases |events|
  {
    if p.enabled {
      TightRespectsLimit(p, limit);
    }
    if events != [] {
      var e := events[0];
      StepKeepsSound(p, e, limit);
      if Removes(p, e) && |p.queue| != 1 {
        RemovalOverrunsLimit(p, e.id, limit);
        assert !StaysWithin(Apply(p, e), events[1..], limit);
      } else {
        HarmlessKeepsTight(p, e, limit);
        LimitHoldsExactlyWhen(Apply(p, e), events[1..], limit);
      }
    }
  }

  /** In particular, without removals. */
  lemma {:induction false} LimitIsRespected(p: Process, events: seq<Event>, limit: nat)
    requires Sound(p, limit) && Run(p, events) && Tight(p)
    requires forall i :: 0 <= i < |events| ==> !events[i].DoRemoveQueued?
    ensures StaysWithin(p, events, limit)
    decreases |events|
  {
    if p.enabled {
      TightRespectsLimit(p, limit);
    }
    if events != [] {
      StepKeepsTight(p, events[0], limit);
      StepKeepsSound(p, events[0], limit);
      LimitIsRespected(Apply(p, events[0]), events[1..], limit);
    }
  }

  lemma ThreeArrive(a: Id, b: Id, c: Id, p: Process)
    requires p == Begin(Begin(Begin(Start(1, true), a, Limited, false), b, Limited, false), c, Limited, false)
    ensures p.enabled && p.capacity == -2 && p.queue == [1, 2] && |p.calls| == 3
    ensures p.calls[0] == Call(a, Limited, false, Writing, true, New, Open, false)
    ensures p.calls[1] == Call(b, Limited, false, Throttled, false, New, Open, false)
    ensures p.calls[2] == Call(c, Limited, false, Throttled, false, New, Open, false)
  {
  }

  lemma OneIsRemoved(b: Id, p: Process)
    requires WellFormed(p) && p.enabled && p.queue == [1, 2] && |p.calls| == 3 && p.capacity == -2 && p.calls[1].id == b
    ensures RemoveQueued(p, b)
         == SetCall(p.(queue := [], capacity := -1), 2, p.calls[2].(stage := Writing, acquired := true))
  {
    assert IndexOf(p, b, 0) == 0;
    assert p.queue[..0] + p.queue[1..] == [2];
  }

  lemma ArrivalRuns(p: Process, id: Id, q: Process, rest: seq<Event>, limit: nat)
    requires Sound(p, limit) && q == Begin(p, id, Limited, false) && WellFormed(q) && Run(q, rest)
    ensures Run(p, [DoBegin(id, Limited, false)] + rest)
    ensures After(p, [DoBegin(id, Limited, false)] + rest) == After(q, rest)
  {
    RunFrom(p, DoBegin(id, Limited, false), rest);
  }

  lemma ArrivalsRun(a: Id, b: Id, c: Id, p: Process, rest: seq<Event>)
    requires p == Begin(Begin(Begin(Start(1, true), a, Limited, false), b, Limited, false), c, Limited, false)
    requires WellFormed(p) && Run(p, rest)
    ensures var events :=
              [DoBegin(a, Limited, false)] + ([DoBegin(b, Limited, false)] + ([DoBegin(c, Limited, false)] + rest));
            Run(Start(1, true), events) && After(Start(1, true), events) == After(p, rest)
  {
    var p1 := Begin(Start(1, true), a, Limited, false);
    var p2 := Begin(p1, b, Limited, false);
    StartIsSound(1, true);
    BeginKeepsSound(Start(1, true), a, Limited, false, 1);
    BeginKeepsSound(p1, b, Limited, false, 1);
    ArrivalRuns(p2, c, p, rest, 1);
    ArrivalRuns(p1, b, p2, [DoBegin(c, Limited, false)] + rest, 1);
    ArrivalRuns(Start(1, true), a, p1, [DoBegin(b, Limited, false)] + ([DoBegin(c, Limited, false)] + rest), 1);
  }

  /** It happens: with a limit of one, three executions arrive, the second is taken out of the
      queue, and the first and the third run at once. */
  lemma RemovalOverrunsLimitOfOne(a: Id, b: Id, c: Id)
    ensures var events :=
              [DoBegin(a, Limited, false), DoBegin(b, Limited, false), DoBegin(c, Limited, false), DoRemoveQueued(b)];
            Run(Start(1, true), events) && Busy(After(Start(1, true), events).calls) == 2
  {
    var p := Begin(Begin(Begin(Start(1, true), a, Limited, false), b, Limited, false), c, Limited, false);
    ThreeArrive(a, b, c, p);
    OneIsRemoved(b, p);
    RunFrom(p, DoRemoveQueued(b), []);
    ArrivalsRun(a, b, c, p, [DoRemoveQueued(b)] + []);
    assert [DoBegin(a, Limited, false)]
             + ([DoBegin(b, Limited, false)] + ([DoBegin(c, Limited, false)] + ([DoRemoveQueued(b)] + [])))
        == [DoBegin(a, Limited, false), DoBegin(b, Limited, false), DoBegin(c, Limited, false), DoRemoveQueued(b)];
    BusyOfThree(RemoveQueued(p, b).calls);
  }

  lemma RunFrom(p: Process, e: Event, rest: seq<Event>)
    requires WellFormed(p) && Possible(p, e) && WellFormed(Apply(p, e)) && Run(Apply(p, e), rest)
    ensures Run(p, [e] + rest) && After(p, [e] + rest) == After(Apply(p, e), rest)
  {
    assert ([e] + rest)[1..] == rest;
  }

  lemma BusyOfThree(calls: seq<Call>)
    requires |calls| == 3 && UsesSlot(calls[0]) && !UsesSlot(calls[1]) && UsesSlot(calls[2])
    ensures Busy(calls) == 2
  {
    BusyAppend([], calls[0]);
    BusyAppend([calls[0]], calls[1]);
    BusyAppend([calls[0], calls[1]], calls[2]);
    assert [] + [calls[0]] == [calls[0]];
    assert [calls[0]] + [calls[1]] == [calls[0], calls[1]];
    assert [calls[0], calls[1]] + [calls[2]] == calls;
  }

  // ---------- registrations that nothing can settle any more ----------

  /** Registered and unsettled, but no longer what its id leads to. */
  predicate Orphaned(p: Process, c: nat) {
    && c < |p.calls| && p.calls[c].stage == Registered && p.calls[c].promise == Open
    && !(p.calls[c].id in p.active && p.active[p.calls[c].id] == c)
  }

  lemma StepKeepsOrphan(p: Process, e: Event, c: nat, limit: nat)
    requires Sound(p, limit) && Possible(p, e) && Orphaned(p, c)
    ensures Orphaned(Apply(p, e), c)
  {
    if e.DoWriteFails? {
      WriteFailsProgress(p, e.c, c, limit);
    } else if e.DoCleanup? {
      CleanupProgress(p, e.c, c, limit);
    } else if e.DoRemoveQueued? {
      RemoveQueuedProgress(p, e.id, c, limit);
    } else {
      PlainProgress(p, e, c);
    }
  }

  /** Whatever happens afterwards, an orphaned registration is never settled and its slot never
      comes back. */
  lemma {:induction false} OrphanKeepsItsSlot(p: Process, events: seq<Event>, c: nat, limit: nat)
    requires Sound(p, limit) && Run(p, events) && Orphaned(p, c)
    ensures Orphaned(After(p, events), c)
    ensures UsesSlot(p.calls[c]) ==> UsesSlot(After(p, events).calls[c])
    decreases |events|
  {
    if events != [] {
      StepKeepsOrphan(p, events[0], c, limit);
      StepProgress(p, events[0], c, limit);
      StepKeepsSound(p, events[0], limit);
      OrphanKeepsItsSlot(Apply(p, events[0]), events[1..], c, limit);
    }
    NoOrphanIsCleaned(p, c, limit);
  }

  lemma NoOrphanIsCleaned(p: Process, c: nat, limit: nat)
    requires Sound(p, limit) && Orphaned(p, c)
    ensures Occupies(p.calls[c])
  {
  }

  /** Stopping an id orphans its registration exactly when that is waiting and not yet settled. */
  lemma StopOrphansExactlyWhen(p: Process, id: Id, c: nat)
    requires WellFormed(p) && id in p.active && p.active[id] == c && p.calls[c].stage == Registered
    ensures Orphaned(Stop(p, id), c) <==> p.calls[c].status == Waiting && p.calls[c].promise == Open
  {
  }

  // ---------- shutdown ----------

  /** A registered execution that was cleaned up stays in the map only because it waits. */
  ghost predicate KeptWaiting(p: Process)
    requires WellFormed(p)
  {
    forall id :: id in p.active && p.calls[p.active[id]].cleaned ==> p.calls[p.active[id]].status == Waiting
  }

  lemma PlainKeepsWaiting(p: Process, e: Event, limit: nat)
    requires Sound(p, limit) && Possible(p, e) && KeptWaiting(p)
    requires !e.DoWriteFails? && !e.DoCleanup? && !e.DoRemoveQueued?
    requires e.DoSetStatus? ==> e.status == Waiting
    requires WellFormed(Apply(p, e))
    ensures KeptWaiting(Apply(p, e))
  {
  }

  lemma CleanupKeepsWaiting(p: Process, c: nat, limit: nat)
    requires Sound(p, limit) && KeptWaiting(p) && c < |p.calls| && CanClean(p.calls[c])
    requires WellFormed(Cleanup(p, c))
    ensures KeptWaiting(Cleanup(p, c))
  {
    var q := Cleanup(p, c);
    CleanupProgress(p, c, c, limit);
    forall id | id in q.active && q.calls[q.active[id]].cleaned
      ensures q.calls[q.active[id]].status == Waiting
    {
      CleanupProgress(p, c, q.active[id], limit);
    }
  }

  /** The program only ever sets the status `waiting`. */
  lemma StepKeepsWaiting(p: Process, e: Event, limit: nat)
    requires Sound(p, limit) && Possible(p, e) && KeptWaiting(p)
    requires e.DoSetStatus? ==> e.status == Waiting
    ensures WellFormed(Apply(p, e)) && KeptWaiting(Apply(p, e))
  {
    StepKeepsSound(p, e, limit);
    var q := Apply(p, e);
    if e.DoCleanup? {
      CleanupKeepsWaiting(p, e.c, limit);
    } else if e.DoWriteFails? {
      forall id | id in p.active ensures id in q.active && q.calls[q.active[id]] == p.calls[p.active[id]] {
        WriteFailsProgress(p, e.c, p.active[id], limit);
      }
      WriteFailsProgress(p, e.c, e.c, limit);
    } else if e.DoRemoveQueued? {
      forall id | id in p.active ensures id in q.active && q.calls[q.active[id]] == p.calls[p.active[id]] {
        RemoveQueuedProgress(p, e.id, p.active[id], limit);
      }
      RemovingKeepsActive(p, e.id, limit);
    } else {
      PlainKeepsWaiting(p, e, limit);
    }
  }

  /** Over every run from the start, when `waiting` is the only status that is reported: what a
      shutdown needs of the state it begins in. */
  lemma {:induction false} RunsAreReadyToShutDown(p: Process, events: seq<Event>, limit: nat)
    requires Sound(p, limit) && KeptWaiting(p) && Run(p, events)
    requires forall i :: 0 <= i < |events| && events[i].DoSetStatus? ==> events[i].status == Waiting
    ensures Sound(After(p, events), limit) && KeptWaiting(After(p, events))
    decreases |events|
  {
    if events != [] {
      StepKeepsSound(p, events[0], limit);
      StepKeepsWaiting(p, events[0], limit);
      RunsAreReadyToShutDown(Apply(p, events[0]), events[1..], limit);
    }
  }

  lemma StartIsReadyToShutDown(limit: nat, enabled: bool, events: seq<Event>)
    requires Run(Start(limit, enabled), events)
    requires forall i :: 0 <= i < |events| && events[i].DoSetStatus? ==> events[i].status == Waiting
    ensures var p := After(Start(limit, enabled), events);
            Sound(p, limit) && KeptWaiting(p)
  {
    StartIsSound(limit, enabled);
    RunsAreReadyToShutDown(Start(limit, enabled), events, limit);
  }

  lemma RemovingKeepsActive(p: Process, id: Id, limit: nat)
    requires Sound(p, limit)
    ensures RemoveQueued(p, id).active == p.active
  {
  }

  /** After the pass of a cancelling shutdown: whatever is still in the map has a settled promise
      and a clean-up that will take it out. */
  ghost predicate Draining(p: Process)
    requires WellFormed(p)
  {
    forall id :: id in p.active ==> CanClean(p.calls[p.active[id]]) && p.calls[p.active[id]].status != Waiting
  }

  /** The process after stopping every execution outside `todo`: the waiting ones are gone, the
      others' promises are settled, and nothing else about them has changed. */
  ghost predicate CancelledExcept(was: Process, now: Process, todo: set<Id>)
    requires WellFormed(was) && WellFormed(now)
  {
    && |now.calls| == |was.calls|
    && (forall id :: id in now.active <==>
          id in was.active && (id in todo || was.calls[was.active[id]].status != Waiting))
    && (forall id :: id in now.active ==> now.active[id] == was.active[id])
    && (forall id :: id in now.active ==>
          now.calls[was.active[id]] == if id in todo then was.calls[was.active[id]]
                                       else Cancelled(was.calls[was.active[id]]))
  }

  function Cancelled(call: Call): Call {
    if call.promise == Open then call.(promise := Rejected) else call
  }

  lemma CancelWaiting(was: Process, now: Process, todo: set<Id>, id: Id)
    requires WellFormed(was) && WellFormed(now) && CancelledExcept(was, now, todo)
    requires id in todo && id in now.active && was.calls[was.active[id]].status == Waiting
    ensures WellFormed(Drop(now, id)) && CancelledExcept(was, Drop(now, id), todo - {id})
  {
  }

  lemma CancelRunning(was: Process, now: Process, todo: set<Id>, id: Id)
    requires WellFormed(was) && WellFormed(now) && CancelledExcept(was, now, todo)
    requires id in todo && id in now.active && was.calls[was.active[id]].status != Waiting
    ensures WellFormed(Settle(now, now.active[id], Rejected))
    ensures CancelledExcept(was, Settle(now, now.active[id], Rejected), todo - {id})
  {
  }

  lemma CancelOne(was: Process, now: Process, todo: set<Id>, id: Id)
    requires WellFormed(was) && WellFormed(now) && CancelledExcept(was, now, todo)
    requires id in todo && id in now.active
    ensures WellFormed(Stop(now, id)) && CancelledExcept(was, Stop(now, id), todo - {id})
    ensures Stop(now, id).active.Keys >= now.active.Keys - {id}
  {
    if was.calls[was.active[id]].status == Waiting {
      CancelWaiting(was, now, todo, id);
      assert Stop(now, id) == Drop(now, id);
    } else {
      CancelRunning(was, now, todo, id);
      assert Stop(now, id) == Settle(now, now.active[id], Rejected);
    }
  }

  lemma CancelledDrains(was: Process, now: Process)
    requires WellFormed(was) && WellFormed(now) && CancelledExcept(was, now, {}) && KeptWaiting(was)
    requires forall id :: id in was.active ==> was.calls[was.active[id]].stage == Registered
    ensures Draining(now)
  {
  }

  ghost function PendingCleanups(p: Process): set<nat> {
    set c | 0 <= c < |p.calls| && CanClean(p.calls[c])
  }

  /** Any pending clean-up, in any order, keeps the process draining and uses itself up; it adds
      nothing to the map, and takes its own execution out. */
  lemma CleanupDrains(p: Process, c: nat, limit: nat)
    requires Sound(p, limit) && Draining(p) && c in PendingCleanups(p)
    ensures WellFormed(Cleanup(p, c)) && Draining(Cleanup(p, c))
    ensures PendingCleanups(Cleanup(p, c)) == PendingCleanups(p) - {c}
    ensures Cleanup(p, c).active.Keys <= p.active.Keys
    ensures p.calls[c].status != Waiting ==> p.calls[c].id !in Cleanup(p, c).active
  {
    StepKeepsSound(p, DoCleanup(c), limit);
    var q := Cleanup(p, c);
    forall d | 0 <= d < |p.calls|
      ensures d < |q.calls| && (CanClean(q.calls[d]) <==> d != c && CanClean(p.calls[d]))
    {
      CleanupProgress(p, c, d, limit);
    }
    CleanupProgress(p, c, c, limit);
    forall id | id in q.active
      ensures CanClean(q.calls[q.active[id]]) && q.calls[q.active[id]].status != Waiting
    {
      CleanupProgress(p, c, q.active[id], limit);
    }
  }

  /** As long as the map is not empty, some clean-up is pending. */
  lemma DrainingMakesProgress(p: Process)
    requires WellFormed(p) && Draining(p)
    ensures p.active != map[] ==> PendingCleanups(p) != {}
  {
    if p.active != map[] {
      var id :| id in p.active;
      assert p.active[id] in PendingCleanups(p);
    }
  }
}
