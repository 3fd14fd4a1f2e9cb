/** The in-memory registry of one process, with its objects: the map from execution id to the
    registered execution, and clean-up callbacks that hold on to the execution they were created
    for. Each method is proved against the step of the same name in `Executions`. */
module ActiveExecutions {
  import opened Wrappers
  import opened Executions

  /** One `add` call: its capacity reservation and the execution it registers. */
  class Execution {
    const id: Id
    const mode: Mode
    const resumes: bool
    ghost const serial: nat
    var stage: Stage
    var acquired: bool
    var status: Status
    var promise: Promise
    var cleaned: bool

    constructor (id: Id, mode: Mode, resumes: bool, ghost serial: nat)
      ensures this.serial == serial
      ensures View() == Call(id, mode, resumes, Writing, mode != Evaluation, New, Open, false)
    {
      this.id, this.mode, this.resumes, this.serial := id, mode, resumes, serial;
      stage, acquired, status, promise, cleaned := Writing, mode != Evaluation, New, Open, false;
    }

    function View(): Call
      reads this
    {
      Call(id, mode, resumes, stage, acquired, status, promise, cleaned)
    }
  }

  class ActiveExecutions {
    const limit: nat
    var activeExecutions: map<Id, Execution>
    var capacity: int
    var queue: seq<Execution>
    var isEnabled: bool
    /** Every `add` call so far, in order; their promises keep them alive. */
    var calls: seq<Execution>
    /** The state as a value, with calls named by their position in `calls`. */
    ghost var state: Process

    /** The objects and the value describe the same state. */
    ghost predicate Valid()
      reads this, calls
    {
      && WellFormed(state)
      && |calls| == |state.calls|
      && (forall c :: 0 <= c < |calls| ==> calls[c].serial == c && calls[c].View() == state.calls[c])
      && activeExecutions.Keys == state.active.Keys
      && (forall id :: id in activeExecutions ==> activeExecutions[id] == calls[state.active[id]])
      && |queue| == |state.queue|
      && (forall i :: 0 <= i < |queue| ==> queue[i] == calls[state.queue[i]])
      && capacity == state.capacity && isEnabled == state.enabled
    }

    ghost predicate Owns(e: Execution)
      reads this
    {
      e.serial < |calls| && calls[e.serial] == e
    }

    constructor (limit: nat, isEnabled: bool)
      ensures Valid() && state == Start(limit, isEnabled) && calls == [] && this.limit == limit
    {
      this.limit := limit;
      activeExecutions, capacity, queue, this.isEnabled := map[], limit, [], isEnabled;
      calls, state := [], Start(limit, isEnabled);
    }

    // ---------- writing one execution, or one entry ----------

    method Put(e: Execution, call: Call)
      requires Valid() && Owns(e)
      requires call.id == e.id && call.mode == e.mode && call.resumes == e.resumes
      modifies this`state, e
      ensures Valid()
      ensures e.View() == call
      ensures state == SetCall(old(state), e.serial, call)
    {
      e.stage, e.acquired, e.status, e.promise, e.cleaned :=
        call.stage, call.acquired, call.status, call.promise, call.cleaned;
      state := SetCall(state, e.serial, call);
    }

    method Enter(e: Execution)
      requires Valid() && Owns(e)
      modifies this`state, this`activeExecutions
      ensures Valid()
      ensures activeExecutions == old(activeExecutions)[e.id := e]
      ensures state == old(state).(active := old(state).active[e.id := e.serial])
    {
      activeExecutions := activeExecutions[e.id := e];
      state := state.(active := state.active[e.id := e.serial]);
    }

    method Forget(id: Id)
      requires Valid()
      modifies this`state, this`activeExecutions
      ensures Valid()
      ensures activeExecutions == old(activeExecutions) - {id}
      ensures state == Drop(old(state), id)
    {
      activeExecutions := activeExecutions - {id};
      state := Drop(state, id);
    }

    // ---------- capacity ----------

    method Begin(id: Id, mode: Mode, resumes: bool) returns (e: Execution)
      requires Valid()
      modifies this
      ensures Valid() && fresh(e) && calls == old(calls) + [e]
      ensures state == Executions.Begin(old(state), id, mode, resumes)
    {
      e := Track(id, mode, resumes);
      if mode == Limited && isEnabled {
        capacity := capacity - 1;
        state := state.(capacity := state.capacity - 1);
        if capacity < 0 {
          Enqueue(e);
        }
      }
    }

    method Enqueue(e: Execution)
      requires Valid() && Owns(e)
      modifies this`queue, this`state, e
      ensures Valid()
      ensures state == SetCall(old(state), e.serial, old(e.View()).(stage := Throttled, acquired := false))
                       .(queue := old(state).queue + [e.serial])
    {
      Put(e, e.View().(stage := Throttled, acquired := false));
      queue := queue + [e];
      state := state.(queue := state.queue + [e.serial]);
    }

    method Track(id: Id, mode: Mode, resumes: bool) returns (e: Execution)
      requires Valid()
      modifies this`calls, this`state
      ensures Valid() && fresh(e) && calls == old(calls) + [e] && e.serial == |old(calls)|
      ensures e.id == id && e.mode == mode && e.resumes == resumes
      ensures state == old(state).(calls := old(state).calls
                + [Call(id, mode, resumes, Writing, mode != Evaluation, New, Open, false)])
    {
      e := new Execution(id, mode, resumes, |calls|);
      calls := calls + [e];
      state := state.(calls := state.calls + [e.View()]);
    }

    method ResolveNext()
      requires Valid()
      modifies this, calls
      ensures Valid() && calls == old(calls) && activeExecutions == old(activeExecutions)
      ensures state == Executions.ResolveNext(old(state))
    {
      if |queue| > 0 {
        var next := queue[0];
        queue := queue[1..];
        state := state.(queue := state.queue[1..]);
        Put(next, next.View().(stage := Writing, acquired := true));
      }
    }

    method Release(e: Execution)
      requires Valid() && Owns(e)
      modifies this, calls
      ensures Valid() && calls == old(calls) && activeExecutions == old(activeExecutions)
      ensures state == Executions.Release(old(state), e.serial)
    {
      if !e.acquired {
        return;
      }
      Put(e, e.View().(acquired := false));
      if e.mode == Limited && isEnabled {
        capacity := capacity + 1;
        state := state.(capacity := state.capacity + 1);
        ResolveNext();
      }
    }

    method RemoveQueued(id: Id)
      requires Valid()
      modifies this, calls
      ensures Valid() && calls == old(calls)
      ensures state == Executions.RemoveQueued(old(state), id)
    {
      if !isEnabled {
        return;
      }
      var i := FindIndex(id);
      if i < |queue| {
        TakeOut(i);
        ResolveNext();
      }
    }

    method FindIndex(id: Id) returns (i: nat)
      requires Valid()
      ensures i <= |queue| && i == IndexOf(state, id, 0)
    {
      i := 0;
      while i < |queue| && queue[i].id != id
        invariant i <= |queue|
        invariant IndexOf(state, id, i) == IndexOf(state, id, 0)
      {
        i := i + 1;
      }
    }

    method TakeOut(i: nat)
      requires Valid() && i < |queue|
      modifies this`queue, this`capacity, this`state
      ensures Valid()
      ensures state == old(state).(queue := old(state).queue[..i] + old(state).queue[i + 1..],
                                   capacity := old(state).capacity + 1)
    {
      queue := queue[..i] + queue[i + 1..];
      capacity := capacity + 1;
      state := state.(queue := state.queue[..i] + state.queue[i + 1..], capacity := state.capacity + 1);
    }

    // ---------- registration ----------

    method WriteSucceeds(e: Execution)
      requires Valid() && Owns(e) && e.stage == Writing
      modifies this`state, e
      ensures Valid()
      ensures state == Executions.WriteSucceeds(old(state), e.serial)
    {
      Put(e, e.View().(stage := Won));
    }

    /** `add` throws: a database error, or another process is already resuming. */
    method WriteFails(e: Execution)
      requires Valid() && Owns(e) && e.stage == Writing
      modifies this, calls
      ensures Valid() && calls == old(calls)
      ensures state == Executions.WriteFails(old(state), e.serial)
    {
      Put(e, e.View().(stage := Failed));
      Release(e);
    }

    method Register(e: Execution)
      requires Valid() && Owns(e) && e.stage == Won
      modifies this`state, this`activeExecutions, e
      ensures Valid()
      ensures state == Executions.Register(old(state), e.serial)
    {
      Put(e, e.View().(stage := Registered, status := Running, promise := Open));
      Enter(e);
    }

    /** Sets the status of whatever the id leads to; `found` is false where the code throws. */
    method SetStatus(id: Id, status: Status) returns (found: bool)
      requires Valid()
      modifies this`state, calls
      ensures Valid()
      ensures found == (id in activeExecutions)
      ensures state == Executions.SetStatus(old(state), id, status)
    {
      if id !in activeExecutions {
        return false;
      }
      var execution := activeExecutions[id];
      assert execution == calls[state.active[id]];
      Put(execution, execution.View().(status := status));
      return true;
    }

    method FinalizeExecution(id: Id)
      requires Valid()
      modifies this`state, calls
      ensures Valid()
      ensures state == Executions.Finalize(old(state), id)
    {
      if id in activeExecutions {
        var execution := activeExecutions[id];
        assert execution == calls[state.active[id]];
        SettlePromise(execution, Resolved);
      }
    }

    /** A promise is settled once; later attempts do nothing. */
    method SettlePromise(e: Execution, how: Promise)
      requires Valid() && Owns(e)
      modifies this`state, e
      ensures Valid()
      ensures state == Settle(old(state), e.serial, how)
    {
      if e.promise == Open {
        Put(e, e.View().(promise := how));
      }
    }

    method StopExecution(id: Id)
      requires Valid()
      modifies this`state, this`activeExecutions, calls
      ensures Valid()
      ensures state == Executions.Stop(old(state), id)
    {
      if id !in activeExecutions {
        return;
      }
      var execution := activeExecutions[id];
      assert execution == calls[state.active[id]];
      if execution.status == Waiting {
        Forget(id);
      } else {
        SettlePromise(execution, Rejected);
      }
    }

    /** The callback attached to the promise of `e`. It looks at the status of its own execution,
        but takes out whatever the id leads to. */
    method OnSettled(e: Execution)
      requires Valid() && Owns(e) && CanClean(e.View())
      modifies this, calls
      ensures Valid() && calls == old(calls)
      ensures state == Executions.Cleanup(old(state), e.serial)
    {
      var waiting := e.status == Waiting;
      Put(e, e.View().(cleaned := true));
      Release(e);
      if !waiting {
        Forget(e.id);
      }
    }

    // ---------- shutdown ----------

    /** One entry in the first pass of a shutdown. */
    method ShutDownEntry(id: Id, cancel: bool)
      requires Valid() && id in activeExecutions
      modifies this`state, this`activeExecutions, calls
      ensures Valid()
      ensures state == if cancel then Executions.Stop(old(state), id)
                       else if old(activeExecutions[id].status) in {Waiting, New} then Drop(old(state), id)
                       else old(state)
    {
      if cancel {
        StopExecution(id);
      } else if activeExecutions[id].status == Waiting || activeExecutions[id].status == New {
        Forget(id);
      }
    }

    method Disable()
      requires Valid()
      modifies this`state, this`isEnabled
      ensures Valid() && !isEnabled
      ensures state == old(state).(enabled := false)
    {
      isEnabled := false;
      state := state.(enabled := false);
    }

    method StopOne(ghost was: Process, ghost todo: set<Id>, id: Id)
      requires Valid() && Sound(state, limit) && WellFormed(was) && CancelledExcept(was, state, todo)
      requires id in todo && todo <= activeExecutions.Keys
      modifies this`state, this`activeExecutions, calls
      ensures Valid() && Sound(state, limit) && CancelledExcept(was, state, todo - {id})
      ensures todo - {id} <= activeExecutions.Keys
    {
      CancelOne(was, state, todo, id);
      StepKeepsSound(state, DoStop(id), limit);
      ShutDownEntry(id, true);
    }

    /** Stops the given executions one after the other, in any order. */
    method StopEach(ghost was: Process, todo: set<Id>)
      requires Valid() && Sound(state, limit) && WellFormed(was)
      requires CancelledExcept(was, state, todo) && todo <= activeExecutions.Keys
      modifies this`state, this`activeExecutions, calls
      ensures Valid() && Sound(state, limit) && CancelledExcept(was, state, {})
    {
      var ids := todo;
      while ids != {}
        invariant Valid() && Sound(state, limit)
        invariant CancelledExcept(was, state, ids) && ids <= activeExecutions.Keys
        decreases ids
      {
        var id :| id in ids;
        StopOne(was, ids, id);
        ids := ids - {id};
      }
    }

    /** The first pass of a cancelling shutdown in regular mode. */
    method CancelAll()
      requires Valid() && Sound(state, limit) && KeptWaiting(state)
      modifies this`state, this`activeExecutions, this`isEnabled, calls
      ensures Valid() && Sound(state, limit) && !isEnabled
      ensures CancelledExcept(old(state), state, {}) && Draining(state)
    {
      StepKeepsSound(state, DoDisable, limit);
      Disable();
      ghost var was := state;
      StopEach(was, activeExecutions.Keys);
      CancelledDrains(was, state);
    }

    /** Some pending clean-up runs, whichever it is. */
    method RunSomeCleanup()
      requires Valid() && Sound(state, limit) && Draining(state) && activeExecutions != map[]
      modifies this, calls
      ensures Valid() && calls == old(calls) && Sound(state, limit) && Draining(state)
      ensures PendingCleanups(state) < old(PendingCleanups(state))
    {
      SomethingIsPending();
      var e :| e in calls && CanClean(e.View());
      assert e.serial in PendingCleanups(state);
      CleanupDrains(state, e.serial, limit);
      StepKeepsSound(state, DoCleanup(e.serial), limit);
      OnSettled(e);
    }

    /** Waiting for the map to become empty. Between two looks at it a pending clean-up runs;
        nothing is added and no execution reports `waiting` any more. */
    method AwaitEmpty()
      requires Valid() && Sound(state, limit) && Draining(state)
      modifies this, calls
      ensures Valid() && Sound(state, limit)
      ensures activeExecutions == map[]
    {
      while activeExecutions != map[]
        invariant Valid() && Sound(state, limit) && Draining(state) && calls == old(calls)
        decreases PendingCleanups(state)
      {
        RunSomeCleanup();
      }
    }

    /** A cancelling shutdown in regular mode ends, with nothing left in the map. */
    method ShutDown()
      requires Valid() && Sound(state, limit) && KeptWaiting(state)
      modifies this, calls
      ensures Valid() && Sound(state, limit)
      ensures activeExecutions == map[]
    {
      CancelAll();
      AwaitEmpty();
    }

    lemma SomethingIsPending()
      requires Valid() && Draining(state) && activeExecutions != map[]
      ensures exists e :: e in calls && CanClean(e.View())
    {
      var id :| id in activeExecutions;
      assert calls[state.active[id]] in calls && CanClean(calls[state.active[id]].View());
    }
  }
}
