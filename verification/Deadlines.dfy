/** When an execution has to end: the deadline of nested sub-workflow calls, and the two time
    limits of an execution that waits and is resumed. Settings are in seconds, times in
    milliseconds. */
module Deadlines {
  import opened Wrappers

  type Time = real

  datatype Config = Config(timeout: real, maxTimeout: real)

  const MILLISECONDS_PER_SECOND: real := 1000.0

  function Min(a: real, b: real): real {
    if a <= b then a else b
  }

  function Max(a: real, b: real): real {
    if a >= b then a else b
  }

  // ---------- an execution's own deadline ----------

  /** The deadline of a workflow by its own settings; `limit` is the workflow's timeout, if it has
      one. A timeout of zero or less means none at all. */
  function WorkflowDeadline(start: Time, limit: Option<real>, config: Config): Option<Time> {
    match limit
    case Some(own) =>
      if own <= 0.0 then None
      else if config.maxTimeout > 0.0 then Some(start + Min(own, config.maxTimeout) * MILLISECONDS_PER_SECOND)
      else Some(start + own * MILLISECONDS_PER_SECOND)
    case None =>
      if config.timeout <= 0.0 then None
      else if config.maxTimeout > 0.0 then
        Some(start + Min(config.timeout, config.maxTimeout) * MILLISECONDS_PER_SECOND)
      else Some(start + config.timeout * MILLISECONDS_PER_SECOND)
  }

  /** The timeout that applies: the workflow's own one, else the default. */
  function EffectiveTimeout(limit: Option<real>, config: Config): real {
    limit.GetOr(config.timeout)
  }

  /** What the hard limit of a run is: none, already over, or a timer. */
  datatype Alarm = NoAlarm | StopNow | StopAfter(delay: real)

  /** The runner's own computation: the timeout in seconds, the soft deadline that the execution
      checks between nodes, and the timer that cancels it. */
  method RunMainProcess(limit: Option<real>, config: Config, startedAt: Option<Time>, now: Time)
    returns (soft: Option<Time>, alarm: Alarm)
    ensures soft == RunnerDeadline(now, limit, config)
    ensures alarm == if Budget(limit, config) <= 0.0 then NoAlarm else AlarmFor(Budget(limit, config), startedAt, now)
  {
    var workflowTimeout := EffectiveTimeout(limit, config);
    if workflowTimeout > 0.0 {
      workflowTimeout := Min(workflowTimeout, config.maxTimeout);
    }
    soft := if workflowTimeout <= 0.0 then None else Some(now + workflowTimeout * MILLISECONDS_PER_SECOND);
    alarm := NoAlarm;
    if workflowTimeout > 0.0 {
      var timeout := Min(workflowTimeout, config.maxTimeout) * MILLISECONDS_PER_SECOND;
      if startedAt.Some? {
        timeout := Max(timeout - (now - startedAt.value), 0.0);
      }
      alarm := if timeout == 0.0 then StopNow else StopAfter(timeout);
    }
  }

  /** The time budget of an execution as the runner computes it, in milliseconds; zero or less
      means that it has none. */
  function Budget(limit: Option<real>, config: Config): real {
    var effective := EffectiveTimeout(limit, config);
    (if effective > 0.0 then Min(effective, config.maxTimeout) else effective) * MILLISECONDS_PER_SECOND
  }

  function RunnerDeadline(now: Time, limit: Option<real>, config: Config): Option<Time> {
    if Budget(limit, config) <= 0.0 then None else Some(now + Budget(limit, config))
  }

  function AlarmFor(budget: real, startedAt: Option<Time>, now: Time): Alarm {
    var left := if startedAt.Some? then Max(budget - (now - startedAt.value), 0.0) else budget;
    if left == 0.0 then StopNow else StopAfter(left)
  }

  /** The two computations of a deadline give the same result exactly when a maximum is configured
      or the timeout is switched off: without a maximum the runner sets no deadline at all, where
      the other sets the full timeout. */
  lemma ComputationsAgreeExactlyWhen(start: Time, limit: Option<real>, config: Config)
    ensures WorkflowDeadline(start, limit, config) == RunnerDeadline(start, limit, config)
            <==> config.maxTimeout > 0.0 || EffectiveTimeout(limit, config) <= 0.0
  {
    var effective := EffectiveTimeout(limit, config);
    assert WorkflowDeadline(start, limit, config).Some? <==> effective > 0.0;
    if effective > 0.0 {
      assert Budget(limit, config) == Min(effective, config.maxTimeout) * MILLISECONDS_PER_SECOND;
    }
  }

  /** The timeout in force, in seconds: the workflow's own one if it has one, else the default, and
      not more than a maximum above zero. */
  function TimeoutInForce(limit: Option<real>, config: Config): real {
    var timeout := if limit.Some? then limit.value else config.timeout;
    if config.maxTimeout > 0.0 && timeout > config.maxTimeout then config.maxTimeout else timeout
  }

  /** A deadline is a thousand milliseconds per second of the timeout in force after the start, and
      there is none exactly when that is zero or less; the runner sets none either where no maximum above
      zero is configured. */
  lemma DeadlineIsTimeoutInForce(start: Time, limit: Option<real>, config: Config)
    ensures WorkflowDeadline(start, limit, config)
         == if TimeoutInForce(limit, config) > 0.0 then Some(start + TimeoutInForce(limit, config) * 1000.0) else None
    ensures RunnerDeadline(start, limit, config)
         == if TimeoutInForce(limit, config) > 0.0 && config.maxTimeout > 0.0
            then Some(start + TimeoutInForce(limit, config) * 1000.0) else None
    ensures Budget(limit, config) > 0.0 ==> Budget(limit, config) == TimeoutInForce(limit, config) * 1000.0
  {
  }

  // ---------- nested sub-workflow calls ----------

  /** The deadline a called sub-workflow gets. */
  function SubworkflowDeadline(own: Option<Time>, caller: Option<Time>, detached: bool): Option<Time> {
    if detached then own
    else if caller.Some? && own.Some? then Some(Min(caller.value, own.value))
    else if caller.Some? then caller
    else own
  }

  /** An execution on the way from the root down: when it starts, its settings, whether its caller
      goes on without it, and whether the runner started it, as it does with a root. */
  datatype Nested = Nested(start: Time, limit: Option<real>, detached: bool, byRunner: bool)

  function Own(call: Nested, config: Config): Option<Time> {
    if call.byRunner then RunnerDeadline(call.start, call.limit, config)
    else WorkflowDeadline(call.start, call.limit, config)
  }

  /** The deadline of the last call of a path; the first element is the root. */
  function DeadlineAlong(path: seq<Nested>, config: Config): Option<Time> {
    if path == [] then None
    else
      var n := |path| - 1;
      SubworkflowDeadline(Own(path[n], config), DeadlineAlong(path[..n], config), path[n].detached)
  }

  /** The nearest ancestor, or the call itself, that nobody waits for; else the root. */
  function NearestDetached(path: seq<Nested>): (n: nat)
    requires path != []
    ensures n < |path|
    ensures n == 0 || path[n].detached
    ensures forall i :: n < i < |path| ==> !path[i].detached
  {
    var n := |path| - 1;
    if n == 0 || path[n].detached then n else NearestDetached(path[..n])
  }

  /** `a` leaves no more time than `b`. */
  predicate NotLater(a: Option<Time>, b: Option<Time>) {
    b.Some? ==> a.Some? && a.value <= b.value
  }

  /** The deadline of a call, anywhere in any tree of calls, is the smallest own deadline between
      the nearest detached ancestor and the call: it is at most each of them, and one of them. */
  lemma {:induction false} DeadlineIsMinimum(path: seq<Nested>, config: Config)
    requires path != []
    ensures var deadline := DeadlineAlong(path, config);
            && (forall i :: NearestDetached(path) <= i < |path| ==> NotLater(deadline, Own(path[i], config)))
            && (deadline.Some? ==> exists i :: NearestDetached(path) <= i < |path| && Own(path[i], config) == deadline)
    decreases |path|
  {
    var n := |path| - 1;
    if n > 0 && !path[n].detached {
      DeadlineIsMinimum(path[..n], config);
      var upper := DeadlineAlong(path[..n], config);
      assert forall i :: 0 <= i < n ==> path[..n][i] == path[i];
      if DeadlineAlong(path, config).Some? {
        if Own(path[n], config) != DeadlineAlong(path, config) {
          var i :| NearestDetached(path[..n]) <= i < n && Own(path[..n][i], config) == upper;
          assert Own(path[i], config) == DeadlineAlong(path, config);
        }
      }
    } else {
      assert DeadlineAlong(path, config) == Own(path[n], config);
    }
  }

  /** A call that is waited for, directly or through others, never has more time than the call
      that waits. */
  lemma {:induction false} NeverLaterThanWaiter(path: seq<Nested>, config: Config, k: nat)
    requires 0 < k <= |path| && forall i :: k <= i < |path| ==> !path[i].detached
    ensures NotLater(DeadlineAlong(path, config), DeadlineAlong(path[..k], config))
    decreases |path|
  {
    if k < |path| {
      var n := |path| - 1;
      NeverLaterThanWaiter(path[..n], config, k);
      assert path[..n][..k] == path[..k];
    } else {
      assert path[..k] == path;
    }
  }

  // ---------- waiting and resuming ----------

  /** When the hard limit of a run that starts at `now` strikes. */
  function StrikesAt(alarm: Alarm, now: Time): Time
    requires !alarm.NoAlarm?
  {
    match alarm
    case StopNow => now
    case StopAfter(delay) => now + delay
  }

  /** On every resume the cancellation is due at the same moment, or at once if that has passed. */
  lemma HardLimitIsFixed(budget: real, startedAt: Time, now: Time)
    requires budget > 0.0
    ensures StrikesAt(AlarmFor(budget, Some(startedAt), now), now)
         == if startedAt + budget >= now then startedAt + budget else now
    ensures StrikesAt(AlarmFor(budget, None, startedAt), startedAt) == startedAt + budget
  {
  }

  /** The soft deadline starts anew with every resume: it is later than the hard limit by the time
      since the start, up to the whole budget. */
  lemma SoftDeadlineLags(budget: real, startedAt: Time, now: Time)
    requires budget > 0.0 && startedAt <= now
    ensures now + budget - StrikesAt(AlarmFor(budget, Some(startedAt), now), now)
         == if now - startedAt <= budget then now - startedAt else budget
  {
    HardLimitIsFixed(budget, startedAt, now);
  }

  /** A stretch of running, from a start or resume to the next wait, the end or the cancellation. */
  datatype Stretch = Stretch(from: Time, to: Time)

  /** The stretches of one execution, in order, each ended by its hard limit at the latest. */
  ghost predicate Lived(stretches: seq<Stretch>, budget: real, startedAt: Time)
    requires budget > 0.0
  {
    && (forall i :: 0 <= i < |stretches| ==>
          stretches[i].from <= stretches[i].to
          <= StrikesAt(AlarmFor(budget, Some(startedAt), stretches[i].from), stretches[i].from))
    && (forall i :: 0 <= i < |stretches| ==>
          startedAt <= stretches[i].from && (i > 0 ==> stretches[i - 1].to <= stretches[i].from))
  }

  function RunningTime(stretches: seq<Stretch>): real {
    if stretches == [] then 0.0
    else RunningTime(stretches[..|stretches| - 1]) + (stretches[|stretches| - 1].to - stretches[|stretches| - 1].from)
  }

  /** However often an execution waits and is resumed, it runs for no longer than its budget, and
      not at all once the budget has passed since its start. */
  lemma {:induction false} WaitingNeverExtendsBudget(stretches: seq<Stretch>, budget: real, startedAt: Time)
    requires budget > 0.0 && Lived(stretches, budget, startedAt)
    ensures RunningTime(stretches) <= budget
    ensures stretches != [] ==>
              RunningTime(stretches) <= Min(stretches[|stretches| - 1].to, startedAt + budget) - startedAt
    ensures forall i :: 0 <= i < |stretches| && stretches[i].from >= startedAt + budget ==>
              stretches[i].to == stretches[i].from
  {
    forall i | 0 <= i < |stretches|
      ensures stretches[i].to <= Max(startedAt + budget, stretches[i].from)
    {
      HardLimitIsFixed(budget, startedAt, stretches[i].from);
    }
    if stretches != [] {
      var n := |stretches| - 1;
      WaitingNeverExtendsBudget(stretches[..n], budget, startedAt);
    }
  }
}
