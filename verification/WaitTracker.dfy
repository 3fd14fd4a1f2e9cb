/** Resuming the parents of finished executions, and the timers of waiting ones. */
module WaitTracker {
  import opened Powers
  import opened Wrappers

  type Id = string

  // ---------- retrying an operation ----------

  datatype Attempt = Returned | Threw(error: string, retryable: bool)

  const MAX_PARENT_RESUME_ATTEMPTS: int := 3

  /** No further attempt follows attempt `n`. */
  predicate LastAttempt(outcome: nat -> Attempt, maxAttempts: int, n: nat) {
    outcome(n).Returned? || !outcome(n).retryable || n >= maxAttempts
  }

  predicate Repeats(outcome: nat -> Attempt, n: nat) {
    outcome(n).Threw? && outcome(n).retryable
  }

  /** Some attempt within the limit returns, and all attempts before it may be retried. */
  ghost predicate ReturnsAt(outcome: nat -> Attempt, maxAttempts: int, n: nat) {
    && 1 <= n && (n == 1 || n <= maxAttempts) && outcome(n).Returned?
    && forall m: nat :: 1 <= m < n ==> Repeats(outcome, m)
  }

  /** The operation is run on attempts 1, 2, ...; `outcome` says what each does. The method
      reports the outcome of the last attempt, which is what the program returns or rethrows. */
  method WithRetry(outcome: nat -> Attempt, maxAttempts: int)
    returns (result: Attempt, attempts: nat, slept: nat)
    ensures attempts >= 1 && result == outcome(attempts)
    ensures LastAttempt(outcome, maxAttempts, attempts)
    ensures forall n :: 1 <= n < attempts ==> !LastAttempt(outcome, maxAttempts, n)
    ensures slept == 100 * (Pow2(attempts - 1) - 1)
    ensures attempts == 1 || attempts <= maxAttempts
    ensures result.Returned? <==> ReturnsAt(outcome, maxAttempts, attempts)
  {
    attempts, slept := 1, 0;
    while true
      invariant attempts >= 1 && slept == 100 * (Pow2(attempts - 1) - 1)
      invariant attempts == 1 || attempts <= maxAttempts
      invariant forall n :: 1 <= n < attempts ==> !LastAttempt(outcome, maxAttempts, n)
      decreases maxAttempts - attempts
    {
      result := outcome(attempts);
      if result.Returned? {
        assert forall n: nat :: 1 <= n < attempts && !LastAttempt(outcome, maxAttempts, n) ==> Repeats(outcome, n);
        return;
      }
      if attempts >= maxAttempts || !result.retryable {
        return;
      }
      slept := slept + 100 * Pow2(attempts - 1);
      attempts := attempts + 1;
    }
  }

  /** However its attempts go, a step of a parent resume pauses for at most 300 milliseconds. */
  lemma ResumeStepIsShort(outcome: nat -> Attempt, attempts: nat)
    requires attempts >= 1 && forall n :: 1 <= n < attempts ==> !LastAttempt(outcome, MAX_PARENT_RESUME_ATTEMPTS, n)
    ensures attempts <= MAX_PARENT_RESUME_ATTEMPTS && 100 * (Pow2(attempts - 1) - 1) <= 300
  {
    if attempts > MAX_PARENT_RESUME_ATTEMPTS {
      assert LastAttempt(outcome, MAX_PARENT_RESUME_ATTEMPTS, MAX_PARENT_RESUME_ATTEMPTS);
    }
    PowersGrow(attempts - 1, 2);
    assert Pow2(2) == 2 * Pow2(1) && Pow2(1) == 2 * Pow2(0);
  }

  /** At most one attempt can be the one that returns. */
  lemma ReturnsOnce(outcome: nat -> Attempt, maxAttempts: int, m: nat, n: nat)
    requires ReturnsAt(outcome, maxAttempts, m) && ReturnsAt(outcome, maxAttempts, n)
    ensures m == n
  {
    assert m < n ==> Repeats(outcome, m);
    assert n < m ==> Repeats(outcome, n);
  }

  // ---------- from a finished execution to its parent ----------

  /** The stored link to the parent; links from before the flag was introduced have none. */
  datatype Related = Related(executionId: Id, shouldResume: Option<bool>)

  predicate ShouldRestartParent(parent: Option<Related>) {
    match parent
    case None => false
    case Some(related) => related.shouldResume.GetOr(true)
  }

  /** What one attempt to start the waiting parent does. */
  datatype StartAttempt = Started | AlreadyResuming | StartThrew(error: string, retryable: bool)

  datatype Ending = NoResult | WaitsAgain | Finished

  /** One level of a nesting of waiting executions: its link upwards; how it ends once it runs;
      how the attempts to update the parent go; how the attempts to start it go. */
  datatype Level = Level(parent: Option<Related>, ending: Ending,
                         update: nat -> Attempt, start: nat -> StartAttempt)

  function AsAttempt(s: StartAttempt): Attempt {
    match s
    case StartThrew(error, retryable) => Threw(error, retryable)
    case _ => Returned
  }

  function StartOutcome(level: Level): nat -> Attempt {
    (n: nat) => AsAttempt(level.start(n))
  }

  /** The resume of the parent is scheduled at all. */
  ghost predicate Completes(child: Level) {
    child.ending == Finished && ShouldRestartParent(child.parent)
  }

  /** This very resume, and not one by another process, gets the execution running. */
  ghost predicate StartsHere(level: Level) {
    exists n: nat :: ReturnsAt(StartOutcome(level), MAX_PARENT_RESUME_ATTEMPTS, n) && level.start(n).Started?
  }

  /** The update of the parent returns, which it also does when there is nothing to write. */
  ghost predicate UpdateReturns(level: Level) {
    exists n: nat :: ReturnsAt(level.update, MAX_PARENT_RESUME_ATTEMPTS, n)
  }

  /** The completion of `child` gets `parent` running. */
  ghost predicate Climbs(child: Level, parent: Level) {
    Completes(child) && UpdateReturns(child) && StartsHere(parent)
  }

  /** `levels` is the nesting from level `i` upwards, level `i` having been started. Returns the
      levels started from there, in order. */
  method ResumeParentExecution(levels: seq<Level>, i: nat) returns (resumed: seq<nat>)
    requires i < |levels|
    ensures forall k :: 0 <= k < |resumed| ==> resumed[k] == i + 1 + k
    ensures i + |resumed| < |levels|
    ensures forall k :: i <= k < i + |resumed| ==> Climbs(levels[k], levels[k + 1])
    ensures i + |resumed| + 1 < |levels| ==> !Climbs(levels[i + |resumed|], levels[i + |resumed| + 1])
    ensures forall k :: i <= k < i + |resumed| ==>
              levels[k].parent.Some? && levels[k].parent.value.shouldResume != Some(false)
    decreases |levels| - i
  {
    resumed := [];
    var child := levels[i];
    if i + 1 == |levels| || !ShouldRestartParent(child.parent) {
      return;
    }
    if child.ending == NoResult {
      return;
    }
    if child.ending == WaitsAgain {
      return;
    }
    var updated, updateAttempts, _ := WithRetry(child.update, MAX_PARENT_RESUME_ATTEMPTS);
    if updated.Threw? {
      NeverReturns(child.update, updateAttempts);
      return;
    }
    var parent := levels[i + 1];
    var started, startAttempts, _ := WithRetry(StartOutcome(parent), MAX_PARENT_RESUME_ATTEMPTS);
    if started.Threw? {
      NeverReturns(StartOutcome(parent), startAttempts);
      return;
    }
    if parent.start(startAttempts).AlreadyResuming? {
      NotStartedHere(parent, startAttempts);
      return;
    }
    var above := ResumeParentExecution(levels, i + 1);
    resumed := [i + 1] + above;
  }

  lemma NeverReturns(outcome: nat -> Attempt, n: nat)
    requires n >= 1 && outcome(n).Threw? && LastAttempt(outcome, MAX_PARENT_RESUME_ATTEMPTS, n)
    requires forall m :: 1 <= m < n ==> !LastAttempt(outcome, MAX_PARENT_RESUME_ATTEMPTS, m)
    ensures forall m: nat :: !ReturnsAt(outcome, MAX_PARENT_RESUME_ATTEMPTS, m)
  {
    forall m: nat
      ensures !ReturnsAt(outcome, MAX_PARENT_RESUME_ATTEMPTS, m)
    {
      assert 1 <= m < n ==> !LastAttempt(outcome, MAX_PARENT_RESUME_ATTEMPTS, m);
      var again := Repeats(outcome, n);
    }
  }

  lemma NotStartedHere(level: Level, n: nat)
    requires ReturnsAt(StartOutcome(level), MAX_PARENT_RESUME_ATTEMPTS, n) && !level.start(n).Started?
    ensures !StartsHere(level)
  {
    forall m: nat | ReturnsAt(StartOutcome(level), MAX_PARENT_RESUME_ATTEMPTS, m)
      ensures m == n
    {
      ReturnsOnce(StartOutcome(level), MAX_PARENT_RESUME_ATTEMPTS, m, n);
    }
  }

  /** Level `j` of a nesting gets resumed exactly when every level below it climbs. */
  lemma ResumedExactlyWhenAllBelowClimb(levels: seq<Level>, resumed: seq<nat>, j: nat)
    requires 0 < j < |levels| && |resumed| < |levels|
    requires forall k :: 0 <= k < |resumed| ==> resumed[k] == k + 1
    requires forall k :: 0 <= k < |resumed| ==> Climbs(levels[k], levels[k + 1])
    requires |resumed| + 1 < |levels| ==> !Climbs(levels[|resumed|], levels[|resumed| + 1])
    ensures j in resumed <==> forall k :: 0 <= k < j ==> Climbs(levels[k], levels[k + 1])
  {
    if j <= |resumed| {
      assert resumed[j - 1] == j;
    } else {
      assert !Climbs(levels[|resumed|], levels[|resumed| + 1]);
    }
  }

  /** One of the first three attempts returns, and those before it may be retried. */
  ghost predicate UpdatedInTime(update: nat -> Attempt) {
    exists n: nat :: 1 <= n <= 3 && update(n) == Returned
      && forall m: nat :: 1 <= m < n ==> update(m).Threw? && update(m).retryable
  }

  /** One of the first three attempts starts it; those before it threw and may be retried. */
  ghost predicate StartedInTime(start: nat -> StartAttempt) {
    exists n: nat :: 1 <= n <= 3 && start(n) == Started
      && forall m: nat :: 1 <= m < n ==> start(m).StartThrew? && start(m).retryable
  }

  /** A finished child gets its parent running exactly when its stored link does not say no, which a
      link without the flag does not either, and one of three attempts at each step goes through. */
  lemma ClimbsExactlyWhen(child: Level, parent: Level)
    ensures Climbs(child, parent) <==>
            && child.parent.Some? && child.parent.value.shouldResume != Some(false)
            && child.ending == Finished
            && UpdatedInTime(child.update) && StartedInTime(parent.start)
  {
    ReturnsInTime(child.update);
    StartsInTime(parent);
  }

  lemma ReturnsInTime(update: nat -> Attempt)
    ensures UpdatedInTime(update) <==> exists n: nat :: ReturnsAt(update, MAX_PARENT_RESUME_ATTEMPTS, n)
  {
    if n: nat :| ReturnsAt(update, MAX_PARENT_RESUME_ATTEMPTS, n) {
      forall m: nat | 1 <= m < n ensures update(m).Threw? && update(m).retryable {
        assert Repeats(update, m);
      }
      assert update(n) == Returned;
    }
    if UpdatedInTime(update) {
      var n: nat :| 1 <= n <= 3 && update(n) == Returned
        && forall m: nat :: 1 <= m < n ==> update(m).Threw? && update(m).retryable;
      forall m: nat | 1 <= m < n ensures Repeats(update, m) {
        assert update(m).Threw?;
      }
      assert ReturnsAt(update, MAX_PARENT_RESUME_ATTEMPTS, n);
    }
  }

  lemma StartsInTime(level: Level)
    ensures StartedInTime(level.start) <==> StartsHere(level)
  {
    var outcome := StartOutcome(level);
    if n: nat :| ReturnsAt(outcome, MAX_PARENT_RESUME_ATTEMPTS, n) && level.start(n).Started? {
      forall m: nat | 1 <= m < n ensures level.start(m).StartThrew? && level.start(m).retryable {
        assert Repeats(outcome, m);
      }
      assert level.start(n) == Started;
    }
    if StartedInTime(level.start) {
      var n: nat :| 1 <= n <= 3 && level.start(n) == Started
        && forall m: nat :: 1 <= m < n ==> level.start(m).StartThrew? && level.start(m).retryable;
      forall m: nat | 1 <= m < n ensures Repeats(outcome, m) {
        assert level.start(m).StartThrew?;
      }
      assert ReturnsAt(outcome, MAX_PARENT_RESUME_ATTEMPTS, n);
    }
  }

  /** Nothing above a level without a link, or with one that says no, is resumed. */
  lemma ClosedLinkStopsTheClimb(levels: seq<Level>, resumed: seq<nat>, k: nat)
    requires k < |levels| && |resumed| < |levels|
    requires forall m :: 0 <= m < |resumed| ==> resumed[m] == m + 1
    requires forall m :: 0 <= m < |resumed| ==> Climbs(levels[m], levels[m + 1])
    requires levels[k].parent.None? || levels[k].parent.value.shouldResume == Some(false)
    ensures forall j :: j in resumed ==> j <= k
  {
    if k < |resumed| {
      ClimbsExactlyWhen(levels[k], levels[k + 1]);
    }
  }

  // ---------- timers ----------

  /** `tracked` maps an execution id to its timer; `live` maps a pending timer to the execution it
      will start. The two are not the same: clearing a timer does not always forget its id. `polls`
      says that polling has ever been started; it is not unset when it stops. */
  datatype Timers = Timers(tracked: map<Id, nat>, live: map<nat, Id>, next: nat, polls: bool)

  ghost predicate ProperTimers(t: Timers) {
    && (forall id :: id in t.tracked ==> t.tracked[id] < t.next)
    && (forall n :: n in t.live ==> n < t.next)
  }

  ghost function Armed(t: Timers, id: Id): Timers {
    t.(tracked := t.tracked[id := t.next], live := t.live[t.next := id], next := t.next + 1)
  }

  ghost function Poll(t: Timers, found: seq<Id>): Timers
    decreases |found|
  {
    if found == [] then t
    else if found[0] in t.tracked then Poll(t, found[1..])
    else Poll(Armed(t, found[0]), found[1..])
  }

  /** Stopping a waiting execution: its timer is cleared and its id forgotten. */
  ghost function Forget(t: Timers, id: Id): Timers {
    if id in t.tracked then t.(tracked := t.tracked - {id}, live := t.live - {t.tracked[id]}) else t
  }

  /** Starting one: the id is forgotten, a pending timer stays. */
  ghost function Start(t: Timers, id: Id): Timers {
    t.(tracked := t.tracked - {id})
  }

  /** Losing the leadership: all known timers are cleared, the ids stay. */
  ghost function StepDown(t: Timers): Timers {
    if t.polls then t.(live := t.live - t.tracked.Values) else t
  }

  /** Gaining it: polling starts, and the first poll is made at once. */
  ghost function TakeOver(t: Timers, found: seq<Id>): Timers {
    Poll(t.(polls := true), found)
  }

  predicate HasTimer(t: Timers, id: Id) {
    exists n :: n in t.live && t.live[n] == id
  }

  lemma {:induction false} PollArmsUntracked(t: Timers, found: seq<Id>, id: Id)
    requires ProperTimers(t)
    ensures ProperTimers(Poll(t, found))
    ensures HasTimer(Poll(t, found), id) <==> HasTimer(t, id) || (id in found && id !in t.tracked)
    decreases |found|
  {
    if found != [] {
      if found[0] in t.tracked {
        PollArmsUntracked(t, found[1..], id);
      } else {
        var u := Armed(t, found[0]);
        assert HasTimer(t, id) ==> HasTimer(u, id) by {
          if n :| n in t.live && t.live[n] == id {
            assert n in u.live && u.live[n] == id;
          }
        }
        assert t.next in u.live && u.live[t.next] == found[0];
        PollArmsUntracked(u, found[1..], id);
      }
    }
  }

  /** After a step-down and a new takeover, an execution that waits has a timer only if it was not
      tracked before, or a timer of it had gone untracked: what the earlier leadership tracked
      stays without one. */
  lemma RegainedLeadershipSkipsTracked(t: Timers, found: seq<Id>, id: Id)
    requires ProperTimers(t) && id in found
    ensures HasTimer(TakeOver(StepDown(t), found), id) <==>
            id !in t.tracked || exists n :: n in t.live && t.live[n] == id && !(t.polls && n in t.tracked.Values)
  {
    PollArmsUntracked(StepDown(t).(polls := true), found, id);
    assert forall n :: n in StepDown(t).live <==> n in t.live && !(t.polls && n in t.tracked.Values);
  }

  predicate HasTimerNumber(t: Timers, id: Id, n: nat) {
    n in t.live && t.live[n] == id
  }

  ghost predicate HasTwoTimers(t: Timers, id: Id) {
    exists m: nat, n: nat :: m != n && HasTimerNumber(t, id, m) && HasTimerNumber(t, id, n)
  }

  /** Starting an execution while its timer is pending, as a finished child does, and finding it
      waiting again: it then has two timers. */
  lemma StartLeavesTimer(t: Timers, id: Id, found: seq<Id>)
    requires ProperTimers(t) && id in t.tracked && t.tracked[id] in t.live && t.live[t.tracked[id]] == id
    requires found == [id]
    ensures HasTwoTimers(Poll(Start(t, id), found), id)
  {
    var u := Poll(Start(t, id), found);
    assert found[1..] == [] && Poll(Armed(Start(t, id), id), found[1..]) == Armed(Start(t, id), id);
    assert HasTimerNumber(u, id, t.tracked[id]) && HasTimerNumber(u, id, t.next);
  }

  /** A poll tracks what it finds. What was tracked keeps its timer and gets no other; what was not
      gets exactly one more, under which it is tracked. */
  lemma {:induction false} PollTracksFound(t: Timers, found: seq<Id>, id: Id)
    requires ProperTimers(t)
    ensures var u := Poll(t, found);
            && u.next >= t.next
            && (id in u.tracked <==> id in t.tracked || id in found)
            && (forall m :: HasTimerNumber(t, id, m) ==> HasTimerNumber(u, id, m))
            && (id in t.tracked ==> u.tracked[id] == t.tracked[id])
            && (id in t.tracked || id !in found ==> forall m :: HasTimerNumber(u, id, m) ==> HasTimerNumber(t, id, m))
            && (id in found && id !in t.tracked ==>
                  && HasTimerNumber(u, id, u.tracked[id]) && u.tracked[id] >= t.next
                  && forall m :: HasTimerNumber(u, id, m) ==> m == u.tracked[id] || HasTimerNumber(t, id, m))
    decreases |found|
  {
    if found != [] {
      PollTracksFound(if found[0] in t.tracked then t else Armed(t, found[0]), found[1..], id);
    }
  }

  /** Stopping an execution that a poll found takes back what the poll did for it. */
  lemma StopUndoesPoll(t: Timers, found: seq<Id>, id: Id)
    requires ProperTimers(t) && id in found && id !in t.tracked
    ensures var u := Forget(Poll(t, found), id);
            id !in u.tracked && forall m :: HasTimerNumber(u, id, m) <==> HasTimerNumber(t, id, m)
  {
    PollTracksFound(t, found, id);
  }

  /** Starting or stopping an execution touches no timer of another one, when every tracked timer
      that is pending will start what it is tracked for. */
  lemma OthersKeepTimers(t: Timers, id: Id, other: Id)
    requires other != id
    requires id in t.tracked && t.tracked[id] in t.live ==> t.live[t.tracked[id]] == id
    ensures forall u :: u == Start(t, id) || u == Forget(t, id) ==>
              && (other in u.tracked <==> other in t.tracked)
              && (other in t.tracked ==> u.tracked[other] == t.tracked[other])
              && forall m :: HasTimerNumber(u, other, m) <==> HasTimerNumber(t, other, m)
  {
  }

  class Tracker {
    var waitingExecutions: map<Id, nat>
    var live: map<nat, Id>
    var next: nat
    var hasMainTimer: bool

    ghost function Now(): Timers
      reads this
    {
      Timers(waitingExecutions, live, next, hasMainTimer)
    }

    constructor ()
      ensures Now() == Timers(map[], map[], 0, false)
    {
      waitingExecutions, live, next, hasMainTimer := map[], map[], 0, false;
    }

    method StartTracking(found: seq<Id>)
      modifies this
      ensures Now() == TakeOver(old(Now()), found)
    {
      hasMainTimer := true;
      GetWaitingExecutions(found);
    }

    method GetWaitingExecutions(found: seq<Id>)
      modifies this
      ensures Now() == Poll(old(Now()), found)
    {
      var i := 0;
      while i < |found|
        invariant 0 <= i <= |found|
        invariant Poll(Now(), found[i..]) == Poll(old(Now()), found)
      {
        assert found[i..][1..] == found[i + 1..];
        if found[i] !in waitingExecutions {
          waitingExecutions := waitingExecutions[found[i] := next];
          live := live[next := found[i]];
          next := next + 1;
        }
        i := i + 1;
      }
    }

    method StopExecution(id: Id)
      modifies this
      ensures Now() == Forget(old(Now()), id)
    {
      if id !in waitingExecutions {
        return;
      }
      live := live - {waitingExecutions[id]};
      waitingExecutions := waitingExecutions - {id};
    }

    method StartExecution(id: Id)
      modifies this
      ensures Now() == Start(old(Now()), id)
    {
      waitingExecutions := waitingExecutions - {id};
    }

    method StopTracking()
      modifies this
      ensures Now() == StepDown(old(Now()))
    {
      if !hasMainTimer {
        return;
      }
      var ids := waitingExecutions.Keys;
      while ids != {}
        invariant ids <= waitingExecutions.Keys == old(waitingExecutions.Keys)
        invariant waitingExecutions == old(waitingExecutions) && next == old(next) && hasMainTimer == old(hasMainTimer)
        invariant live.Keys <= old(live.Keys) && forall n :: n in live ==> live[n] == old(live)[n]
        invariant forall n :: n in old(live) ==>
                    (n in live <==> forall id :: id in waitingExecutions && waitingExecutions[id] == n ==> id in ids)
        decreases |ids|
      {
        var id :| id in ids;
        live := live - {waitingExecutions[id]};
        ids := ids - {id};
      }
      assert forall n :: n in old(live) ==> (n in live <==> n !in waitingExecutions.Values);
      assert live == old(live) - waitingExecutions.Values;
    }
  }
}
