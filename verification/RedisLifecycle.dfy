// Without faults the Redis queue runs every task through the life of TaskLife; and two runs
// that show why exclusive ownership needs its conditions.
module RedisLifecycle {
  import opened Text
  import opened TaskLife
  import opened RedisProtocol
  import opened RedisSafety
  import opened RedisOwnership

  // No crash, no reaping, and every command is applied and answered.
  ghost predicate FaultFree(ev: Event) {
    match ev
    case Complete(_, applied) => applied
    case Release(_, applied) => applied
    case Reschedule(_, _, applied) => applied
    case Tick(_) => true
    case Enqueue(_) => true
    case Promote(_, _) => true
    case Pop(_) => true
    case Claim(_, _) => true
    case Handle(_) => true
    case Raise(_) => true
    case _ => false
  }

  ghost predicate FaultFreeRun(trace: seq<Event>) {
    forall i :: 0 <= i < |trace| ==> FaultFree(trace[i])
  }

  ghost function LifeOf(place: Place): Life {
    match place
    case AtPending(t) => Waiting(t.attempts, t.maxAttempts)
    case AtHand(_, t) => Waiting(t.attempts, t.maxAttempts)
    case AtRunning(_, t) => Active(t.attempts, t.maxAttempts)
    case AtOrphan(t) => Active(t.attempts, t.maxAttempts)
    case AtReschedule(_, t) => Active(t.attempts, t.maxAttempts)
    case AtRetry(t) => Delayed(t.attempts, t.maxAttempts)
    case Over(end) => if end.WasHandled? then Completed else Failed
  }

  // The successive lives of one task along a run.
  ghost function History(trace: seq<Event>, id: string): seq<Life> {
    if trace == [] then []
    else
      var before := History(trace[..|trace| - 1], id);
      if id !in Home(trace) then before
      else
        var life := LifeOf(Home(trace)[id]);
        if before != [] && before[|before| - 1] == life then before else before + [life]
  }

  lemma {:induction false} FaultFreeIsClean(trace: seq<Event>)
    requires FaultFreeRun(trace)
    ensures CleanRun(trace)
  {
    hide Enabled, Home;
    if trace != [] {
      assert FaultFree(trace[|trace| - 1]);
      FaultFreeIsClean(trace[..|trace| - 1]);
    }
  }

  // A step leaves a task's life alone or makes one move of it.
  lemma StepMoves(s: State, home: map<string, Place>, ev: Event, id: string)
    requires Enabled(s, ev) && Settled(s, home) && FaultFree(ev) && WorkersCounted(s) && id in home
    ensures var home' := HomeNext(s, home, ev);
      id in home' && (LifeOf(home'[id]) == LifeOf(home[id]) || Moves(LifeOf(home[id]), LifeOf(home'[id])))
  {
    hide Delay, Lists, Matured, Stale, ScoreOrder, PendingSits, RetrySits, RunningSits, WorkersSit, AllFound;
    if Moved(s, ev).Some? {
      MovedFrom(s, home, ev);
      if ev.Reschedule? {
        assert WorkerCounted(s, s.workers[ev.w]);
      }
    }
  }

  lemma StepStarts(s: State, home: map<string, Place>, ev: Event, id: string)
    requires Enabled(s, ev) && Settled(s, home) && id !in home && id in HomeNext(s, home, ev)
    ensures ev.Enqueue? && LifeOf(HomeNext(s, home, ev)[id]) == Waiting(0, ev.task.maxAttempts)
  {
    hide Delay, Lists, Matured, Stale, ScoreOrder, PendingSits, RetrySits, RunningSits, WorkersSit, AllFound;
    if Moved(s, ev).Some? {
      MovedFrom(s, home, ev);
    }
  }

  ghost predicate IsLife(h: seq<Life>) {
    |h| > 0 && h[0].Waiting? && Chain(h, h[0].maxAttempts)
  }

  // Every fault-free run takes every task through a chain of moves.
  lemma {:induction false} RunIsChain(trace: seq<Event>, id: string)
    requires FaultFreeRun(trace)
    ensures id !in Home(trace) ==> History(trace, id) == []
    ensures id in Home(trace) ==>
      IsLife(History(trace, id)) && History(trace, id)[|History(trace, id)| - 1] == LifeOf(Home(trace)[id])
  {
    hide Enabled, HomeNext, LifeOf, Settled, WorkersCounted;
    if trace != [] {
      var front, ev := trace[..|trace| - 1], trace[|trace| - 1];
      RunIsChain(front, id);
      FaultFreeIsClean(front);
      RunSettles(front);
      RunCounts(front);
      assert FaultFree(ev);
      if Enabled(After(front), ev) {
        if id in Home(front) {
          StepMoves(After(front), Home(front), ev, id);
        } else if id in Home(trace) {
          StepStarts(After(front), Home(front), ev, id);
        }
      }
    }
  }

  // What an end means for the handler runs.
  ghost predicate EndsRight(s: State, home: map<string, Place>) {
    forall id :: id in home ==>
      && (home[id] == Over(WasHandled) ==> id in s.succeeded)
      && (home[id] == Over(WasExhausted) ==> id in s.exhausted)
      && (home[id] == Over(WasLost) ==> id in s.lost)
  }

  lemma NextEndsRight(s: State, home: map<string, Place>, ev: Event)
    requires Enabled(s, ev) && HandledSucceeded(s) && EndsRight(s, home)
    ensures EndsRight(Next(s, ev), HomeNext(s, home, ev))
  {
    hide Delay, Lists, Matured, Stale, ScoreOrder;
  }

  lemma {:induction false} RunEndsRight(trace: seq<Event>)
    ensures EndsRight(After(trace), Home(trace))
  {
    hide Next, Enabled, HomeNext;
    if trace != [] {
      var front := trace[..|trace| - 1];
      RunEndsRight(front);
      RunAccounts(front);
      if Enabled(After(front), trace[|trace| - 1]) {
        NextEndsRight(After(front), Home(front), trace[|trace| - 1]);
      }
    }
  }

  lemma EnqueuedHasHome(trace: seq<Event>, id: string)
    requires FaultFreeRun(trace) && id in After(trace).enqueued
    ensures id in Home(trace) && Found(After(trace), id, Home(trace)[id])
  {
    hide Found, PendingSits, RetrySits, RunningSits, WorkersSit, FaultFreeRun, CleanRun, After, Home;
    FaultFreeIsClean(trace);
    RunSettles(trace);
  }

  // In a fault-free run a task's successive states form one life: it is dispatched at most
  // max(1, max_attempts) times, makes boundedly many moves, and is delayed at most
  // 10 s * (4^(max_attempts - 1) - 1) / 3 altogether.
  lemma RedisTaskIsBounded(trace: seq<Event>, id: string)
    requires FaultFreeRun(trace) && id in After(trace).enqueued
    ensures var h := History(trace, id);
      && IsLife(h)
      && |h| - 1 <= 3 * Max1(h[0].maxAttempts) - 1
      && Dispatches(h) <= Max1(h[0].maxAttempts)
      && 3 * BackOff(h) <= 10 * SECOND * (Pow4(Max1(h[0].maxAttempts) - 1) - 1)
  {
    hide History, Chain, Dispatches, BackOff, FaultFreeRun, After, Home, Pow4, Found;
    EnqueuedHasHome(trace, id);
    RunIsChain(trace, id);
    LifeIsBounded(History(trace, id), History(trace, id)[0].maxAttempts);
  }

  ghost predicate Quiet(s: State) {
    s.pending == [] && s.retry == map[] && forall w :: w in s.workers ==> s.workers[w].Idle?
  }

  // In a fault-free run no record is left in the running hash without a worker on it.
  lemma {:induction false} NoOrphans(trace: seq<Event>, id: string)
    requires FaultFreeRun(trace)
    ensures id in Home(trace) ==> !Home(trace)[id].AtOrphan? && Home(trace)[id] != Over(WasLost)
  {
    hide Next, Enabled;
    if trace != [] {
      assert FaultFree(trace[|trace| - 1]);
      NoOrphans(trace[..|trace| - 1], id);
    }
  }

  lemma QuietFindsNone(s: State, id: string, place: Place)
    requires Quiet(s) && Found(s, id, place)
    ensures place.Over? || place.AtOrphan?
  {
  }

  // When a fault-free run has come to rest, every task has been handled or has used up its attempts.
  lemma QuietMeansFinished(trace: seq<Event>, id: string)
    requires FaultFreeRun(trace) && Quiet(After(trace)) && id in After(trace).enqueued
    ensures Ended(After(trace), id)
    ensures var h := History(trace, id); IsLife(h) && Finished(h[|h| - 1])
  {
    hide History, Chain, FaultFreeRun, After, Home, Found, Quiet;
    EnqueuedHasHome(trace, id);
    QuietFindsNone(After(trace), id, Home(trace)[id]);
    RunIsChain(trace, id);
    NoOrphans(trace, id);
    RunEndsRight(trace);
  }

  // ----- the conditions of exclusive ownership are needed ------------------------------------------

  ghost predicate InTimeRun(trace: seq<Event>, stale: int) {
    trace != [] ==>
      InTimeRun(trace[..|trace| - 1], stale) && ReapsInTime(After(trace[..|trace| - 1]), trace[|trace| - 1], stale)
  }

  ghost predicate ReleasesHold(trace: seq<Event>) {
    trace != [] ==> ReleasesHold(trace[..|trace| - 1]) && ReleaseHolds(After(trace[..|trace| - 1]), trace[|trace| - 1])
  }

  lemma Extend(trace: seq<Event>, ev: Event, stale: int)
    ensures After(trace + [ev]) == Apply(After(trace), ev)
    ensures InTimeRun(trace, stale) && ReapsInTime(After(trace), ev, stale) ==> InTimeRun(trace + [ev], stale)
    ensures ReleasesHold(trace) && ReleaseHolds(After(trace), ev) ==> ReleasesHold(trace + [ev])
  {
    assert (trace + [ev])[..|trace|] == trace;
  }

  lemma ListsOne(t: Task, running: map<string, Task>, retry: map<Task, int>, cutoff: int)
    ensures running == map[t.id := t] && StaleRecord(t, cutoff) ==> Lists([t], Stale(running, cutoff))
    ensures t in retry && retry == map[t := retry[t]] && retry[t] <= cutoff ==> Lists([t], Matured(retry, cutoff))
  {
    if running == map[t.id := t] && StaleRecord(t, cutoff) {
      assert t.id in running && t in Stale(running, cutoff);
    }
  }

  const FIRST := Task("a", "webhook_alert", "{}", 0, 3, None)

  lemma Empty(stale: int)
    ensures After([]) == INITIAL && InTimeRun([], stale) && ReleasesHold([])
  {
  }

  // One task claimed at time 0 by worker 0.
  lemma Claimed0(stale: int) returns (trace: seq<Event>)
    ensures After(trace) == INITIAL.(running := map["a" := Claimed(FIRST, 0)],
                                     workers := map[0 := Busy(Claimed(FIRST, 0), Undecided)], enqueued := {"a"})
    ensures InTimeRun(trace, stale) && ReleasesHold(trace)
  {
    hide After, InTimeRun, ReleasesHold, Stale, Matured, Lists;
    trace := [];
    Empty(stale);
    Extend(trace, Enqueue(FIRST), stale);
    trace := trace + [Enqueue(FIRST)];
    assert After(trace) == INITIAL.(pending := [Entry(FIRST, New)], enqueued := {"a"});
    Extend(trace, Pop(0), stale);
    trace := trace + [Pop(0)];
    assert After(trace) == INITIAL.(workers := map[0 := InHand(FIRST, 0)], enqueued := {"a"});
    Extend(trace, Claim(0, 0), stale);
    trace := trace + [Claim(0, 0)];
  }

  // A worker that overruns `stale` without crashing is reaped, and a second worker executes the
  // same task beside it, although every command was applied.
  lemma SlowWorkerDuplicates(stale: int) returns (trace: seq<Event>)
    requires stale >= 0
    ensures ReleasesHold(trace) && Executes(After(trace), 0, "a") && Executes(After(trace), 1, "a")
  {
    hide After, InTimeRun, ReleasesHold, Stale, Matured, Lists;
    trace := Claimed0(stale);
    var t, late := Claimed(FIRST, 0), stale + 1;
    Extend(trace, Tick(late), stale);
    trace := trace + [Tick(late)];
    ListsOne(t, After(trace).running, map[], 1);
    Extend(trace, Reap([t], 1), stale);
    trace := trace + [Reap([t], 1)];
    Extend(trace, Pop(1), stale);
    assert After(trace).pending == [Entry(t, Reaped)] && After(trace).workers == map[0 := Busy(t, Undecided)];
    trace := trace + [Pop(1)];
    Extend(trace, Claim(1, late), stale);
    trace := trace + [Claim(1, late)];
  }

  // A refused HDEL in fail leaves the record behind while ZADD files a second one; both come back
  // and two workers execute the task at once, although nobody overran.
  lemma RefusedReleaseDuplicates(stale: int) returns (trace: seq<Event>)
    requires stale >= 0
    ensures InTimeRun(trace, stale) && Executes(After(trace), 0, "a") && Executes(After(trace), 1, "a")
  {
    hide After, InTimeRun, ReleasesHold, Stale, Matured, Lists;
    trace := Refused(stale);
    var t, late := Claimed(FIRST, 0), Delay(1) + stale + 1;
    Extend(trace, Tick(late), stale);
    trace := trace + [Tick(late)];
    ListsOne(t, After(trace).running, map[], Delay(1) + 1);
    Extend(trace, Reap([t], Delay(1) + 1), stale);
    trace := trace + [Reap([t], Delay(1) + 1)];
    assert After(trace).pending == [Entry(t, Reaped)];
    ListsOne(t, map[], After(trace).retry, late);
    Extend(trace, Promote([t], late), stale);
    trace := trace + [Promote([t], late)];
    assert |After(trace).pending| == 2 && After(trace).pending[0].task == After(trace).pending[1].task == t;
    trace := BothClaim(trace, stale, t);
  }

  lemma Refused(stale: int) returns (trace: seq<Event>)
    ensures After(trace) == INITIAL.(retry := map[Claimed(FIRST, 0) := Delay(1)], running := map["a" := Claimed(FIRST, 0)],
                                     workers := map[0 := Idle], enqueued := {"a"}, failures := {(Claimed(FIRST, 0), 0)})
    ensures InTimeRun(trace, stale)
  {
    hide After, InTimeRun, ReleasesHold, Stale, Matured, Lists;
    var t := Claimed(FIRST, 0);
    trace := Claimed0(stale);
    Extend(trace, Raise(0), stale);
    trace := trace + [Raise(0)];
    assert After(trace) == INITIAL.(running := map["a" := t], workers := map[0 := Busy(t, Raised)], enqueued := {"a"});
    Extend(trace, Release(0, false), stale);
    trace := trace + [Release(0, false)];
    assert After(trace) == INITIAL.(running := map["a" := t], workers := map[0 := Rescheduling(t, 0)], enqueued := {"a"});
    Extend(trace, Reschedule(0, 0, true), stale);
    trace := trace + [Reschedule(0, 0, true)];
  }

  lemma BothClaim(before: seq<Event>, stale: int, t: Task) returns (trace: seq<Event>)
    requires InTimeRun(before, stale) && After(before).workers == map[0 := Idle] && t.id == "a"
    requires var p := After(before).pending; |p| == 2 && p[0].task == p[1].task == t
    ensures InTimeRun(trace, stale) && Executes(After(trace), 0, "a") && Executes(After(trace), 1, "a")
  {
    hide After, InTimeRun, ReleasesHold, Stale, Matured, Lists;
    var s := After(before);
    Extend(before, Pop(0), stale);
    trace := before + [Pop(0)];
    assert After(trace) == s.(pending := s.pending[1..], workers := map[0 := InHand(t, s.now)]);
    Extend(trace, Pop(1), stale);
    trace := trace + [Pop(1)];
    assert After(trace) == s.(pending := s.pending[1..][1..], workers := map[0 := InHand(t, s.now), 1 := InHand(t, s.now)]);
    trace := ClaimBoth(trace, stale, t);
  }

  lemma ClaimBoth(before: seq<Event>, stale: int, t: Task) returns (trace: seq<Event>)
    requires InTimeRun(before, stale) && t.id == "a"
    requires var s := After(before); s.workers == map[0 := InHand(t, s.now), 1 := InHand(t, s.now)]
    ensures InTimeRun(trace, stale) && Executes(After(trace), 0, "a") && Executes(After(trace), 1, "a")
  {
    hide After, InTimeRun, ReleasesHold, Stale, Matured, Lists;
    var s := After(before);
    var c := Claimed(t, s.now);
    Extend(before, Claim(0, s.now), stale);
    trace := before + [Claim(0, s.now)];
    assert After(trace) == s.(running := s.running["a" := c], workers := map[0 := Busy(c, Undecided), 1 := InHand(t, s.now)]);
    Extend(trace, Claim(1, s.now), stale);
    trace := trace + [Claim(1, s.now)];
  }
}
