// What holds after every run of the Redis queue: nothing enqueued disappears unnoticed, attempt
// counts stay bounded, and a retried record waits out its delay.
module RedisSafety {
  import opened Text
  import opened TaskLife
  import opened RedisProtocol

  // ----- at least once ------------------------------------------------------------------------------

  ghost predicate InWindow(s: State, id: string) {
    exists w :: w in s.workers && (s.workers[w].InHand? || s.workers[w].Rescheduling?) && s.workers[w].task.id == id
  }

  // Somewhere in Redis, or in a worker's hand inside one of the two non-atomic windows.
  ghost predicate Placed(s: State, id: string) {
    || (exists i :: 0 <= i < |s.pending| && s.pending[i].task.id == id)
    || (exists t :: t in s.retry && t.id == id)
    || id in s.running
    || InWindow(s, id)
  }

  ghost predicate Ended(s: State, id: string) {
    id in s.succeeded || id in s.exhausted
  }

  ghost predicate Accounted(s: State) {
    forall id :: id in s.enqueued ==> Placed(s, id) || Ended(s, id) || id in s.lost
  }

  ghost predicate WellKeyed(s: State) {
    forall id :: id in s.running ==> s.running[id].id == id && s.running[id].claimedAt.Some?
  }

  ghost predicate HandledSucceeded(s: State) {
    forall w :: w in s.workers && s.workers[w].Busy? && s.workers[w].verdict.Handled? ==> s.workers[w].task.id in s.succeeded
  }

  lemma NextWellKeyed(s: State, ev: Event)
    requires WellKeyed(s) && Enabled(s, ev)
    ensures WellKeyed(Next(s, ev))
  {
    hide Delay, Lists, Matured, Stale, ScoreOrder;
  }

  lemma NextHandledSucceeded(s: State, ev: Event)
    requires HandledSucceeded(s) && Enabled(s, ev)
    ensures HandledSucceeded(Next(s, ev))
  {
    hide Delay, Lists, Matured, Stale, ScoreOrder;
  }

  lemma NextPlaced(s: State, ev: Event, id: string)
    requires WellKeyed(s) && HandledSucceeded(s) && Enabled(s, ev) && Placed(s, id)
    ensures var s' := Next(s, ev); Placed(s', id) || Ended(s', id) || id in s'.lost
  {
    hide Enabled, Next, Ended;
    if i :| 0 <= i < |s.pending| && s.pending[i].task.id == id {
      PendingPlaced(s, ev, i);
    } else if t :| t in s.retry && t.id == id {
      RetryPlaced(s, ev, t);
    } else if id in s.running {
      RunningPlaced(s, ev, id);
    } else {
      var w :| w in s.workers && (s.workers[w].InHand? || s.workers[w].Rescheduling?) && s.workers[w].task.id == id;
      WindowPlaced(s, ev, w);
    }
  }

  lemma PendingPlaced(s: State, ev: Event, i: nat)
    requires Enabled(s, ev) && i < |s.pending|
    ensures var s' := Next(s, ev); var id := s.pending[i].task.id; Placed(s', id) || Ended(s', id) || id in s'.lost
  {
    hide Placed, InWindow, Delay, Lists, Matured, Stale, ScoreOrder;
    var s' := Next(s, ev);
    if i == 0 && ev.Pop? {
      HandInWindow(s', ev.w);
    } else if i == 0 && ev.PopUnseen? {
    } else {
      PendingIsPlaced(s', if ev.Pop? || ev.PopUnseen? then i - 1 else i);
    }
  }

  lemma RetryPlaced(s: State, ev: Event, t: Task)
    requires Enabled(s, ev) && t in s.retry
    ensures var s' := Next(s, ev); Placed(s', t.id) || Ended(s', t.id) || t.id in s'.lost
  {
    hide Placed, InWindow, Delay, Stale, ScoreOrder;
    var s' := Next(s, ev);
    if t in s'.retry {
      RetryIsPlaced(s', t);
    } else {
      var k :| 0 <= k < |ev.order| && ev.order[k] == t;
      PendingIsPlaced(s', |s.pending| + k);
    }
  }

  lemma HandInWindow(s: State, w: nat)
    requires w in s.workers && (s.workers[w].InHand? || s.workers[w].Rescheduling?)
    ensures Placed(s, s.workers[w].task.id)
  {
  }

  // How a record leaves the running hash.
  lemma LeavesRunning(s: State, ev: Event, id: string)
    requires WellKeyed(s) && Enabled(s, ev) && id in s.running && id !in Next(s, ev).running
    ensures ((ev.Complete? || ev.Release?) && Of(s, ev.w).Busy? && Of(s, ev.w).task.id == id) || (ev.Reap? && id in Ids(ev.order))
  {
    hide Delay, Lists, Matured, Stale, ScoreOrder;
  }

  lemma RunningPlaced(s: State, ev: Event, id: string)
    requires WellKeyed(s) && HandledSucceeded(s) && Enabled(s, ev) && id in s.running
    ensures var s' := Next(s, ev); Placed(s', id) || Ended(s', id) || id in s'.lost
  {
    hide Placed, InWindow, Delay, Lists, Matured, Stale, ScoreOrder;
    var s' := Next(s, ev);
    if id in s'.running {
      hide Next;
      RunningIsPlaced(s', id);
    } else {
      LeavesRunning(s, ev, id);
      if ev.Release? && s'.workers[ev.w].Rescheduling? {
        HandInWindow(s', ev.w);
      } else if ev.Reap? {
        var k :| 0 <= k < |ev.order| && ev.order[k].id == id;
        PendingIsPlaced(s', |s.pending| + k);
      }
    }
  }

  lemma RunningIsPlaced(s: State, id: string)
    requires id in s.running
    ensures Placed(s, id)
  {
  }

  lemma PendingIsPlaced(s: State, i: nat)
    requires i < |s.pending|
    ensures Placed(s, s.pending[i].task.id)
  {
  }

  lemma RetryIsPlaced(s: State, t: Task)
    requires t in s.retry
    ensures Placed(s, t.id)
  {
  }

  lemma WindowPlaced(s: State, ev: Event, w: nat)
    requires Enabled(s, ev) && w in s.workers && (s.workers[w].InHand? || s.workers[w].Rescheduling?)
    ensures var s' := Next(s, ev); var id := s.workers[w].task.id; Placed(s', id) || Ended(s', id) || id in s'.lost
  {
    hide Placed, InWindow, Delay;
    var s' := Next(s, ev);
    if w in s'.workers && s'.workers[w] == s.workers[w] {
      HandInWindow(s', w);
    } else {
      match ev
      case Claim(_, stamp) => RunningIsPlaced(s', s.workers[w].task.id);
      case ClaimUnseen(_, stamp) => RunningIsPlaced(s', s.workers[w].task.id);
      case Reschedule(_, stamp, applied) => if applied { RetryIsPlaced(s', s.workers[w].task); }
      case _ =>
    }
  }

  lemma {:induction false} RunAccounts(trace: seq<Event>)
    ensures WellKeyed(After(trace)) && HandledSucceeded(After(trace)) && Accounted(After(trace))
  {
    hide Next, Enabled, WellKeyed, HandledSucceeded, Accounted;
    if trace == [] {
      AccountedAtStart();
    } else {
      var front, ev := trace[..|trace| - 1], trace[|trace| - 1];
      RunAccounts(front);
      if Enabled(After(front), ev) {
        NextWellKeyed(After(front), ev);
        NextHandledSucceeded(After(front), ev);
        NextAccounted(After(front), ev);
      }
    }
  }

  lemma NextAccounted(s: State, ev: Event)
    requires WellKeyed(s) && HandledSucceeded(s) && Accounted(s) && Enabled(s, ev)
    ensures Accounted(Next(s, ev))
  {
    hide Placed, WellKeyed, HandledSucceeded, Delay, Lists, Matured, Stale, ScoreOrder;
    var s' := Next(s, ev);
    forall id | id in s'.enqueued ensures Placed(s', id) || Ended(s', id) || id in s'.lost {
      if id !in s.enqueued {
        PendingIsPlaced(s', |s.pending|);
      } else if Placed(s, id) {
        NextPlaced(s, ev, id);
      }
    }
  }

  lemma AccountedAtStart()
    ensures WellKeyed(INITIAL) && HandledSucceeded(INITIAL) && Accounted(INITIAL)
  {
  }

  // A failed or unanswered command, or a crash, between BLPOP and HSET or between HDEL and ZADD.
  ghost predicate Loses(s: State, ev: Event, id: string) {
    && Enabled(s, ev)
    && match ev
       case PopUnseen => s.pending[0].task.id == id
       case ClaimRefused(w) => Of(s, w).task.id == id
       case Reschedule(w, _, applied) => !applied && Of(s, w).task.id == id
       case Crash(w) => (Of(s, w).InHand? || Of(s, w).Rescheduling?) && Of(s, w).task.id == id
       case _ => false
  }

  lemma LossIsInWindow(s: State, ev: Event, id: string)
    ensures id in Apply(s, ev).lost <==> id in s.lost || Loses(s, ev, id)
  {
    hide Delay, Lists, Matured, Stale, ScoreOrder;
  }

  // Some step of the run loses this task.
  ghost predicate LostAlong(trace: seq<Event>, id: string) {
    trace != [] &&
    (LostAlong(trace[..|trace| - 1], id) || Loses(After(trace[..|trace| - 1]), trace[|trace| - 1], id))
  }

  lemma {:induction false} LostExactlyInWindows(trace: seq<Event>, id: string)
    ensures id in After(trace).lost <==> LostAlong(trace, id)
  {
    hide Loses, Apply;
    if trace != [] {
      LostExactlyInWindows(trace[..|trace| - 1], id);
      LossIsInWindow(After(trace[..|trace| - 1]), trace[|trace| - 1], id);
    }
  }

  // After every run, an enqueued task is in Redis or in a worker's hand inside a window, has been
  // handled, has used up its attempts, or was lost inside one of the two windows.
  lemma AtLeastOnce(trace: seq<Event>, id: string)
    requires id in After(trace).enqueued
    ensures Placed(After(trace), id) || Ended(After(trace), id) || LostAlong(trace, id)
  {
    RunAccounts(trace);
    LostExactlyInWindows(trace, id);
  }

  // ----- attempts -----------------------------------------------------------------------------------

  ghost function Allowed(s: State, t: Task): int {
    Max1(t.maxAttempts) + ReapsOf(s, t.id)
  }

  ghost predicate CanClaim(s: State, t: Task) {
    0 <= t.attempts < Allowed(s, t)
  }

  ghost predicate Counted(s: State, t: Task) {
    1 <= t.attempts <= Allowed(s, t)
  }

  ghost predicate HasRetry(t: Task) {
    1 <= t.attempts < t.maxAttempts
  }

  ghost predicate PendingCounted(s: State) {
    forall i :: 0 <= i < |s.pending| ==> CanClaim(s, s.pending[i].task)
  }

  ghost predicate StoresCounted(s: State) {
    && (forall t :: t in s.retry ==> HasRetry(t))
    && (forall id :: id in s.running ==> Counted(s, s.running[id]))
  }

  ghost predicate WorkerCounted(s: State, worker: Worker) {
    match worker
    case InHand(t, _) => CanClaim(s, t)
    case Busy(t, _) => Counted(s, t)
    case Rescheduling(t, _) => HasRetry(t)
    case _ => true
  }

  ghost predicate WorkersCounted(s: State) {
    forall w :: w in s.workers ==> WorkerCounted(s, s.workers[w])
  }

  lemma AllowedGrows(s: State, ev: Event)
    requires Enabled(s, ev)
    ensures forall t :: Allowed(s, t) <= Allowed(Next(s, ev), t)
    ensures ev.Reap? ==> forall t :: t in ev.order ==> Allowed(Next(s, ev), t) == Allowed(s, t) + 1
  {
    hide Delay, Lists, Matured, Stale, ScoreOrder, Max1;
  }

  lemma NextPendingCounted(s: State, ev: Event)
    requires Enabled(s, ev) && WellKeyed(s) && PendingCounted(s) && StoresCounted(s)
    ensures PendingCounted(Next(s, ev))
  {
    AllowedGrows(s, ev);
    var s' := Next(s, ev);
    forall i | 0 <= i < |s'.pending| ensures CanClaim(s', s'.pending[i].task) {
      NewPending(s, ev, i);
    }
  }

  // Where a pending entry was one step earlier.
  lemma NewPending(s: State, ev: Event, i: nat)
    requires Enabled(s, ev) && i < |Next(s, ev).pending|
    ensures var e := Next(s, ev).pending[i];
      || e in s.pending
      || (ev.Enqueue? && e == Entry(ev.task, New))
      || (ev.Promote? && e.task in s.retry && s.retry[e.task] <= s.now &&
            e.origin == Retried(s.retry[e.task] - Delay(e.task.attempts)))
      || (ev.Reap? && e.task in ev.order && e.origin == Reaped && exists id :: id in s.running && s.running[id] == e.task)
  {
    hide Delay, ScoreOrder, StaleRecord;
  }

  lemma NextStoresCounted(s: State, ev: Event)
    requires Enabled(s, ev) && StoresCounted(s) && WorkersCounted(s)
    ensures StoresCounted(Next(s, ev))
  {
    hide Delay, Lists, Matured, Stale, ScoreOrder, Allowed;
    AllowedGrows(s, ev);
    Claiming(s, ev);
  }

  lemma NextWorkersCounted(s: State, ev: Event)
    requires Enabled(s, ev) && PendingCounted(s) && WorkersCounted(s)
    ensures WorkersCounted(Next(s, ev))
  {
    hide Delay, Lists, Matured, Stale, ScoreOrder, Allowed, Enabled, Next;
    AllowedGrows(s, ev);
    Claiming(s, ev);
    var s' := Next(s, ev);
    forall w | w in s'.workers && s'.workers[w] != Of(s, w) ensures WorkerCounted(s', s'.workers[w]) {
      ActorCounted(s, ev, w);
    }
  }

  lemma ActorCounted(s: State, ev: Event, w: nat)
    requires Enabled(s, ev) && PendingCounted(s) && WorkersCounted(s)
    requires w in Next(s, ev).workers && Next(s, ev).workers[w] != Of(s, w)
    ensures WorkerCounted(Next(s, ev), Next(s, ev).workers[w])
  {
    hide Delay, Lists, Matured, Stale, ScoreOrder, Allowed, Promoted, Requeued, Ids, ReapsOf;
    AllowedGrows(s, ev);
    Claiming(s, ev);
  }

  lemma Claiming(s: State, ev: Event)
    requires Enabled(s, ev) && WorkersCounted(s)
    ensures ev.Claim? || ev.ClaimUnseen? ==> Counted(Next(s, ev), Claimed(Of(s, ev.w).task, ev.stamp))
  {
    hide Delay, Lists, Matured, Stale, ScoreOrder;
  }

  lemma {:induction false} RunCounts(trace: seq<Event>)
    ensures PendingCounted(After(trace)) && StoresCounted(After(trace)) && WorkersCounted(After(trace))
  {
    hide Next, Enabled, PendingCounted, StoresCounted, WorkersCounted;
    if trace == [] {
      CountedAtStart();
    } else {
      var front, ev := trace[..|trace| - 1], trace[|trace| - 1];
      RunCounts(front);
      RunAccounts(front);
      if Enabled(After(front), ev) {
        NextPendingCounted(After(front), ev);
        NextStoresCounted(After(front), ev);
        NextWorkersCounted(After(front), ev);
      }
    }
  }

  lemma CountedAtStart()
    ensures PendingCounted(INITIAL) && StoresCounted(INITIAL) && WorkersCounted(INITIAL)
  {
  }

  // A claimed record's attempts are at most max(1, max_attempts) plus the times it was reaped.
  lemma AttemptsAreBounded(trace: seq<Event>)
    ensures var s := After(trace);
      && (forall id :: id in s.running ==> s.running[id].attempts <= Max1(s.running[id].maxAttempts) + ReapsOf(s, id))
      && (forall w :: w in s.workers && s.workers[w].Busy? ==>
            s.workers[w].task.attempts <= Max1(s.workers[w].task.maxAttempts) + ReapsOf(s, s.workers[w].task.id))
      && (forall t :: t in s.retry ==> t.attempts < t.maxAttempts)
  {
    RunCounts(trace);
    RunAccounts(trace);
  }

  // ----- back-off -----------------------------------------------------------------------------------

  ghost predicate Justified(s: State, e: Entry) {
    match e.origin
    case New => e.task.attempts == 0
    case Retried(at) => (e.task, at) in s.failures && at + Delay(e.task.attempts) <= s.now
    case Reaped => ReapsOf(s, e.task.id) >= 1
  }

  ghost predicate PendingJustified(s: State) {
    forall e :: e in s.pending ==> Justified(s, e)
  }

  ghost predicate RetryJustified(s: State) {
    forall t :: t in s.retry ==> (t, s.retry[t] - Delay(t.attempts)) in s.failures
  }

  lemma StaysJustified(s: State, ev: Event, e: Entry)
    requires Enabled(s, ev) && Justified(s, e)
    ensures Justified(Next(s, ev), e)
  {
    hide Lists, Matured, Stale, ScoreOrder, Delay;
  }

  lemma ReapCounts(s: State, ev: Event, t: Task)
    requires Enabled(s, ev) && ev.Reap? && t in ev.order
    ensures Justified(Next(s, ev), Entry(t, Reaped))
  {
    hide Lists, Stale;
  }

  lemma NextPendingJustified(s: State, ev: Event)
    requires Enabled(s, ev) && PendingJustified(s) && RetryJustified(s)
    ensures PendingJustified(Next(s, ev))
  {
    hide Lists, Matured, Stale, ScoreOrder, Delay, Next;
    var s' := Next(s, ev);
    forall e | e in s'.pending ensures Justified(s', e) {
      var i :| 0 <= i < |s'.pending| && s'.pending[i] == e;
      NewPending(s, ev, i);
      if ev.Reap? && e !in s.pending {
        ReapCounts(s, ev, e.task);
      } else {
        assert Justified(s, e);
        StaysJustified(s, ev, e);
      }
    }
  }

  lemma NextRetryJustified(s: State, ev: Event)
    requires Enabled(s, ev) && RetryJustified(s)
    ensures RetryJustified(Next(s, ev))
  {
    hide Lists, Matured, Stale, ScoreOrder, Delay;
  }

  lemma {:induction false} RunJustified(trace: seq<Event>)
    ensures PendingJustified(After(trace)) && RetryJustified(After(trace))
  {
    hide Next, Enabled;
    if trace != [] {
      var front, ev := trace[..|trace| - 1], trace[|trace| - 1];
      RunJustified(front);
      if Enabled(After(front), ev) {
        NextPendingJustified(After(front), ev);
        NextRetryJustified(After(front), ev);
      }
    }
  }

  // Outside reaping, a record that failed on attempt n is not popped, and so not claimed, before
  // the time of that failure plus 10 s * 4^(n - 1).
  lemma RetriesWait(trace: seq<Event>, w: nat)
    requires Enabled(After(trace), Pop(w))
    ensures var s := After(trace); var t := s.pending[0].task;
      ReapsOf(s, t.id) == 0 && t.attempts != 0 ==>
        exists at :: (t, at) in s.failures && Apply(s, Pop(w)).workers[w].since >= at + Delay(t.attempts)
  {
    RunJustified(trace);
    var s := After(trace);
    assert s.pending[0] in s.pending;
  }
}
