// Exclusive ownership in the Redis queue: while workers finish in time and no release is
// refused, every task sits in exactly one place and no two live workers execute it at once.
module RedisOwnership {
  import opened Text
  import opened TaskLife
  import opened RedisProtocol
  import opened RedisSafety

  datatype End = WasHandled | WasExhausted | WasLost

  // The one place a task is in; an orphan is in the running hash with no live worker on it.
  datatype Place =
    | AtPending(task: Task)
    | AtHand(w: nat, task: Task)
    | AtRunning(w: nat, task: Task)
    | AtOrphan(task: Task)
    | AtReschedule(w: nat, task: Task)
    | AtRetry(task: Task)
    | Over(end: End)

  // Where a step on a single task takes it.
  ghost function Moved(s: State, ev: Event): Option<(string, Place)>
    requires Enabled(s, ev)
  {
    match ev
    case Enqueue(t) => Some((t.id, AtPending(t)))
    case Pop(w) => Some((s.pending[0].task.id, AtHand(w, s.pending[0].task)))
    case PopUnseen => Some((s.pending[0].task.id, Over(WasLost)))
    case Claim(w, stamp) => Some((Of(s, w).task.id, AtRunning(w, Claimed(Of(s, w).task, stamp))))
    case ClaimUnseen(w, stamp) => Some((Of(s, w).task.id, AtOrphan(Claimed(Of(s, w).task, stamp))))
    case ClaimRefused(w) => Some((Of(s, w).task.id, Over(WasLost)))
    case Complete(w, applied) => Some((Of(s, w).task.id, if applied then Over(WasHandled) else AtOrphan(Of(s, w).task)))
    case Release(w, applied) =>
      var t := Of(s, w).task;
      Some((t.id, if t.attempts < t.maxAttempts then AtReschedule(w, t)
                  else if applied then Over(WasExhausted) else AtOrphan(t)))
    case Reschedule(w, _, applied) =>
      Some((Of(s, w).task.id, if applied then AtRetry(Of(s, w).task) else Over(WasLost)))
    case Crash(w) =>
      (match Of(s, w)
       case Busy(t, _) => Some((t.id, AtOrphan(t)))
       case InHand(t, _) => Some((t.id, Over(WasLost)))
       case Rescheduling(t, _) => Some((t.id, Over(WasLost)))
       case _ => None)
    case _ => None
  }

  // Where the two scripts take a task.
  ghost function Swept(s: State, ev: Event, place: Place): Place {
    match ev
    case Promote(_, cutoff) =>
      if place.AtRetry? && place.task in s.retry && s.retry[place.task] <= cutoff then AtPending(place.task) else place
    case Reap(_, cutoff) =>
      if place.AtOrphan? && StaleRecord(place.task, cutoff) then AtPending(place.task) else place
    case _ => place
  }

  ghost function HomeNext(s: State, home: map<string, Place>, ev: Event): map<string, Place>
    requires Enabled(s, ev)
  {
    var m := Moved(s, ev);
    if m.Some? then home[m.value.0 := m.value.1]
    else map id | id in home :: Swept(s, ev, home[id])
  }

  ghost function Home(trace: seq<Event>): map<string, Place> {
    if trace == [] then map[]
    else
      var front, ev := trace[..|trace| - 1], trace[|trace| - 1];
      if Enabled(After(front), ev) then HomeNext(After(front), Home(front), ev) else Home(front)
  }

  // ----- agreement with Redis and the workers ---------------------------------------------------------

  ghost predicate Sits(home: map<string, Place>, id: string, place: Place) {
    id in home && home[id] == place
  }

  ghost predicate PendingSits(s: State, home: map<string, Place>) {
    && (forall i :: 0 <= i < |s.pending| ==> Sits(home, s.pending[i].task.id, AtPending(s.pending[i].task)))
    && (forall i, j :: 0 <= i < j < |s.pending| ==> s.pending[i].task.id != s.pending[j].task.id)
  }

  ghost predicate RetrySits(s: State, home: map<string, Place>) {
    forall t :: t in s.retry ==> Sits(home, t.id, AtRetry(t))
  }

  ghost predicate RunningSits(s: State, home: map<string, Place>) {
    forall id :: id in s.running ==> RecordSits(home, id, s.running[id])
  }

  ghost predicate WorkerSits(home: map<string, Place>, w: nat, worker: Worker) {
    match worker
    case InHand(t, _) => Sits(home, t.id, AtHand(w, t))
    case Busy(t, _) => Sits(home, t.id, AtRunning(w, t)) && t.claimedAt.Some?
    case Rescheduling(t, _) => Sits(home, t.id, AtReschedule(w, t))
    case _ => true
  }

  ghost predicate WorkersSit(s: State, home: map<string, Place>) {
    forall w :: w in s.workers ==> WorkerSits(home, w, s.workers[w])
  }

  // The converse: a task really is where its home says.
  ghost predicate Found(s: State, id: string, place: Place) {
    match place
    case AtPending(t) => t.id == id && exists i :: 0 <= i < |s.pending| && s.pending[i].task == t
    case AtRetry(t) => t.id == id && t in s.retry
    case AtHand(w, t) => t.id == id && Of(s, w).InHand? && Of(s, w).task == t
    case AtRunning(w, t) => t.id == id && Of(s, w).Busy? && Of(s, w).task == t && id in s.running && s.running[id] == t
    case AtOrphan(t) => t.id == id && id in s.running && s.running[id] == t
    case AtReschedule(w, t) => t.id == id && Of(s, w).Rescheduling? && Of(s, w).task == t
    case Over(_) => true
  }

  ghost predicate AllFound(s: State, home: map<string, Place>) {
    forall id :: id in home ==> Found(s, id, home[id])
  }

  ghost predicate Settled(s: State, home: map<string, Place>) {
    && home.Keys == s.enqueued
    && PendingSits(s, home) && RetrySits(s, home) && RunningSits(s, home) && WorkersSit(s, home) && AllFound(s, home)
  }

  // Every live worker is within `stale` of its claim.
  ghost predicate InTime(s: State, stale: int) {
    forall w :: w in s.workers && s.workers[w].Busy? && s.workers[w].task.claimedAt.Some? ==>
      s.now <= s.workers[w].task.claimedAt.value + stale
  }

  // The reaper finds a live worker whose claim is older than its cutoff.
  ghost predicate ReapsLive(s: State, ev: Event) {
    ev.Reap? && exists w :: w in s.workers && s.workers[w].Busy? && StaleRecord(s.workers[w].task, ev.cutoff)
  }

  // The reaper only looks back `stale` and finds every live worker within it.
  ghost predicate ReapsInTime(s: State, ev: Event, stale: int) {
    ev.Reap? ==> ev.cutoff <= s.now - stale && InTime(s, stale)
  }

  // A task to be retried does leave the running hash.
  ghost predicate ReleaseHolds(s: State, ev: Event) {
    ev.Release? && Of(s, ev.w).Busy? && Of(s, ev.w).task.attempts < Of(s, ev.w).task.maxAttempts ==> ev.applied
  }

  // Neither of the two things that break ownership.
  ghost predicate Clean(s: State, ev: Event) {
    !ReapsLive(s, ev) && ReleaseHolds(s, ev)
  }

  ghost predicate Careful(s: State, ev: Event, stale: int) {
    ReapsInTime(s, ev, stale) && ReleaseHolds(s, ev)
  }

  // Where the task a step moves was before it.
  lemma MovedFrom(s: State, home: map<string, Place>, ev: Event)
    requires Enabled(s, ev) && Settled(s, home) && Moved(s, ev).Some?
    ensures var id := Moved(s, ev).value.0;
      && (ev.Enqueue? <==> id !in home)
      && (ev.Pop? || ev.PopUnseen? ==> home[id] == AtPending(s.pending[0].task))
      && (ev.Claim? || ev.ClaimUnseen? || ev.ClaimRefused? ==> home[id] == AtHand(ev.w, Of(s, ev.w).task))
      && (ev.Complete? || ev.Release? ==> home[id] == AtRunning(ev.w, Of(s, ev.w).task))
      && (ev.Reschedule? ==> home[id] == AtReschedule(ev.w, Of(s, ev.w).task))
      && (ev.Crash? && Of(s, ev.w).InHand? ==> home[id] == AtHand(ev.w, Of(s, ev.w).task))
      && (ev.Crash? && Of(s, ev.w).Busy? ==> home[id] == AtRunning(ev.w, Of(s, ev.w).task))
      && (ev.Crash? && Of(s, ev.w).Rescheduling? ==> home[id] == AtReschedule(ev.w, Of(s, ev.w).task))
  {
    hide Delay, Lists, Matured, Stale, ScoreOrder, AllFound;
  }

  // The reaper takes exactly the stale orphans.
  lemma ReapSweeps(s: State, home: map<string, Place>, ev: Event)
    requires Enabled(s, ev) && ev.Reap? && Settled(s, home) && Clean(s, ev)
    ensures forall id :: id in home ==>
      ((home[id].AtOrphan? && StaleRecord(home[id].task, ev.cutoff)) <==> id in Ids(ev.order))
    ensures forall i :: 0 <= i < |ev.order| ==> Sits(home, ev.order[i].id, AtOrphan(ev.order[i]))
  {
    hide PendingSits, RetrySits;
    forall i | 0 <= i < |ev.order| ensures Sits(home, ev.order[i].id, AtOrphan(ev.order[i])) {
      assert ev.order[i] in Stale(s.running, ev.cutoff);
      var id :| id in s.running && StaleRecord(s.running[id], ev.cutoff) && s.running[id] == ev.order[i];
      assert Found(s, id, home[id]);
    }
    forall id | id in home && home[id].AtOrphan? && StaleRecord(home[id].task, ev.cutoff) ensures id in Ids(ev.order) {
      assert Found(s, id, home[id]);
      assert home[id].task in ev.order;
    }
  }

  lemma PromoteSweeps(s: State, home: map<string, Place>, ev: Event)
    requires Enabled(s, ev) && ev.Promote? && RetrySits(s, home)
    ensures forall i :: 0 <= i < |ev.order| ==> Sits(HomeNext(s, home, ev), ev.order[i].id, AtPending(ev.order[i]))
    ensures forall i, j :: 0 <= i < j < |ev.order| ==> ev.order[i].id != ev.order[j].id
  {
  }

  // A pending entry that stays keeps its home.
  lemma StaysPending(s: State, home: map<string, Place>, ev: Event, i: nat)
    requires Enabled(s, ev) && Settled(s, home) && i < |s.pending|
    requires ev.Pop? || ev.PopUnseen? ==> i > 0
    ensures Sits(HomeNext(s, home, ev), s.pending[i].task.id, AtPending(s.pending[i].task))
  {
    hide Delay, Lists, Matured, Stale, ScoreOrder, AllFound, RetrySits, RunningSits, WorkersSit, Next, Enabled;
    if Moved(s, ev).Some? {
      MovedFrom(s, home, ev);
    }
  }

  ghost function Head(ev: Event): nat {
    if ev.Pop? || ev.PopUnseen? then 1 else 0
  }

  ghost function Pushed(s: State, ev: Event): seq<Task> {
    match ev
    case Enqueue(t) => [t]
    case Promote(order, _) => order
    case Reap(order, _) => order
    case _ => []
  }

  ghost function PushedEntries(s: State, ev: Event): (r: seq<Entry>)
    ensures |r| == |Pushed(s, ev)| && forall i :: 0 <= i < |r| ==> r[i].task == Pushed(s, ev)[i]
  {
    match ev
    case Enqueue(t) => [Entry(t, New)]
    case Promote(order, _) => Promoted(order, s.retry)
    case Reap(order, _) => Requeued(order)
    case _ => []
  }

  lemma PendingShape(s: State, ev: Event)
    requires Enabled(s, ev)
    ensures Next(s, ev).pending == s.pending[Head(ev)..] + PushedEntries(s, ev)
  {
    hide Delay, Lists, Matured, Stale, ScoreOrder, Promoted, Requeued, Ids;
    assert s.pending[0..] == s.pending;
    assert s.pending + [] == s.pending;
    if ev.Pop? || ev.PopUnseen? {
      assert s.pending[1..] + [] == s.pending[1..];
    }
  }

  // `p` is `before` without its first entries and with these records at the end.
  ghost predicate Shifted(p: seq<Entry>, before: seq<Entry>, head: nat, pushed: seq<Task>) {
    && head <= |before| && |p| == |before| - head + |pushed|
    && (forall i :: 0 <= i < |before| - head ==> p[i] == before[i + head])
    && (forall i :: |before| - head <= i < |p| ==> p[i].task == pushed[i - (|before| - head)])
  }

  lemma AppendShifts(before: seq<Entry>, head: nat, e: seq<Entry>, pushed: seq<Task>)
    requires head <= |before| && |e| == |pushed| && forall i :: 0 <= i < |e| ==> e[i].task == pushed[i]
    ensures Shifted(before[head..] + e, before, head, pushed)
  {
  }

  lemma PendingNext(s: State, ev: Event)
    requires Enabled(s, ev)
    ensures Shifted(Next(s, ev).pending, s.pending, Head(ev), Pushed(s, ev))
  {
    hide Shifted, Next, Pushed, PushedEntries;
    PendingShape(s, ev);
    AppendShifts(s.pending, Head(ev), PushedEntries(s, ev), Pushed(s, ev));
  }

  // The records a step pushes were not pending before, and differ from each other.
  lemma PushedSits(s: State, home: map<string, Place>, ev: Event)
    requires Enabled(s, ev) && Settled(s, home) && Clean(s, ev)
    ensures var q := Pushed(s, ev);
      && (forall i :: 0 <= i < |q| ==> Sits(HomeNext(s, home, ev), q[i].id, AtPending(q[i])))
      && (forall i :: 0 <= i < |q| ==> !(q[i].id in home && home[q[i].id].AtPending?))
      && (forall i, j :: 0 <= i < j < |q| ==> q[i].id != q[j].id)
  {
    hide Delay, ScoreOrder, AllFound, PendingSits, RunningSits, WorkersSit, Next;
    match ev
    case Enqueue(t) =>
    case Promote(order, _) => PromoteSweeps(s, home, ev);
    case Reap(order, _) => ReapSweeps(s, home, ev);
    case _ =>
  }

  lemma NextPendingSits(s: State, home: map<string, Place>, ev: Event)
    requires Enabled(s, ev) && Settled(s, home) && Clean(s, ev)
    ensures PendingSits(Next(s, ev), HomeNext(s, home, ev))
  {
    hide Enabled, Next, HomeNext, Clean, AllFound, RetrySits, RunningSits, WorkersSit, Pushed;
    PendingNext(s, ev);
    PushedSits(s, home, ev);
    var s', kept := Next(s, ev), |s.pending| - Head(ev);
    forall i | 0 <= i < |s'.pending| ensures Sits(HomeNext(s, home, ev), s'.pending[i].task.id, AtPending(s'.pending[i].task)) {
      if i < kept {
        StaysPending(s, home, ev, i + Head(ev));
      } else {
        assert s'.pending[i].task == Pushed(s, ev)[i - kept];
      }
    }
    forall i, j | 0 <= i < j < |s'.pending| ensures s'.pending[i].task.id != s'.pending[j].task.id {
      if j >= kept {
        assert s'.pending[j].task == Pushed(s, ev)[j - kept];
        if i >= kept {
          assert s'.pending[i].task == Pushed(s, ev)[i - kept];
        }
      }
    }
  }

  // Where a record in the retry set was one step earlier.
  lemma NewRetry(s: State, ev: Event, t: Task)
    requires Enabled(s, ev) && t in Next(s, ev).retry
    ensures (ev.Reschedule? && ev.applied && t == Of(s, ev.w).task) ||
            (t in s.retry && (ev.Promote? ==> s.retry[t] > ev.cutoff))
  {
    hide Delay, Lists, Stale, ScoreOrder;
  }

  lemma StaysRetry(s: State, home: map<string, Place>, ev: Event, t: Task)
    requires Enabled(s, ev) && Settled(s, home) && t in s.retry && (ev.Promote? ==> s.retry[t] > ev.cutoff)
    ensures Sits(HomeNext(s, home, ev), t.id, AtRetry(t))
  {
    hide Delay, Lists, Matured, Stale, ScoreOrder, AllFound, PendingSits, RunningSits, WorkersSit, Next;
    assert Sits(home, t.id, AtRetry(t));
    if Moved(s, ev).Some? {
      MovedFrom(s, home, ev);
    }
  }

  lemma RescheduleSits(s: State, home: map<string, Place>, ev: Event)
    requires Enabled(s, ev) && ev.Reschedule? && ev.applied
    ensures Sits(HomeNext(s, home, ev), Of(s, ev.w).task.id, AtRetry(Of(s, ev.w).task))
  {
  }

  lemma NextRetrySits(s: State, home: map<string, Place>, ev: Event)
    requires Enabled(s, ev) && Settled(s, home)
    ensures RetrySits(Next(s, ev), HomeNext(s, home, ev))
  {
    hide Next, HomeNext, AllFound, PendingSits, RunningSits, WorkersSit;
    forall t | t in Next(s, ev).retry ensures Sits(HomeNext(s, home, ev), t.id, AtRetry(t)) {
      NewRetry(s, ev, t);
      if t in s.retry && (ev.Promote? ==> s.retry[t] > ev.cutoff) {
        StaysRetry(s, home, ev, t);
      } else {
        RescheduleSits(s, home, ev);
      }
    }
  }

  // Where a record in the running hash was one step earlier.
  lemma NewRunning(s: State, ev: Event, id: string)
    requires Enabled(s, ev) && id in Next(s, ev).running
    ensures var t := Next(s, ev).running[id];
      if (ev.Claim? || ev.ClaimUnseen?) && id == Of(s, ev.w).task.id then t == Claimed(Of(s, ev.w).task, ev.stamp)
      else id in s.running && t == s.running[id] && (ev.Reap? ==> id !in Ids(ev.order)) &&
           ((ev.Complete? || ev.Release?) && ev.applied ==> id != Of(s, ev.w).task.id)
  {
    hide Delay, Lists, Matured, Stale, ScoreOrder;
  }

  ghost predicate RecordSits(home: map<string, Place>, id: string, t: Task) {
    t.id == id && id in home && (home[id].AtRunning? || home[id].AtOrphan?) && home[id].task == t
  }

  // A running record that stays keeps its home, or becomes an orphan.
  lemma StaysRunning(s: State, home: map<string, Place>, ev: Event, id: string)
    requires Enabled(s, ev) && Settled(s, home) && Clean(s, ev) && id in s.running
    requires ev.Reap? ==> id !in Ids(ev.order)
    requires (ev.Complete? || ev.Release?) && ev.applied ==> id != Of(s, ev.w).task.id
    ensures RecordSits(HomeNext(s, home, ev), id, s.running[id])
  {
    hide Delay, Lists, Matured, Stale, ScoreOrder, AllFound, PendingSits, RetrySits, WorkersSit, Next;
    assert RecordSits(home, id, s.running[id]);
    if ev.Reap? {
      ReapSweeps(s, home, ev);
    } else if Moved(s, ev).Some? {
      MovedFrom(s, home, ev);
    }
  }

  lemma NextRunningSits(s: State, home: map<string, Place>, ev: Event)
    requires Enabled(s, ev) && Settled(s, home) && Clean(s, ev)
    ensures RunningSits(Next(s, ev), HomeNext(s, home, ev))
  {
    hide Next, HomeNext, Clean, AllFound, PendingSits, RetrySits, WorkersSit;
    forall id | id in Next(s, ev).running ensures RecordSits(HomeNext(s, home, ev), id, Next(s, ev).running[id]) {
      NewRunning(s, ev, id);
      if (ev.Claim? || ev.ClaimUnseen?) && id == Of(s, ev.w).task.id {
        ClaimSits(s, home, ev);
      } else {
        StaysRunning(s, home, ev, id);
      }
    }
  }

  lemma ClaimSits(s: State, home: map<string, Place>, ev: Event)
    requires Enabled(s, ev) && (ev.Claim? || ev.ClaimUnseen?)
    ensures RecordSits(HomeNext(s, home, ev), Of(s, ev.w).task.id, Claimed(Of(s, ev.w).task, ev.stamp))
  {
  }

  // A worker that a step does not act for keeps its task's home.
  lemma StaysWith(s: State, home: map<string, Place>, ev: Event, w: nat)
    requires Enabled(s, ev) && Settled(s, home) && Clean(s, ev) && w in s.workers
    requires !ev.Tick? && !ev.Enqueue? && !ev.Promote? && !ev.PopUnseen? && !ev.Reap? ==> ev.w != w
    ensures WorkerSits(HomeNext(s, home, ev), w, s.workers[w])
  {
    hide Delay, Lists, Matured, Stale, ScoreOrder, AllFound, PendingSits, RetrySits, RunningSits, Next, Enabled;
    if Moved(s, ev).Some? {
      MovedFrom(s, home, ev);
    }
  }

  lemma NextWorkersSit(s: State, home: map<string, Place>, ev: Event)
    requires Enabled(s, ev) && Settled(s, home) && Clean(s, ev)
    ensures WorkersSit(Next(s, ev), HomeNext(s, home, ev))
  {
    hide Delay, Lists, Matured, Stale, ScoreOrder, AllFound, PendingSits, RetrySits, RunningSits, Clean;
    var s' := Next(s, ev);
    forall w | w in s'.workers ensures WorkerSits(HomeNext(s, home, ev), w, s'.workers[w]) {
      if !ev.Tick? && !ev.Enqueue? && !ev.Promote? && !ev.PopUnseen? && !ev.Reap? && ev.w == w {
        assert w in s.workers ==> WorkerSits(home, w, s.workers[w]);
      } else {
        StaysWith(s, home, ev, w);
      }
    }
  }

  // The task a step moves is found where it goes.
  lemma MoverFound(s: State, home: map<string, Place>, ev: Event)
    requires Enabled(s, ev) && Settled(s, home) && Clean(s, ev) && Moved(s, ev).Some?
    ensures Found(Next(s, ev), Moved(s, ev).value.0, Moved(s, ev).value.1)
  {
    hide Delay, Lists, Matured, Stale, ScoreOrder, PendingSits, RetrySits, WorkersSit;
    MovedFrom(s, home, ev);
    assert !ev.Enqueue? ==> Found(s, Moved(s, ev).value.0, home[Moved(s, ev).value.0]);
    if ev.Enqueue? {
      assert Next(s, ev).pending[|s.pending|].task == ev.task;
    }
  }

  // Every other task is still found where it was, or where a script took it.
  lemma PendingFound(s: State, home: map<string, Place>, ev: Event, id: string)
    requires Enabled(s, ev) && Settled(s, home) && id in home && home[id].AtPending?
    requires Moved(s, ev).Some? ==> Moved(s, ev).value.0 != id
    ensures Found(Next(s, ev), id, home[id])
  {
    hide Delay, Lists, Matured, Stale, ScoreOrder, Next, RetrySits, RunningSits, WorkersSit;
    assert Found(s, id, home[id]);
    var i :| 0 <= i < |s.pending| && s.pending[i].task == home[id].task;
    PendingNext(s, ev);
    assert Next(s, ev).pending[i - Head(ev)] == s.pending[i];
  }

  // A worker keeps its task until a step moves that task.
  lemma WorkerStays(s: State, ev: Event, w: nat)
    requires Enabled(s, ev) && w in s.workers && (s.workers[w].InHand? || s.workers[w].Busy? || s.workers[w].Rescheduling?)
    requires Moved(s, ev).Some? ==> Moved(s, ev).value.0 != s.workers[w].task.id
    ensures var was, now := s.workers[w], Of(Next(s, ev), w);

      && (was.InHand? <==> now.InHand?) && (was.Busy? <==> now.Busy?)
      && (was.Rescheduling? <==> now.Rescheduling?) && now.task == was.task
  {
    hide Delay, Lists, Matured, Stale, ScoreOrder;
  }

  lemma HeldFound(s: State, home: map<string, Place>, ev: Event, id: string)
    requires Enabled(s, ev) && Settled(s, home) && id in home && (home[id].AtHand? || home[id].AtReschedule?)
    requires Moved(s, ev).Some? ==> Moved(s, ev).value.0 != id
    ensures Found(Next(s, ev), id, home[id])
  {
    hide Next, Enabled, Moved, PendingSits, RetrySits, RunningSits, WorkersSit;
    assert Found(s, id, home[id]);
    WorkerStays(s, ev, home[id].w);
  }

  // A record stays in the retry set until a step moves its task or it is promoted.
  lemma RetryStays(s: State, ev: Event, t: Task)
    requires Enabled(s, ev) && t in s.retry
    ensures if ev.Promote? && s.retry[t] <= ev.cutoff then t in ev.order else t in Next(s, ev).retry
  {
    hide Delay, Stale, ScoreOrder;
    assert ev.Promote? && s.retry[t] <= ev.cutoff ==> t in Matured(s.retry, ev.cutoff);
  }

  lemma RetryFound(s: State, home: map<string, Place>, ev: Event, id: string)
    requires Enabled(s, ev) && Settled(s, home) && id in home && home[id].AtRetry?
    requires Moved(s, ev).Some? ==> Moved(s, ev).value.0 != id
    ensures Found(Next(s, ev), id, Swept(s, ev, home[id]))
  {
    hide Next, Enabled, Moved, PendingSits, RetrySits, RunningSits, WorkersSit;
    var t := home[id].task;
    assert Found(s, id, home[id]);
    RetryStays(s, ev, t);
    if ev.Promote? && s.retry[t] <= ev.cutoff {
      var k :| 0 <= k < |ev.order| && ev.order[k] == t;
      PendingNext(s, ev);
      assert Next(s, ev).pending[|s.pending| + k].task == t;
    }
  }

  // A record stays in the running hash until a step moves its task or the reaper takes it.
  lemma RecordStays(s: State, ev: Event, id: string)
    requires Enabled(s, ev) && id in s.running && (ev.Reap? ==> id !in Ids(ev.order))
    requires Moved(s, ev).Some? ==> Moved(s, ev).value.0 != id
    ensures id in Next(s, ev).running && Next(s, ev).running[id] == s.running[id]
  {
    hide Delay, Lists, Matured, Stale, ScoreOrder;
  }

  lemma ReapFound(s: State, home: map<string, Place>, ev: Event, id: string)
    requires Enabled(s, ev) && Settled(s, home) && Clean(s, ev) && ev.Reap?
    requires id in home && (home[id].AtRunning? || home[id].AtOrphan?) && id in Ids(ev.order)
    ensures home[id].AtOrphan? && Found(Next(s, ev), id, AtPending(home[id].task))
    ensures Swept(s, ev, home[id]) == AtPending(home[id].task)
  {
    hide Next, Delay, Matured, Lists, Stale, ScoreOrder, PendingSits, RetrySits, RunningSits, WorkersSit, Clean;
    ReapSweeps(s, home, ev);
    PendingNext(s, ev);
    assert Found(s, id, home[id]);
    var k :| 0 <= k < |ev.order| && ev.order[k].id == id;
    assert Sits(home, ev.order[k].id, AtOrphan(ev.order[k]));
    assert Next(s, ev).pending[|s.pending| + k].task == home[id].task;
  }

  lemma RunningFound(s: State, home: map<string, Place>, ev: Event, id: string)
    requires Enabled(s, ev) && Settled(s, home) && Clean(s, ev)
    requires id in home && (home[id].AtRunning? || home[id].AtOrphan?)
    requires Moved(s, ev).Some? ==> Moved(s, ev).value.0 != id
    ensures Found(Next(s, ev), id, Swept(s, ev, home[id]))
  {
    hide Next, Enabled, Moved, PendingSits, RetrySits, RunningSits, WorkersSit, Clean;
    assert Found(s, id, home[id]);
    if ev.Reap? && id in Ids(ev.order) {
      ReapFound(s, home, ev, id);
    } else {
      RecordStays(s, ev, id);
      if home[id].AtRunning? {
        WorkerStays(s, ev, home[id].w);
      } else if ev.Reap? {
        ReapSweeps(s, home, ev);
      }
    }
  }

  lemma NextAllFound(s: State, home: map<string, Place>, ev: Event)
    requires Enabled(s, ev) && Settled(s, home) && Clean(s, ev)
    ensures AllFound(Next(s, ev), HomeNext(s, home, ev)) && HomeNext(s, home, ev).Keys == Next(s, ev).enqueued
  {
    hide Found, Next, Clean, PendingSits, RetrySits, RunningSits, WorkersSit;
    var home' := HomeNext(s, home, ev);
    if Moved(s, ev).Some? {
      MoverFound(s, home, ev);
    }
    forall id | id in home' ensures Found(Next(s, ev), id, home'[id]) {
      if !(Moved(s, ev).Some? && Moved(s, ev).value.0 == id) {
        match home[id]
        case AtPending(_) => PendingFound(s, home, ev, id);
        case AtRetry(_) => RetryFound(s, home, ev, id);
        case AtHand(_, _) => HeldFound(s, home, ev, id);
        case AtReschedule(_, _) => HeldFound(s, home, ev, id);
        case Over(_) => OverFound(Next(s, ev), id, home[id]);
        case _ => RunningFound(s, home, ev, id);
      }
    }
    EnqueuedNext(s, home, ev);
  }

  lemma OverFound(s: State, id: string, place: Place)
    requires place.Over?
    ensures Found(s, id, place)
  {
  }

  lemma EnqueuedNext(s: State, home: map<string, Place>, ev: Event)
    requires Enabled(s, ev) && Settled(s, home)
    ensures HomeNext(s, home, ev).Keys == Next(s, ev).enqueued
  {
    hide Delay, Lists, Matured, Stale, ScoreOrder, PendingSits, RetrySits, RunningSits, WorkersSit, AllFound;
    if Moved(s, ev).Some? {
      MovedFrom(s, home, ev);
    }
  }

  // ----- the theorems ---------------------------------------------------------------------------------

  ghost predicate CarefulRun(trace: seq<Event>, stale: int) {
    trace != [] ==>
      && CarefulRun(trace[..|trace| - 1], stale)
      && (Enabled(After(trace[..|trace| - 1]), trace[|trace| - 1]) ==>
            Careful(After(trace[..|trace| - 1]), trace[|trace| - 1], stale))
  }

  ghost predicate CleanRun(trace: seq<Event>) {
    trace != [] ==>
      && CleanRun(trace[..|trace| - 1])
      && (Enabled(After(trace[..|trace| - 1]), trace[|trace| - 1]) ==> Clean(After(trace[..|trace| - 1]), trace[|trace| - 1]))
  }

  // A worker in time is not stale for a reaper that looks back that far.
  lemma CarefulIsClean(s: State, ev: Event, stale: int)
    requires Careful(s, ev, stale)
    ensures Clean(s, ev)
  {
  }

  lemma {:induction false} CarefulRunIsClean(trace: seq<Event>, stale: int)
    requires CarefulRun(trace, stale)
    ensures CleanRun(trace)
  {
    hide Careful, Clean, Enabled;
    if trace != [] {
      var front, ev := trace[..|trace| - 1], trace[|trace| - 1];
      CarefulRunIsClean(front, stale);
      if Enabled(After(front), ev) {
        CarefulIsClean(After(front), ev, stale);
      }
    }
  }

  lemma {:induction false} RunSettles(trace: seq<Event>)
    requires CleanRun(trace)
    ensures Settled(After(trace), Home(trace))
  {
    hide Next, Enabled, HomeNext, Clean, AllFound, PendingSits, RetrySits, RunningSits, WorkersSit;
    if trace == [] {
      SettledAtStart();
    } else {
      var front, ev := trace[..|trace| - 1], trace[|trace| - 1];
      RunSettles(front);
      if Enabled(After(front), ev) {
        NextPendingSits(After(front), Home(front), ev);
        NextRetrySits(After(front), Home(front), ev);
        NextRunningSits(After(front), Home(front), ev);
        NextWorkersSit(After(front), Home(front), ev);
        NextAllFound(After(front), Home(front), ev);
      }
    }
  }

  lemma SettledAtStart()
    ensures Settled(INITIAL, map[])
  {
  }

  ghost predicate InPending(s: State, id: string) {
    exists i :: 0 <= i < |s.pending| && s.pending[i].task.id == id
  }

  ghost predicate InRetry(s: State, id: string) {
    exists t :: t in s.retry && t.id == id
  }

  // In two places at once, or twice in one.
  ghost predicate Duplicated(s: State, id: string) {
    || (InPending(s, id) && (InRetry(s, id) || id in s.running || InWindow(s, id)))
    || (InRetry(s, id) && (id in s.running || InWindow(s, id)))
    || (id in s.running && InWindow(s, id))
    || ((InPending(s, id) || InRetry(s, id)) && exists w :: w in s.workers && Holds(s.workers[w], id))
    || (exists i, j :: 0 <= i < j < |s.pending| && s.pending[i].task.id == id && s.pending[j].task.id == id)
    || (exists t, u :: t in s.retry && u in s.retry && t != u && t.id == id && u.id == id)
    || (exists v, w :: v in s.workers && w in s.workers && v != w && Holds(s.workers[v], id) && Holds(s.workers[w], id))
  }

  // A live worker holds the task in some form.
  ghost predicate Holds(worker: Worker, id: string) {
    (worker.InHand? || worker.Busy? || worker.Rescheduling?) && worker.task.id == id
  }

  ghost predicate Executes(s: State, w: nat, id: string) {
    w in s.workers && s.workers[w].Busy? && s.workers[w].verdict.Undecided? && s.workers[w].task.id == id
  }

  lemma SettledIsSingle(s: State, home: map<string, Place>, id: string)
    requires Settled(s, home)
    ensures !Duplicated(s, id)
  {
    hide AllFound;
    forall w | w in s.workers && Holds(s.workers[w], id) ensures OwnedBy(home, w, id) {
      assert WorkerSits(home, w, s.workers[w]);
    }
  }

  ghost predicate OwnedBy(home: map<string, Place>, w: nat, id: string) {
    id in home && (home[id].AtHand? || home[id].AtRunning? || home[id].AtReschedule?) && home[id].w == w
  }

  // If every live worker is within `stale` of its claim whenever the reaper runs, and every task
  // to be retried leaves the running hash first, then after every run each enqueued task is in at
  // most one place, is over if it is in none, and is executed by at most one live worker.
  lemma ExclusiveOwnership(trace: seq<Event>, stale: int, id: string)
    requires CarefulRun(trace, stale)
    ensures !Duplicated(After(trace), id)
    ensures id in After(trace).enqueued && !Placed(After(trace), id) ==> Ended(After(trace), id) || LostAlong(trace, id)
    ensures forall v, w :: Executes(After(trace), v, id) && Executes(After(trace), w, id) ==> v == w
  {
    CarefulRunIsClean(trace, stale);
    RunSettles(trace);
    SettledIsSingle(After(trace), Home(trace), id);
    if id in After(trace).enqueued {
      AtLeastOnce(trace, id);
    }
  }

  // ----- the exact condition -----------------------------------------------------------------------------

  // A task that is to be retried but stays in the running hash is in two places.
  lemma RefusalDuplicates(s: State, home: map<string, Place>, ev: Event)
    requires Enabled(s, ev) && Settled(s, home) && !ReleaseHolds(s, ev)
    ensures Duplicated(Next(s, ev), Of(s, ev.w).task.id)
  {
    hide Delay, PendingSits, RetrySits, RunningSits, AllFound;
    var t := Of(s, ev.w).task;
    assert WorkerSits(home, ev.w, s.workers[ev.w]);
    RunningRecord(s, home, t.id);
    assert Next(s, ev).workers[ev.w] == Rescheduling(t, s.now);
    assert InWindow(Next(s, ev), t.id);
  }

  lemma RunningRecord(s: State, home: map<string, Place>, id: string)
    requires Settled(s, home) && id in home && home[id].AtRunning?
    ensures home[id].task.id == id && id in s.running && s.running[id] == home[id].task
  {
    assert Found(s, id, home[id]);
  }

  // A reaped task is pending again while its live worker still works on it.
  lemma LiveReapDuplicates(s: State, home: map<string, Place>, ev: Event) returns (id: string)
    requires Enabled(s, ev) && Settled(s, home) && ReapsLive(s, ev)
    ensures Duplicated(Next(s, ev), id)
  {
    hide Delay, PendingSits, RetrySits, RunningSits, AllFound, Next;
    var w :| w in s.workers && s.workers[w].Busy? && StaleRecord(s.workers[w].task, ev.cutoff);
    var t := s.workers[w].task;
    id := t.id;
    assert WorkerSits(home, w, s.workers[w]);
    RunningRecord(s, home, id);
    assert t in Stale(s.running, ev.cutoff);
    var k :| 0 <= k < |ev.order| && ev.order[k] == t;
    PendingNext(s, ev);
    assert Next(s, ev).pending[|s.pending| + k].task == t;
    assert InPending(Next(s, ev), id);
    WorkerStays(s, ev, w);
    assert Holds(Next(s, ev).workers[w], id);
  }

  // No task is ever in two places, at the end of the run or on the way.
  ghost predicate NeverDuplicated(trace: seq<Event>) {
    (forall id :: !Duplicated(After(trace), id)) && (trace != [] ==> NeverDuplicated(trace[..|trace| - 1]))
  }

  // Every task is in at most one place all along a run if and only if the reaper never finds a live
  // worker's claim older than its cutoff and no release of a task to be retried is refused.
  lemma {:induction false} OwnershipExactly(trace: seq<Event>)
    ensures NeverDuplicated(trace) <==> CleanRun(trace)
  {
    hide Enabled, Next, Clean, Duplicated, Settled;
    if trace == [] {
      SettledAtStart();
      forall id ensures !Duplicated(INITIAL, id) {
        SettledIsSingle(INITIAL, map[], id);
      }
    } else {
      var front, ev := trace[..|trace| - 1], trace[|trace| - 1];
      OwnershipExactly(front);
      if CleanRun(trace) {
        RunSettles(trace);
        forall id ensures !Duplicated(After(trace), id) {
          SettledIsSingle(After(trace), Home(trace), id);
        }
      } else if CleanRun(front) {
        RunSettles(front);
        var id := UncleanDuplicates(After(front), Home(front), ev);
        assert Duplicated(After(trace), id);
      }
    }
  }

  lemma UncleanDuplicates(s: State, home: map<string, Place>, ev: Event) returns (id: string)
    requires Enabled(s, ev) && Settled(s, home) && !Clean(s, ev)
    ensures Duplicated(Next(s, ev), id)
  {
    hide Duplicated, Settled, Next;
    if ReapsLive(s, ev) {
      id := LiveReapDuplicates(s, home, ev);
    } else {
      id := Of(s, ev.w).task.id;
      RefusalDuplicates(s, home, ev);
    }
  }
}
