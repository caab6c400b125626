// Termination of the Redis queue without faults: the run can always go on until it has come to
// rest, and it comes to rest after boundedly many effective steps.
module RedisTermination {
  import opened Text
  import opened TaskLife
  import opened RedisProtocol
  import opened RedisSafety
  import opened RedisOwnership
  import opened RedisLifecycle

  // ----- the work a task still needs ----------------------------------------------------------------

  ghost function AttemptsLeft(t: Task): int {
    Max1(t.maxAttempts) - t.attempts
  }

  // The most steps the task can still take part in: six per attempt left, but four for the last, and the
  // rest of this one.
  ghost function Work(s: State, place: Place): int {
    match place
    case AtPending(t) => 6 * AttemptsLeft(t) - 2
    case AtHand(_, t) => 6 * AttemptsLeft(t) - 3
    case AtRunning(w, t) => 6 * AttemptsLeft(t) + if Of(s, w).Busy? && Of(s, w).verdict.Undecided? then 2 else 1
    case AtOrphan(t) => 6 * AttemptsLeft(t) + 1
    case AtReschedule(_, t) => 6 * AttemptsLeft(t)
    case AtRetry(t) => 6 * AttemptsLeft(t) - 1
    case Over(_) => 0
  }

  // The clock, new tasks, and promotions that find nothing do no work.
  ghost predicate Effective(s: State, ev: Event) {
    Enabled(s, ev) && !ev.Tick? && !ev.Enqueue? && !(ev.Promote? && ev.order == [])
  }

  ghost function EffectiveSteps(trace: seq<Event>): nat {
    if trace == [] then 0
    else EffectiveSteps(trace[..|trace| - 1]) + if Effective(After(trace[..|trace| - 1]), trace[|trace| - 1]) then 1 else 0
  }

  // The tasks a run has enqueued.
  ghost function Enqueued(trace: seq<Event>): seq<Task> {
    if trace == [] then []
    else
      var before, ev := Enqueued(trace[..|trace| - 1]), trace[|trace| - 1];
      if ev.Enqueue? && Enabled(After(trace[..|trace| - 1]), ev) then before + [ev.task] else before
  }

  ghost function Budget(tasks: seq<Task>): int {
    if tasks == [] then 0 else Budget(tasks[..|tasks| - 1]) + 6 * Max1(tasks[|tasks| - 1].maxAttempts) - 2
  }

  ghost function WorkOf(s: State, home: map<string, Place>, id: string): int {
    if id in home then Work(s, home[id]) else 0
  }

  ghost function TotalWork(tasks: seq<Task>, s: State, home: map<string, Place>): int {
    if tasks == [] then 0
    else TotalWork(tasks[..|tasks| - 1], s, home) + WorkOf(s, home, tasks[|tasks| - 1].id)
  }

  // ----- one step -------------------------------------------------------------------------------------

  // Counts are in bounds wherever a task is.
  ghost predicate PlaceCounted(place: Place) {
    match place
    case AtPending(t) => 0 <= t.attempts < Max1(t.maxAttempts)
    case AtHand(_, t) => 0 <= t.attempts < Max1(t.maxAttempts)
    case AtRunning(_, t) => 1 <= t.attempts <= Max1(t.maxAttempts)
    case AtOrphan(t) => 1 <= t.attempts <= Max1(t.maxAttempts)
    case AtReschedule(_, t) => 1 <= t.attempts < t.maxAttempts
    case AtRetry(t) => 1 <= t.attempts < t.maxAttempts
    case Over(_) => true
  }

  ghost predicate HomesCounted(home: map<string, Place>) {
    forall id :: id in home ==> PlaceCounted(home[id])
  }

  lemma NextHomesCounted(s: State, home: map<string, Place>, ev: Event)
    requires Enabled(s, ev) && Settled(s, home) && FaultFree(ev) && HomesCounted(home)
    ensures HomesCounted(HomeNext(s, home, ev))
  {
    hide Delay, Lists, Matured, Stale, ScoreOrder, PendingSits, RetrySits, RunningSits, WorkersSit, AllFound;
    if Moved(s, ev).Some? {
      MovedFrom(s, home, ev);
    }
  }

  lemma {:induction false} RunHomesCounted(trace: seq<Event>)
    requires FaultFreeRun(trace)
    ensures HomesCounted(Home(trace))
  {
    hide Enabled, HomeNext, Settled, HomesCounted;
    if trace == [] {
      NoHomes();
    } else {
      var front, ev := trace[..|trace| - 1], trace[|trace| - 1];
      RunHomesCounted(front);
      FaultFreeIsClean(front);
      RunSettles(front);
      assert FaultFree(ev);
      if Enabled(After(front), ev) {
        NextHomesCounted(After(front), Home(front), ev);
      }
    }
  }

  lemma NoHomes()
    ensures HomesCounted(map[])
  {
  }

  // The task an effective step works on.
  ghost function Worked(s: State, ev: Event): string
    requires Effective(s, ev)
  {
    if ev.Promote? then ev.order[0].id
    else if ev.Handle? || ev.Raise? then Of(s, ev.w).task.id
    else if Moved(s, ev).Some? then Moved(s, ev).value.0
    else ""
  }

  // No step adds work to a task, and an effective one takes some from the task it works on.
  lemma MoverWorks(s: State, home: map<string, Place>, ev: Event)
    requires Enabled(s, ev) && Settled(s, home) && FaultFree(ev) && HomesCounted(home)
    requires Moved(s, ev).Some? && !ev.Enqueue?
    ensures var id := Moved(s, ev).value.0;
      id in home && Work(Next(s, ev), HomeNext(s, home, ev)[id]) < Work(s, home[id])
  {
    hide Delay, Lists, Matured, Stale, ScoreOrder, PendingSits, RetrySits, RunningSits, WorkersSit;
    MovedFrom(s, home, ev);
    var id := Moved(s, ev).value.0;
    assert Found(s, id, home[id]) && PlaceCounted(home[id]);
  }

  lemma OthersKeepWork(s: State, home: map<string, Place>, ev: Event, id: string)
    requires Enabled(s, ev) && Settled(s, home) && FaultFree(ev) && id in home
    requires Moved(s, ev).Some? ==> Moved(s, ev).value.0 != id
    ensures id in HomeNext(s, home, ev) && Work(Next(s, ev), HomeNext(s, home, ev)[id]) <= Work(s, home[id])
    ensures (ev.Handle? || ev.Raise?) && id == Of(s, ev.w).task.id ==>
      Work(Next(s, ev), HomeNext(s, home, ev)[id]) < Work(s, home[id])
    ensures ev.Promote? && home[id].AtRetry? && home[id].task in ev.order ==>
      Work(Next(s, ev), HomeNext(s, home, ev)[id]) < Work(s, home[id])
  {
    hide Delay, ScoreOrder, PendingSits, RetrySits, RunningSits, Promoted;
    assert Found(s, id, home[id]);
    if ev.Handle? || ev.Raise? {
      assert WorkerSits(home, ev.w, s.workers[ev.w]);
    }
  }

  lemma WorkedLoses(s: State, home: map<string, Place>, ev: Event)
    requires Settled(s, home) && FaultFree(ev) && HomesCounted(home) && Effective(s, ev)
    ensures var id := Worked(s, ev);
      id in home && id in HomeNext(s, home, ev) && Work(Next(s, ev), HomeNext(s, home, ev)[id]) < Work(s, home[id])
  {
    hide Delay, Matured, ScoreOrder, PendingSits, RunningSits, AllFound, Next, Work, HomeNext;
    var id := Worked(s, ev);
    if Moved(s, ev).Some? {
      MoverWorks(s, home, ev);
      MoverStays(s, home, ev);
    } else if ev.Promote? {
      PromotedSits(s, home, ev);
      OthersKeepWork(s, home, ev, id);
    } else {
      assert WorkerSits(home, ev.w, s.workers[ev.w]);
      OthersKeepWork(s, home, ev, id);
    }
  }

  lemma MoverStays(s: State, home: map<string, Place>, ev: Event)
    requires Enabled(s, ev) && Moved(s, ev).Some?
    ensures Moved(s, ev).value.0 in HomeNext(s, home, ev)
  {
  }

  lemma PromotedSits(s: State, home: map<string, Place>, ev: Event)
    requires Enabled(s, ev) && Settled(s, home) && ev.Promote? && ev.order != []
    ensures Sits(home, ev.order[0].id, AtRetry(ev.order[0])) && ev.order[0] in ev.order
  {
  }

  // ----- whole runs -------------------------------------------------------------------------------------

  ghost predicate NoneGains(s: State, home: map<string, Place>, s': State, home': map<string, Place>) {
    forall id :: id in home ==> WorkOf(s', home', id) <= WorkOf(s, home, id)
  }

  lemma StepGainsNothing(s: State, home: map<string, Place>, ev: Event)
    requires Enabled(s, ev) && Settled(s, home) && FaultFree(ev) && HomesCounted(home)
    ensures NoneGains(s, home, Next(s, ev), HomeNext(s, home, ev))
  {
    hide Settled, Next, HomeNext, Work, Enabled, FaultFree, HomesCounted, Moved;
    forall id | id in home ensures WorkOf(Next(s, ev), HomeNext(s, home, ev), id) <= WorkOf(s, home, id) {
      if Moved(s, ev).Some? && Moved(s, ev).value.0 == id {
        NewIdsAreNew(s, home, ev);
        MoverWorks(s, home, ev);
        MoverStays(s, home, ev);
      } else {
        OthersKeepWork(s, home, ev, id);
      }
    }
  }

  lemma NewIdsAreNew(s: State, home: map<string, Place>, ev: Event)
    requires Enabled(s, ev) && Settled(s, home) && Moved(s, ev).Some?
    ensures ev.Enqueue? ==> Moved(s, ev).value.0 !in home
  {
    MovedFrom(s, home, ev);
  }

  lemma {:induction false} TotalFalls(tasks: seq<Task>, s: State, home: map<string, Place>, s': State, home': map<string, Place>,
                                      id: string)
    requires forall i :: 0 <= i < |tasks| ==> tasks[i].id in home
    requires NoneGains(s, home, s', home')
    ensures TotalWork(tasks, s', home') <= TotalWork(tasks, s, home)
    ensures (exists i :: 0 <= i < |tasks| && tasks[i].id == id) && id in home && WorkOf(s', home', id) < WorkOf(s, home, id) ==>
      TotalWork(tasks, s', home') < TotalWork(tasks, s, home)
  {
    hide WorkOf;
    if tasks != [] {
      TotalFalls(tasks[..|tasks| - 1], s, home, s', home', id);
      assert tasks == tasks[..|tasks| - 1] + [tasks[|tasks| - 1]];
    }
  }

  lemma {:induction false} EnqueuedHaveHomes(trace: seq<Event>)
    requires FaultFreeRun(trace)
    ensures forall i :: 0 <= i < |Enqueued(trace)| ==> Enqueued(trace)[i].id in Home(trace)
    ensures forall id :: id in Home(trace) ==> exists i :: 0 <= i < |Enqueued(trace)| && Enqueued(trace)[i].id == id
  {
    hide Next, Settled;
    if trace != [] {
      var front, ev := trace[..|trace| - 1], trace[|trace| - 1];
      EnqueuedHaveHomes(front);
      FaultFreeIsClean(front);
      RunSettles(front);
      if Enabled(After(front), ev) {
        HomesGrow(After(front), Home(front), ev);
        if ev.Enqueue? {
          assert Enqueued(trace)[|Enqueued(front)|] == ev.task;
        }
      }
      assert Enqueued(front) <= Enqueued(trace);
      forall id | id in Home(front) ensures exists i :: 0 <= i < |Enqueued(trace)| && Enqueued(trace)[i].id == id {
        var i :| 0 <= i < |Enqueued(front)| && Enqueued(front)[i].id == id;
        assert Enqueued(trace)[i].id == id;
      }
    }
  }

  lemma HomesGrow(s: State, home: map<string, Place>, ev: Event)
    requires Enabled(s, ev) && Settled(s, home)
    ensures HomeNext(s, home, ev).Keys == home.Keys + if ev.Enqueue? then {ev.task.id} else {}
  {
    hide Delay, Lists, Matured, Stale, ScoreOrder, PendingSits, RetrySits, RunningSits, WorkersSit, AllFound;
    if Moved(s, ev).Some? {
      MovedFrom(s, home, ev);
    }
  }

  // What the enqueued tasks have used and still need never exceeds their budget.
  lemma {:induction false} WorkIsBounded(trace: seq<Event>)
    requires FaultFreeRun(trace)
    ensures EffectiveSteps(trace) + TotalWork(Enqueued(trace), After(trace), Home(trace)) <= Budget(Enqueued(trace))
  {
    hide Next, Enabled, Settled, HomesCounted, HomeNext, Effective, NoneGains, WorkOf, TotalWork, Budget;
    if trace == [] {
      NoWork();
    } else {
      var front, ev := trace[..|trace| - 1], trace[|trace| - 1];
      WorkIsBounded(front);
      assert FaultFree(ev);
      if Enabled(After(front), ev) {
        FaultFreeIsClean(front);
        RunSettles(front);
        RunHomesCounted(front);
        EnqueuedHaveHomes(front);
        StepIsPaid(Enqueued(front), After(front), Home(front), ev);
        NewTaskIsPaid(Enqueued(front), After(front), Home(front), ev);
      } else {
        IdleIsFree(After(front), ev);
      }
    }
  }

  lemma NoWork()
    ensures TotalWork([], INITIAL, map[]) == 0 == Budget([])
  {
  }

  lemma IdleIsFree(s: State, ev: Event)
    requires !Enabled(s, ev)
    ensures !Effective(s, ev)
  {
  }

  lemma {:induction false} StepIsPaid(tasks: seq<Task>, s: State, home: map<string, Place>, ev: Event)
    requires Enabled(s, ev) && Settled(s, home) && FaultFree(ev) && HomesCounted(home)
    requires forall i :: 0 <= i < |tasks| ==> tasks[i].id in home
    requires forall id :: id in home ==> exists i :: 0 <= i < |tasks| && tasks[i].id == id
    ensures TotalWork(tasks, Next(s, ev), HomeNext(s, home, ev)) + (if Effective(s, ev) then 1 else 0) <= TotalWork(tasks, s, home)
  {
    hide Next, Enabled, Settled, HomesCounted, HomeNext, Effective, NoneGains, Work, TotalWork;
    StepGainsNothing(s, home, ev);
    if Effective(s, ev) {
      WorkedLoses(s, home, ev);
      TotalFalls(tasks, s, home, Next(s, ev), HomeNext(s, home, ev), Worked(s, ev));
    } else {
      TotalFalls(tasks, s, home, Next(s, ev), HomeNext(s, home, ev), "");
    }
  }

  lemma NewTaskIsPaid(tasks: seq<Task>, s: State, home: map<string, Place>, ev: Event)
    requires Enabled(s, ev)
    ensures ev.Enqueue? ==>
      && TotalWork(tasks + [ev.task], Next(s, ev), HomeNext(s, home, ev))
           == TotalWork(tasks, Next(s, ev), HomeNext(s, home, ev)) + 6 * Max1(ev.task.maxAttempts) - 2
      && Budget(tasks + [ev.task]) == Budget(tasks) + 6 * Max1(ev.task.maxAttempts) - 2
  {
    if ev.Enqueue? {
      assert (tasks + [ev.task])[..|tasks|] == tasks;
    }
  }

  lemma {:induction false} WorkNonNegative(tasks: seq<Task>, s: State, home: map<string, Place>)
    requires HomesCounted(home)
    ensures TotalWork(tasks, s, home) >= 0
  {
    if tasks != [] {
      WorkNonNegative(tasks[..|tasks| - 1], s, home);
      var id := tasks[|tasks| - 1].id;
      assert id in home ==> PlaceCounted(home[id]);
    }
  }

  // However long a fault-free run goes on, claims, completions, failures, reschedulings and
  // promotions together are at most six per allowed attempt, less two, of each task enqueued.
  lemma EffectiveStepsAreBounded(trace: seq<Event>)
    requires FaultFreeRun(trace)
    ensures EffectiveSteps(trace) <= Budget(Enqueued(trace))
  {
    WorkIsBounded(trace);
    RunHomesCounted(trace);
    WorkNonNegative(Enqueued(trace), After(trace), Home(trace));
  }

  // ----- progress -------------------------------------------------------------------------------------------

  ghost predicate NoneCrashed(s: State) {
    forall w :: w in s.workers ==> !s.workers[w].Crashed?
  }

  lemma {:induction false} RunNoneCrashed(trace: seq<Event>)
    requires FaultFreeRun(trace)
    ensures NoneCrashed(After(trace))
  {
    hide Next, Enabled, NoneCrashed;
    if trace == [] {
      NobodyCrashed();
    } else {
      assert FaultFree(trace[|trace| - 1]);
      RunNoneCrashed(trace[..|trace| - 1]);
      if Enabled(After(trace[..|trace| - 1]), trace[|trace| - 1]) {
        NextNoneCrashed(After(trace[..|trace| - 1]), trace[|trace| - 1]);
      }
    }
  }

  lemma NobodyCrashed()
    ensures NoneCrashed(INITIAL)
  {
  }

  lemma NextNoneCrashed(s: State, ev: Event)
    requires Enabled(s, ev) && FaultFree(ev) && NoneCrashed(s)
    ensures NoneCrashed(Next(s, ev))
  {
    hide Delay, Lists, Matured, Stale, ScoreOrder, Promoted, Requeued;
  }

  // A record of the retry set that is due first.
  lemma {:induction false} FirstDue(records: set<Task>, retry: map<Task, int>) returns (t: Task)
    requires records != {} && forall u :: u in records ==> u in retry
    ensures t in records && forall u :: u in records ==> retry[t] <= retry[u]
    decreases records
  {
    var u :| u in records;
    if records == {u} {
      t := u;
    } else {
      var v := FirstDue(records - {u}, retry);
      t := if retry[u] <= retry[v] then u else v;
    }
  }

  lemma {:induction false} SortedListing(records: set<Task>, retry: map<Task, int>) returns (order: seq<Task>)
    requires forall u :: u in records ==> u in retry
    ensures Lists(order, records) && ScoreOrder(order, retry)
    decreases records
  {
    if records == {} {
      order := [];
    } else {
      var t := FirstDue(records, retry);
      var rest := SortedListing(records - {t}, retry);
      order := [t] + rest;
      assert forall i :: 0 < i < |order| ==> order[i] == rest[i - 1];
      assert forall u :: u in rest ==> u in order;
      assert records == records - {t} + {t};
    }
  }

  // What is due first can be promoted once the clock has reached it.
  lemma PromoteFirst(s: State) returns (now: int, order: seq<Task>)
    requires s.retry != map[]
    ensures s.now <= now && order != [] && Enabled(s.(now := now), Promote(order, now))
    ensures forall t :: t in s.retry ==> now <= s.now || now <= s.retry[t]
  {
    hide Delay;
    assert s.retry.Keys != {};
    var t := FirstDue(s.retry.Keys, s.retry);
    now := if s.retry[t] > s.now then s.retry[t] else s.now;
    order := SortedListing(Matured(s.retry, now), s.retry);
    assert t in Matured(s.retry, now);
  }

  // A worker that holds a task can go on with it.
  lemma Resume(s: State, w: nat) returns (now: int, ev: Event)
    requires w in s.workers && !s.workers[w].Idle? && !s.workers[w].Crashed?
    ensures s.now <= now && FaultFree(ev) && Effective(s.(now := now), ev)
  {
    hide Delay, Lists, Matured, Stale, ScoreOrder;
    now := s.now;
    match s.workers[w]
    case InHand(_, since) =>
      now := if since > s.now then since else s.now;
      ev := Claim(w, now);
    case Busy(_, verdict) =>
      ev := if verdict.Undecided? then Handle(w) else if verdict.Handled? then Complete(w, true) else Release(w, true);
    case Rescheduling(_, since) =>
      now := if since > s.now then since else s.now;
      ev := Reschedule(w, now, true);
  }

  // As long as a fault-free run has not come to rest, it can do another effective step, at the
  // latest when the clock has reached the next retry.
  lemma Progress(s: State) returns (now: int, ev: Event)
    requires NoneCrashed(s) && !Quiet(s)
    ensures s.now <= now && FaultFree(ev) && Effective(s.(now := now), ev)
    ensures (forall w :: w in s.workers ==> s.workers[w].Idle?) ==>
      (if s.pending != [] then now == s.now else forall t :: t in s.retry ==> now <= s.now || now <= s.retry[t])
  {
    hide Delay, Lists, Matured, Stale, ScoreOrder;
    if w :| w in s.workers && !s.workers[w].Idle? {
      now, ev := Resume(s, w);
    } else if s.pending != [] {
      now, ev := s.now, Pop(0);
    } else {
      var order;
      now, order := PromoteFirst(s);
      ev := Promote(order, now);
    }
  }

  // What one more step adds to the accounts of a run.
  lemma Append(trace: seq<Event>, ev: Event)
    requires Enabled(After(trace), ev) && !ev.Enqueue?
    ensures var longer := trace + [ev];
      && After(longer) == Next(After(trace), ev) && Enqueued(longer) == Enqueued(trace)
      && EffectiveSteps(longer) == EffectiveSteps(trace) + (if Effective(After(trace), ev) then 1 else 0)
      && (FaultFreeRun(trace) && FaultFree(ev) ==> FaultFreeRun(longer))
  {
    hide Next, Enabled, Effective;
    assert (trace + [ev])[..|trace|] == trace;
  }

  lemma EnqueuedStays(s: State, ev: Event)
    requires Enabled(s, ev) && !ev.Enqueue?
    ensures Next(s, ev).enqueued == s.enqueued
  {
    hide Delay, Lists, Matured, Stale, ScoreOrder;
  }

  lemma OneMore(trace: seq<Event>, now: int, ev: Event)
    requires FaultFreeRun(trace) && After(trace).now <= now && FaultFree(ev) && Effective(After(trace).(now := now), ev)
    ensures var longer := trace + [Tick(now)] + [ev];
      && FaultFreeRun(longer) && EffectiveSteps(longer) == EffectiveSteps(trace) + 1
      && Enqueued(longer) == Enqueued(trace) && After(longer).enqueued == After(trace).enqueued
  {
    hide After, EffectiveSteps, Enqueued, FaultFreeRun;
    Append(trace, Tick(now));
    Append(trace + [Tick(now)], ev);
    EnqueuedStays(After(trace + [Tick(now)]), ev);
  }

  // Every fault-free run can be continued, without new tasks, until it has come to rest; by then
  // each of its tasks has been handled or has used up its attempts.
  lemma {:induction false} ComesToRest(trace: seq<Event>) returns (longer: seq<Event>)
    requires FaultFreeRun(trace)
    ensures trace <= longer && FaultFreeRun(longer) && Quiet(After(longer)) && Enqueued(longer) == Enqueued(trace)
    ensures forall id :: id in After(trace).enqueued ==> Ended(After(longer), id)
    decreases Budget(Enqueued(trace)) - EffectiveSteps(trace)
  {
    hide Next, Quiet, FaultFreeRun, Effective, Enabled, Ended, Budget;
    EffectiveStepsAreBounded(trace);
    if Quiet(After(trace)) {
      longer := trace;
      forall id | id in After(trace).enqueued ensures Ended(After(longer), id) {
        QuietMeansFinished(trace, id);
      }
    } else {
      RunNoneCrashed(trace);
      var now, ev := Progress(After(trace));
      OneMore(trace, now, ev);
      EffectiveStepsAreBounded(trace + [Tick(now)] + [ev]);
      longer := ComesToRest(trace + [Tick(now)] + [ev]);
    }
  }
}
