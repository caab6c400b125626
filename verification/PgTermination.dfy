// The worker loop over the PostgreSQL queue as code, and termination of its runs without faults.
module PgTermination {
  import opened Text
  import opened PgQueue
  import TaskLife

  lemma Append(trace: seq<Event>, ev: Event)
    ensures After(trace + [ev]) == Apply(After(trace), ev)
    ensures Enabled(After(trace), ev) ==> After(trace + [ev]) == Next(After(trace), ev)
  {
    assert (trace + [ev])[..|trace|] == trace;
  }

  // ----- the worker ----------------------------------------------------------------------------------

  // One pass of the loop: clock readings, the rows other claims hold, whether the handler raises
  // and with what, and the outcomes of the claiming and of the final transaction.
  datatype Round = Round(now: int, back: int, locked: set<nat>, raises: bool, error: string, claim: Outcome, update: Outcome)

  ghost function ClaimStep(w: nat, id: nat, r: Round): Event {
    if r.claim == Answered then Take(w, id, r.locked) else TakeUnseen(id, r.locked)
  }

  ghost function EndStep(w: nat, kind: string, r: Round, handlers: set<string>): Event {
    if kind in handlers && !r.raises then Finish(w, r.update != Refused)
    else GiveUp(w, if kind in handlers then r.error else "No handler for task_type '" + kind + "'", r.update != Refused)
  }

  class PgWorker {
    const queue: PgTaskQueue
    const w: nat
    var handlers: set<string>

    constructor (queue: PgTaskQueue, w: nat)
      ensures this.queue == queue && this.w == w && handlers == {}
    {
      this.queue, this.w, handlers := queue, w, {};
    }

    method Register(kind: string)
      modifies this
      ensures handlers == old(handlers) + {kind}
    {
      handlers := handlers + {kind};
    }

    method Dispatch(task: Claim, r: Round, ghost trace: seq<Event>) returns (ghost longer: seq<Event>)
      requires queue.Valid() && queue.Shows(After(trace)) && After(trace).now <= r.back
      requires w in After(trace).workers && After(trace).workers[w] == task
      modifies queue
      ensures queue.Valid() && queue.Shows(After(longer)) && w !in After(longer).workers && After(longer).now == r.back
      ensures longer == trace + [Tick(r.back)] + [EndStep(w, task.kind, r, handlers)]
      ensures After(longer).workers == After(trace).workers - {w} && AllTaken(trace, longer)
    {
      hide After, History;
      ghost var ticked := trace + [Tick(r.back)];
      Append(trace, Tick(r.back));
      OwnedNow(ticked, w);
      ghost var step;
      if task.kind !in handlers {
        step := queue.Fail(task.id, task, "No handler for task_type '" + task.kind + "'", r.back, r.update, w, After(ticked));
      } else if r.raises {
        step := queue.Fail(task.id, task, r.error, r.back, r.update, w, After(ticked));
      } else {
        step := queue.Complete(task.id, r.back, r.update, w, After(ticked));
      }
      Append(ticked, step);
      longer := ticked + [step];
      TakenTwo(trace, Tick(r.back), Some(step));
    }

    method TakeOne(r: Round, ghost trace: seq<Event>)
      returns (claim: Option<Claim>, ghost longer: seq<Event>, ghost taken: Option<nat>)
      requires queue.Valid() && queue.Shows(After(trace)) && w !in After(trace).workers && After(trace).now <= r.now
      modifies queue
      ensures queue.Valid() && queue.Shows(After(longer)) && After(longer).now == r.now
      ensures After(longer).workers == if claim.Some? then After(trace).workers[w := claim.value] else After(trace).workers
      ensures taken == None && r.claim != Refused ==>
        forall id :: id in old(queue.rows) && id !in r.locked ==> !Claimable(old(queue.rows)[id], r.now)
      ensures taken.Some? ==> r.claim != Refused && Selected(old(queue.rows), r.locked, r.now, taken.value)
      ensures claim.Some? <==> taken.Some? && r.claim == Answered
      ensures claim.Some? ==> claim.value.kind == old(queue.rows)[taken.value].kind
      ensures longer == trace + [Tick(r.now)] + (if taken.Some? then [ClaimStep(w, taken.value, r)] else [])
      ensures AllTaken(trace, longer)
    {
      hide After;
      ghost var ticked := trace + [Tick(r.now)];
      Append(trace, Tick(r.now));
      ghost var step;
      claim, taken, step := queue.ClaimNext(r.locked, r.now, r.claim, w, After(ticked));
      longer := ticked;
      if step.Some? {
        Append(ticked, step.value);
        longer := ticked + [step.value];
      }
      TakenTwo(trace, Tick(r.now), step);
    }

    // One pass of the polling loop: claim a row and, if there was one, dispatch it.
    method Poll(r: Round, ghost trace: seq<Event>) returns (ghost longer: seq<Event>, ghost taken: Option<nat>)
      requires queue.Valid() && queue.Shows(After(trace)) && w !in After(trace).workers
      requires After(trace).now <= r.now <= r.back
      modifies queue
      ensures queue.Valid() && queue.Shows(After(longer)) && w !in After(longer).workers && After(longer).now <= r.back
      ensures taken == None && r.claim != Refused ==>
        forall id :: id in old(queue.rows) && id !in r.locked ==> !Claimable(old(queue.rows)[id], r.now)
      ensures taken.Some? ==> Selected(old(queue.rows), r.locked, r.now, taken.value)
      ensures longer == trace + [Tick(r.now)] +
        (if taken.Some? then [ClaimStep(w, taken.value, r)] else []) +
        (if taken.Some? && r.claim == Answered
         then [Tick(r.back)] + [EndStep(w, old(queue.rows)[taken.value].kind, r, handlers)] else [])
    {
      hide After, EndStep;
      var claim;
      claim, longer, taken := TakeOne(r, trace);
      if claim.Some? {
        ghost var claimed := longer;
        longer := Dispatch(claim.value, r, claimed);
        assert longer == trace + [Tick(r.now)] + [ClaimStep(w, taken.value, r)] +
          ([Tick(r.back)] + [EndStep(w, claim.value.kind, r, handlers)]);
      }
    }
  }

  // The run goes on, and every step that is added is enabled.
  ghost predicate AllTaken(trace: seq<Event>, longer: seq<Event>) {
    trace <= longer && forall i :: |trace| <= i < |longer| ==> Enabled(After(longer[..i]), longer[i])
  }

  lemma TakenTwo(trace: seq<Event>, first: Event, second: Option<Event>)
    requires Enabled(After(trace), first) && (second.Some? ==> Enabled(After(trace + [first]), second.value))
    ensures AllTaken(trace, trace + [first] + if second.Some? then [second.value] else [])
  {
    hide After, Enabled;
    var longer := trace + [first] + if second.Some? then [second.value] else [];
    assert longer[..|trace|] == trace;
    if second.Some? {
      assert longer[..|trace| + 1] == trace + [first];
    }
  }

  lemma OwnedNow(trace: seq<Event>, w: nat)
    requires w in After(trace).workers
    ensures var c := After(trace).workers[w]; c.id in After(trace).rows && c.attempts >= 1
  {
    hide History, After;
    RunOwned(trace);
    assert WorkerOwns(After(trace), w);
    PgAttemptsAreBounded(trace, After(trace).workers[w].id);
  }

  // ----- termination -----------------------------------------------------------------------------------

  // No crash, and every transaction commits and says so.
  ghost predicate FaultFree(ev: Event) {
    match ev
    case Finish(_, applied) => applied
    case GiveUp(_, _, applied) => applied
    case Tick(_) => true
    case Insert(_, _, _, _) => true
    case Take(_, _, _) => true
    case _ => false
  }

  ghost predicate FaultFreeRun(trace: seq<Event>) {
    forall i :: 0 <= i < |trace| ==> FaultFree(trace[i])
  }

  // A claim, a completion or a failure.
  ghost predicate Effective(s: State, ev: Event) {
    Enabled(s, ev) && (ev.Take? || ev.Finish? || ev.GiveUp?)
  }

  ghost function EffectiveSteps(trace: seq<Event>): nat {
    if trace == [] then 0
    else EffectiveSteps(trace[..|trace| - 1]) + if Effective(After(trace[..|trace| - 1]), trace[|trace| - 1]) then 1 else 0
  }

  // The ids inserted by a run, with what their lives may take.
  ghost function Inserted(trace: seq<Event>): seq<nat> {
    if trace == [] then []
    else
      var before, ev := Inserted(trace[..|trace| - 1]), trace[|trace| - 1];
      if ev.Insert? && Enabled(After(trace[..|trace| - 1]), ev) then before + [ev.id] else before
  }

  // A claim and its completion or failure for each attempt left, or the rest of this one.
  ghost function StepsLeft(life: TaskLife.Life): int {
    match life
    case Waiting(n, max) => 2 * (TaskLife.Max1(max) - n)
    case Active(n, max) => 2 * (TaskLife.Max1(max) - n) + 1
    case Delayed(n, max) => 2 * (TaskLife.Max1(max) - n)
    case _ => 0
  }

  ghost function Left(s: State, id: nat): int {
    if id in s.rows then StepsLeft(LifeOf(s.rows[id])) else 0
  }

  ghost function TotalLeft(ids: seq<nat>, s: State): int {
    if ids == [] then 0 else TotalLeft(ids[..|ids| - 1], s) + Left(s, ids[|ids| - 1])
  }

  ghost function Budget(trace: seq<Event>): int {
    if trace == [] then 0
    else
      var before, ev := Budget(trace[..|trace| - 1]), trace[|trace| - 1];
      if ev.Insert? && Enabled(After(trace[..|trace| - 1]), ev) then before + 2 * TaskLife.Max1(ev.maxAttempts) else before
  }

  ghost predicate RowsInBounds(s: State) {
    forall id :: id in s.rows ==> TaskLife.InBounds(LifeOf(s.rows[id]))
  }

  lemma {:induction false} RunInBounds(trace: seq<Event>)
    ensures RowsInBounds(After(trace))
  {
    hide After, History, TaskLife.Chain, TaskLife.Dispatches, TaskLife.BackOff, TaskLife.DelaysSoFar;
    forall id | id in After(trace).rows ensures TaskLife.InBounds(LifeOf(After(trace).rows[id])) {
      RunIsChain(trace, id);
      TaskLife.ChainAccounts(History(trace, id), History(trace, id)[0].maxAttempts);
    }
  }

  // A step takes from no row's measure but the one it moves, and an effective step takes some.
  lemma StepSpends(s: State, ev: Event, id: nat)
    requires Enabled(s, ev) && Owned(s) && RowsInBounds(s) && FaultFree(ev) && id in s.rows
    ensures id in Next(s, ev).rows && Left(Next(s, ev), id) <= Left(s, id)
    ensures Effective(s, ev) && id == (if ev.Take? then ev.id else s.workers[ev.w].id) ==> Left(Next(s, ev), id) < Left(s, id)
  {
    hide TaskLife.Delay;
    StepMoves(s, ev, id);
    var a, b := LifeOf(s.rows[id]), LifeOf(Next(s, ev).rows[id]);
    if TaskLife.Moves(a, b) {
      TaskLife.MoveDecreases(a, b);
    }
    if ev.Finish? || ev.GiveUp? {
      assert WorkerOwns(s, ev.w);
    }
  }

  lemma {:induction false} TotalFalls(ids: seq<nat>, s: State, ev: Event)
    requires Enabled(s, ev) && Owned(s) && RowsInBounds(s) && FaultFree(ev)
    requires forall i :: 0 <= i < |ids| ==> ids[i] in s.rows
    ensures TotalLeft(ids, Next(s, ev)) <= TotalLeft(ids, s)
    ensures Effective(s, ev) && (if ev.Take? then ev.id else s.workers[ev.w].id) in ids ==>
      TotalLeft(ids, Next(s, ev)) < TotalLeft(ids, s)
  {
    hide Next, Enabled, Owned, RowsInBounds, Left;
    if ids != [] {
      TotalFalls(ids[..|ids| - 1], s, ev);
      StepSpends(s, ev, ids[|ids| - 1]);
      assert ids == ids[..|ids| - 1] + [ids[|ids| - 1]];
    }
  }

  lemma {:induction false} InsertedAreRows(trace: seq<Event>)
    ensures forall id :: id in Inserted(trace) <==> id in After(trace).rows
  {
    hide Next, Enabled;
    if trace != [] {
      var front, ev := trace[..|trace| - 1], trace[|trace| - 1];
      InsertedAreRows(front);
      RunOwned(front);
      if Enabled(After(front), ev) {
        RowsGrow(After(front), ev);
      }
    }
  }

  lemma RowsGrow(s: State, ev: Event)
    requires Enabled(s, ev) && Owned(s)
    ensures Next(s, ev).rows.Keys == s.rows.Keys + if ev.Insert? then {ev.id} else {}
  {
    hide TaskLife.Delay;
    if ev.Finish? || ev.GiveUp? {
      assert WorkerOwns(s, ev.w);
    }
  }

  lemma {:induction false} WorkIsBounded(trace: seq<Event>)
    requires FaultFreeRun(trace)
    ensures EffectiveSteps(trace) + TotalLeft(Inserted(trace), After(trace)) <= Budget(trace)
  {
    hide Next, Enabled, Owned, RowsInBounds, Effective, TotalLeft, Left;
    if trace == [] {
      NothingLeft();
    } else {
      var front, ev := trace[..|trace| - 1], trace[|trace| - 1];
      WorkIsBounded(front);
      RunOwned(front);
      RunInBounds(front);
      InsertedAreRows(front);
      assert FaultFree(ev);
      if Enabled(After(front), ev) {
        StepIsPaid(Inserted(front), After(front), ev);
        NewRowIsPaid(Inserted(front), After(front), ev);
      } else {
        IdleIsFree(After(front), ev);
      }
    }
  }

  lemma NothingLeft()
    ensures TotalLeft([], INITIAL) == 0
  {
  }

  lemma IdleIsFree(s: State, ev: Event)
    requires !Enabled(s, ev)
    ensures !Effective(s, ev)
  {
  }

  lemma {:induction false} StepIsPaid(ids: seq<nat>, s: State, ev: Event)
    requires Enabled(s, ev) && Owned(s) && RowsInBounds(s) && FaultFree(ev)
    requires forall id :: id in ids <==> id in s.rows
    ensures TotalLeft(ids, Next(s, ev)) + (if Effective(s, ev) then 1 else 0) <= TotalLeft(ids, s)
  {
    hide Next, RowsInBounds, TotalLeft;
    TotalFalls(ids, s, ev);
    if ev.Finish? || ev.GiveUp? {
      assert WorkerOwns(s, ev.w);
    }
  }

  lemma NewRowIsPaid(ids: seq<nat>, s: State, ev: Event)
    requires Enabled(s, ev)
    ensures ev.Insert? ==>
      TotalLeft(ids + [ev.id], Next(s, ev)) == TotalLeft(ids, Next(s, ev)) + 2 * TaskLife.Max1(ev.maxAttempts)
  {
    if ev.Insert? {
      assert (ids + [ev.id])[..|ids|] == ids;
    }
  }

  lemma {:induction false} LeftNonNegative(ids: seq<nat>, s: State)
    requires RowsInBounds(s)
    ensures TotalLeft(ids, s) >= 0
  {
    if ids != [] {
      LeftNonNegative(ids[..|ids| - 1], s);
      var id := ids[|ids| - 1];
      assert id in s.rows ==> TaskLife.InBounds(LifeOf(s.rows[id]));
    }
  }

  // However long a fault-free run goes on, claims, completions and failures together are at most
  // 2 * max(1, max_attempts) per row inserted.
  lemma EffectiveStepsAreBounded(trace: seq<Event>)
    requires FaultFreeRun(trace)
    ensures EffectiveSteps(trace) <= Budget(trace)
  {
    WorkIsBounded(trace);
    RunInBounds(trace);
    LeftNonNegative(Inserted(trace), After(trace));
  }

  // ----- progress ----------------------------------------------------------------------------------------

  // Nobody is at work and nothing waits or is delayed.
  ghost predicate AtRest(s: State) {
    s.workers == map[] && forall id :: id in s.rows ==> !s.rows[id].status.Pending? && !s.rows[id].status.Retry?
  }

  lemma {:induction false} NeverStranded(trace: seq<Event>, id: nat)
    requires FaultFreeRun(trace)
    ensures !StrandedAlong(trace, id)
  {
    if trace != [] {
      assert FaultFree(trace[|trace| - 1]);
      NeverStranded(trace[..|trace| - 1], id);
    }
  }

  // When a fault-free run has come to rest every row is completed or failed.
  lemma RestMeansFinished(trace: seq<Event>, id: nat)
    requires FaultFreeRun(trace) && AtRest(After(trace)) && id in After(trace).rows
    ensures After(trace).rows[id].status.Completed? || After(trace).rows[id].status.Failed?
  {
    hide After, StrandedAlong, FaultFreeRun;
    NeverStranded(trace, id);
    StrandedExactly(trace, id);
  }

  ghost function WaitingRows(s: State): set<nat> {
    set id | id in s.rows && (s.rows[id].status.Pending? || s.rows[id].status.Retry?)
  }

  lemma {:induction false} FirstScheduled(ids: set<nat>, rows: map<nat, Row>) returns (id: nat)
    requires ids != {} && forall i :: i in ids ==> i in rows
    ensures id in ids && forall i :: i in ids ==> rows[id].scheduledAt <= rows[i].scheduledAt
    decreases ids
  {
    var u :| u in ids;
    if ids == {u} {
      id := u;
    } else {
      var v := FirstScheduled(ids - {u}, rows);
      id := if rows[u].scheduledAt <= rows[v].scheduledAt then u else v;
    }
  }

  // As long as it has not, it can do another effective step, at the latest when the clock has
  // reached the next scheduled time.
  lemma Progress(s: State) returns (now: int, ev: Event)
    requires !AtRest(s)
    ensures s.now <= now && FaultFree(ev) && Effective(s.(now := now), ev)
    ensures if s.workers != map[] then now == s.now
            else forall id :: id in s.rows && (s.rows[id].status.Pending? || s.rows[id].status.Retry?) ==>
              now <= s.now || now <= s.rows[id].scheduledAt
  {
    now := s.now;
    if w :| w in s.workers {
      ev := Finish(w, true);
    } else {
      assert s.workers == map[];
      var any :| any in s.rows && (s.rows[any].status.Pending? || s.rows[any].status.Retry?);
      assert any in WaitingRows(s);
      var id := FirstScheduled(WaitingRows(s), s.rows);
      now := if s.rows[id].scheduledAt > s.now then s.rows[id].scheduledAt else s.now;
      ev := Take(0, id, {});
      assert forall i :: i in s.rows && Claimable(s.rows[i], now) ==> i in WaitingRows(s);
    }
  }

  lemma Accounts(trace: seq<Event>, ev: Event)
    requires Enabled(After(trace), ev) && !ev.Insert?
    ensures var longer := trace + [ev];
      && After(longer) == Next(After(trace), ev) && Budget(longer) == Budget(trace)
      && EffectiveSteps(longer) == EffectiveSteps(trace) + (if Effective(After(trace), ev) then 1 else 0)
      && (FaultFreeRun(trace) && FaultFree(ev) ==> FaultFreeRun(longer))
  {
    hide Next, Enabled, Effective;
    assert (trace + [ev])[..|trace|] == trace;
  }

  lemma OneMore(trace: seq<Event>, now: int, ev: Event)
    requires FaultFreeRun(trace) && After(trace).now <= now && FaultFree(ev) && Effective(After(trace).(now := now), ev)
    ensures var longer := trace + [Tick(now)] + [ev];
      && FaultFreeRun(longer) && EffectiveSteps(longer) == EffectiveSteps(trace) + 1 && Budget(longer) == Budget(trace)
      && After(longer).rows.Keys == After(trace).rows.Keys
  {
    hide After, EffectiveSteps, Budget, FaultFreeRun;
    Accounts(trace, Tick(now));
    var ticked := trace + [Tick(now)];
    Accounts(ticked, ev);
    RunOwned(ticked);
    RowsGrow(After(ticked), ev);
  }

  // Every fault-free run can be continued until it has come to rest, with all its rows completed
  // or failed.
  lemma {:induction false} ComesToRest(trace: seq<Event>) returns (longer: seq<Event>)
    requires FaultFreeRun(trace)
    ensures trace <= longer && FaultFreeRun(longer) && AtRest(After(longer))
    ensures After(longer).rows.Keys == After(trace).rows.Keys
    ensures forall id :: id in After(longer).rows ==>
      After(longer).rows[id].status.Completed? || After(longer).rows[id].status.Failed?
    decreases Budget(trace) - EffectiveSteps(trace)
  {
    hide Next, AtRest, FaultFreeRun, Effective, Enabled, Budget;
    EffectiveStepsAreBounded(trace);
    if AtRest(After(trace)) {
      longer := trace;
      forall id | id in After(longer).rows
        ensures After(longer).rows[id].status.Completed? || After(longer).rows[id].status.Failed?
      {
        RestMeansFinished(trace, id);
      }
    } else {
      var now, ev := Progress(After(trace));
      OneMore(trace, now, ev);
      EffectiveStepsAreBounded(trace + [Tick(now)] + [ev]);
      longer := ComesToRest(trace + [Tick(now)] + [ev]);
    }
  }
}
