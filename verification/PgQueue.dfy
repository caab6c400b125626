// PgTaskQueue (server/task_queue.py): one table row per task, every committed statement one
// atomic step. There is no reaper, so what holds and what fails differs from the Redis queue.
module PgQueue {
  import opened Text
  import TaskLife

  datatype Status = Pending | Retry | Running | Completed | Failed

  datatype Row = Row(kind: string, payload: string, status: Status, attempts: int, maxAttempts: int, scheduledAt: int,
                     lockedAt: Option<int>, error: Option<string>, completedAt: Option<int>)

  // What claim_next hands to the worker.
  datatype Claim = Claim(id: nat, kind: string, payload: string, attempts: int, maxAttempts: int)

  // A transaction commits and says so, commits unseen, or does not commit.
  datatype Outcome = Answered | Unseen | Refused

  predicate Claimable(r: Row, now: int) {
    (r.status.Pending? || r.status.Retry?) && r.scheduledAt <= now
  }

  // A row waits when nobody is at work on it and it has not ended.
  ghost predicate Due(r: Row, now: int) {
    !r.status.Running? && !r.status.Completed? && !r.status.Failed? && !(r.scheduledAt > now)
  }

  function Taken(r: Row, now: int): Row {
    r.(status := Running, lockedAt := Some(now), attempts := r.attempts + 1)
  }

  function Done(r: Row, now: int): Row {
    r.(status := Completed, error := None, completedAt := Some(now))
  }

  // The row after fail(), which decides by the counts of the claimed task.
  function Given(r: Row, c: Claim, error: string, now: int): Row {
    if c.attempts < c.maxAttempts then
      r.(status := Retry, lockedAt := None, scheduledAt := now + TaskLife.Delay(c.attempts), error := Some(error))
    else r.(status := Failed, error := Some(error))
  }

  function ClaimOf(id: nat, r: Row): Claim {
    Claim(id, r.kind, r.payload, r.attempts, r.maxAttempts)
  }

  // SMALLINT
  predicate Fits(n: int) {
    -32768 <= n < 32768
  }

  function NewRow(kind: string, payload: string, maxAttempts: int, now: int): Row {
    Row(kind, payload, Pending, 0, maxAttempts, now, None, None, None)
  }

  // The row the claiming statement selects: due, not locked by another claim, earliest first.
  ghost predicate Selected(rows: map<nat, Row>, locked: set<nat>, now: int, id: nat) {
    && id in rows && id !in locked && Claimable(rows[id], now)
    && forall other :: other in rows && other !in locked && Claimable(rows[other], now) ==>
         rows[id].scheduledAt <= rows[other].scheduledAt
  }

  // ----- any number of workers, crashing at any time ----------------------------------------------

  datatype State = State(rows: map<nat, Row>, workers: map<nat, Claim>, now: int, failures: set<(nat, int, int)>)

  // `workers` holds the live workers at work. Outcomes: the statement is applied or not.
  datatype Event =
    | Tick(to: int)
    | Insert(id: nat, kind: string, payload: string, maxAttempts: int)
    | Take(w: nat, id: nat, locked: set<nat>)
    | TakeUnseen(id: nat, locked: set<nat>)
    | Finish(w: nat, applied: bool)
    | GiveUp(w: nat, error: string, applied: bool)
    | Crash(w: nat)

  const INITIAL := State(map[], map[], 0, {})

  ghost predicate Enabled(s: State, ev: Event) {
    match ev
    case Tick(to) => s.now <= to
    case Insert(id, _, _, max) => id !in s.rows && Fits(max)
    case Take(w, id, locked) => w !in s.workers && Selected(s.rows, locked, s.now, id)
    case TakeUnseen(id, locked) => Selected(s.rows, locked, s.now, id)
    case Finish(w, _) => w in s.workers
    case GiveUp(w, _, _) => w in s.workers
    case Crash(w) => w in s.workers
  }

  ghost function Change(rows: map<nat, Row>, id: nat, r: Row, applied: bool): map<nat, Row> {
    if applied then rows[id := r] else rows
  }

  ghost function RowOf(s: State, w: nat): Row
    requires w in s.workers
  {
    var c := s.workers[w];
    if c.id in s.rows then s.rows[c.id] else NewRow("", "", 0, 0)
  }

  ghost function Next(s: State, ev: Event): State
    requires Enabled(s, ev)
  {
    match ev
    case Tick(to) => s.(now := to)
    case Insert(id, kind, payload, max) => s.(rows := s.rows[id := NewRow(kind, payload, max, s.now)])
    case Take(w, id, _) =>
      var r := Taken(s.rows[id], s.now);
      s.(rows := s.rows[id := r], workers := s.workers[w := ClaimOf(id, r)])
    case TakeUnseen(id, _) => s.(rows := s.rows[id := Taken(s.rows[id], s.now)])
    case Finish(w, applied) =>
      s.(rows := Change(s.rows, s.workers[w].id, Done(RowOf(s, w), s.now), applied), workers := s.workers - {w})
    case GiveUp(w, error, applied) =>
      var c := s.workers[w];
      s.(rows := Change(s.rows, c.id, Given(RowOf(s, w), c, error, s.now), applied), workers := s.workers - {w},
         failures := s.failures + {(c.id, c.attempts, s.now)})
    case Crash(w) => s.(workers := s.workers - {w})
  }

  ghost function Apply(s: State, ev: Event): State {
    if Enabled(s, ev) then Next(s, ev) else s
  }

  ghost function After(trace: seq<Event>): State {
    if trace == [] then INITIAL else Apply(After(trace[..|trace| - 1]), trace[|trace| - 1])
  }

  // ----- the code, on the table of the protocol ------------------------------------------------------

  ghost predicate Takes(s: State, step: Option<Event>) {
    step.Some? ==> Enabled(s, step.value)
  }

  ghost function Do(s: State, step: Option<Event>): State
    requires Takes(s, step)
  {
    if step.Some? then Next(s, step.value) else s
  }

  lemma NonEmpty(ids: set<nat>)
    requires ids != {}
    ensures exists id :: id in ids
  {
  }

  class PgTaskQueue {
    var rows: map<nat, Row>
    var nextId: nat

    constructor ()
      ensures rows == map[] && nextId == 1
    {
      rows, nextId := map[], 1;
    }

    ghost predicate Valid()
      reads this
    {
      forall id :: id in rows ==> id < nextId
    }

    // The table of this protocol state.
    ghost predicate Shows(s: State)
      reads this
    {
      rows == s.rows
    }

    method Enqueue(kind: string, payload: string, maxAttempts: int, now: int, outcome: Outcome, ghost s: State)
      returns (id: Option<nat>, ghost step: Option<Event>)
      requires Valid() && Shows(s) && now == s.now
      modifies this
      ensures Valid() && Takes(s, step) && Shows(Do(s, step))
      ensures step == if outcome == Refused || !Fits(maxAttempts) then None
                      else Some(Insert(old(nextId), kind, payload, maxAttempts))
      ensures if outcome == Refused || !Fits(maxAttempts) then rows == old(rows) && id == None
              else rows == old(rows)[old(nextId) := NewRow(kind, payload, maxAttempts, now)] && old(nextId) !in old(rows)
      ensures id.Some? ==> outcome == Answered && id.value == old(nextId)
      ensures id.Some? ==>
        && id.value in rows && rows[id.value].status.Pending? && rows[id.value].attempts == 0
        && rows[id.value].maxAttempts == maxAttempts && rows[id.value].scheduledAt == now
    {
      if outcome == Refused || !(-32768 <= maxAttempts < 32768) {
        return None, None;
      }
      step := Some(Insert(nextId, kind, payload, maxAttempts));
      rows := rows[nextId := Row(kind, payload, Pending, 0, maxAttempts, now, None, None, None)];
      nextId := nextId + 1;
      id := if outcome == Answered then Some(nextId - 1) else None;
    }

    // The table's ids in some order.
    method AllIds() returns (ids: seq<nat>)
      ensures forall id :: id in ids <==> id in rows
    {
      ids := [];
      var rest := rows.Keys;
      while rest != {}
        invariant rest <= rows.Keys && forall id :: id in rows <==> id in ids || id in rest
        decreases rest
      {
        NonEmpty(rest);
        var id :| id in rest;
        ids, rest := ids + [id], rest - {id};
      }
    }

    method SelectNext(locked: set<nat>, now: int) returns (best: Option<nat>)
      ensures best.Some? ==> Selected(rows, locked, now, best.value)
      ensures best == None ==> forall id :: id in rows && id !in locked ==> !Claimable(rows[id], now)
      ensures best.Some? <==> exists id :: id in rows && id !in locked && Due(rows[id], now)
      ensures best.Some? ==> best.value in rows && best.value !in locked && Due(rows[best.value], now)
      ensures best.Some? ==> forall id :: id in rows && id !in locked && Due(rows[id], now) ==>
        rows[best.value].scheduledAt <= rows[id].scheduledAt
    {
      best := None;
      var ids := AllIds();
      var i := 0;
      while i < |ids|
        invariant 0 <= i <= |ids| && forall k :: 0 <= k < |ids| ==> ids[k] in rows
        invariant best.Some? ==> best.value in rows && best.value !in locked && Claimable(rows[best.value], now)
        invariant forall k :: 0 <= k < i && ids[k] in rows && ids[k] !in locked && Claimable(rows[ids[k]], now) ==>
          best.Some? && rows[best.value].scheduledAt <= rows[ids[k]].scheduledAt
      {
        var id := ids[i];
        if id !in locked && Claimable(rows[id], now)
          && (best == None || rows[id].scheduledAt < rows[best.value].scheduledAt) {
          best := Some(id);
        }
        i := i + 1;
      }
    }

    // `locked`: rows other claims hold at this moment, which are skipped.
    method ClaimNext(locked: set<nat>, now: int, outcome: Outcome, ghost w: nat, ghost s: State)
      returns (claim: Option<Claim>, ghost taken: Option<nat>, ghost step: Option<Event>)
      requires Valid() && Shows(s) && now == s.now && w !in s.workers
      modifies this
      ensures Valid() && nextId == old(nextId) && Takes(s, step) && Shows(Do(s, step)) && Do(s, step).now == s.now
      ensures step == match taken
                      case None => None
                      case Some(id) => if outcome == Answered then Some(Take(w, id, locked)) else Some(TakeUnseen(id, locked))
      ensures claim.Some? <==> w in Do(s, step).workers
      ensures claim.Some? ==> Do(s, step).workers[w] == claim.value
      ensures taken == None ==> rows == old(rows) && claim == None
      ensures taken == None && outcome != Refused ==> forall id :: id in rows && id !in locked ==> !Claimable(rows[id], now)
      ensures taken.Some? ==>
        && outcome != Refused && Selected(old(rows), locked, now, taken.value)
        && rows == old(rows)[taken.value := Taken(old(rows)[taken.value], now)]
        && claim == if outcome == Answered then Some(ClaimOf(taken.value, rows[taken.value])) else None
      ensures taken.Some? ==>
        && rows[taken.value].status.Running? && rows[taken.value].attempts == old(rows)[taken.value].attempts + 1
        && rows[taken.value].lockedAt == Some(now) && rows[taken.value].scheduledAt == old(rows)[taken.value].scheduledAt
      ensures claim.Some? ==>
        && claim.value.id == taken.value && claim.value.attempts == rows[taken.value].attempts
        && claim.value.maxAttempts == rows[taken.value].maxAttempts && claim.value.kind == rows[taken.value].kind
        && claim.value.payload == rows[taken.value].payload
    {
      claim, taken, step := None, None, None;
      var best := SelectNext(locked, now);
      if best == None || outcome == Refused {
        return;
      }
      var r := rows[best.value];
      rows := rows[best.value := r.(status := Running, lockedAt := Some(now), attempts := r.attempts + 1)];
      taken := best;
      step := if outcome == Answered then Some(Take(w, best.value, locked)) else Some(TakeUnseen(best.value, locked));
      if outcome == Answered {
        claim := Some(Claim(best.value, r.kind, r.payload, r.attempts + 1, r.maxAttempts));
      }
    }

    method Complete(id: nat, now: int, outcome: Outcome, ghost w: nat, ghost s: State) returns (ghost step: Event)
      requires Valid() && Shows(s) && now == s.now && w in s.workers && s.workers[w].id == id && id in rows
      modifies this
      ensures Valid() && nextId == old(nextId) && Enabled(s, step) && Shows(Next(s, step))
      ensures step == Finish(w, outcome != Refused)
      ensures rows == if outcome != Refused && id in old(rows) then old(rows)[id := Done(old(rows)[id], now)] else old(rows)
      ensures outcome != Refused ==> rows[id].status.Completed? && rows[id].completedAt == Some(now) && rows[id].error == None
    {
      step := Finish(w, outcome != Refused);
      if outcome != Refused && id in rows {
        rows := rows[id := rows[id].(status := Completed, error := None, completedAt := Some(now))];
      }
    }

    method Fail(id: nat, task: Claim, error: string, now: int, outcome: Outcome, ghost w: nat, ghost s: State)
      returns (ghost step: Event)
      requires Valid() && Shows(s) && now == s.now && task.attempts >= 1
      requires w in s.workers && s.workers[w] == task && task.id == id && id in rows
      modifies this
      ensures Valid() && nextId == old(nextId) && Enabled(s, step) && Shows(Next(s, step))
      ensures step == GiveUp(w, error, outcome != Refused)
      ensures rows ==
        if outcome != Refused && id in old(rows) then old(rows)[id := Given(old(rows)[id], task, error, now)] else old(rows)
      ensures outcome != Refused ==> rows[id].error == Some(error) && rows[id].attempts == old(rows)[id].attempts
      ensures outcome != Refused && task.attempts < task.maxAttempts ==>
        rows[id].status.Retry? && rows[id].scheduledAt == now + 10_000_000 * TaskLife.Pow4(task.attempts - 1)
      ensures outcome != Refused && task.attempts >= task.maxAttempts ==> rows[id].status.Failed?
    {
      step := GiveUp(w, error, outcome != Refused);
      if outcome == Refused || id !in rows {
        return;
      }
      if task.attempts < task.maxAttempts {
        var power := 1;
        var i := 0;
        while i < task.attempts - 1
          invariant 0 <= i <= task.attempts - 1 && power == TaskLife.Pow4(i)
        {
          power, i := 4 * power, i + 1;
        }
        rows := rows[id := rows[id].(status := Retry, lockedAt := None,
                                     scheduledAt := now + 10 * TaskLife.SECOND * power, error := Some(error))];
      } else {
        rows := rows[id := rows[id].(status := Failed, error := Some(error))];
      }
    }
  }

  // ----- one row, one worker ------------------------------------------------------------------------

  ghost predicate WorkerOwns(s: State, w: nat)
    requires w in s.workers
  {
    var c := s.workers[w];
    c.id in s.rows && s.rows[c.id].status.Running? && c == ClaimOf(c.id, s.rows[c.id])
  }

  ghost predicate Owned(s: State) {
    && (forall w :: w in s.workers ==> WorkerOwns(s, w))
    && (forall v, w :: v in s.workers && w in s.workers && v != w ==> s.workers[v].id != s.workers[w].id)
  }

  ghost function LifeOf(r: Row): TaskLife.Life {
    match r.status
    case Pending => TaskLife.Waiting(r.attempts, r.maxAttempts)
    case Running => TaskLife.Active(r.attempts, r.maxAttempts)
    case Retry => TaskLife.Delayed(r.attempts, r.maxAttempts)
    case Completed => TaskLife.Completed
    case Failed => TaskLife.Failed
  }

  ghost predicate Scheduled(s: State) {
    forall id :: id in s.rows && s.rows[id].status.Retry? ==>
      (id, s.rows[id].attempts, s.rows[id].scheduledAt - TaskLife.Delay(s.rows[id].attempts)) in s.failures
  }

  lemma NextOwned(s: State, ev: Event)
    requires Enabled(s, ev) && Owned(s)
    ensures Owned(Next(s, ev))
  {
  }

  lemma NextScheduled(s: State, ev: Event)
    requires Enabled(s, ev) && Owned(s) && Scheduled(s)
    ensures Scheduled(Next(s, ev))
  {
    hide TaskLife.Delay;
  }

  // Any number of workers and crashes: a row being worked on has at most one live worker, and that
  // worker's copy of the counts is the row's.
  lemma {:induction false} RunOwned(trace: seq<Event>)
    ensures Owned(After(trace)) && Scheduled(After(trace))
  {
    hide Next, Enabled;
    if trace != [] {
      var s, ev := After(trace[..|trace| - 1]), trace[|trace| - 1];
      RunOwned(trace[..|trace| - 1]);
      if Enabled(s, ev) {
        NextOwned(s, ev);
        NextScheduled(s, ev);
      }
    }
  }

  // A step leaves a row's life alone or makes one move of it.
  lemma StepMoves(s: State, ev: Event, id: nat)
    requires Enabled(s, ev) && Owned(s) && id in s.rows
    ensures id in Next(s, ev).rows
    ensures var a, b := LifeOf(s.rows[id]), LifeOf(Next(s, ev).rows[id]); b == a || TaskLife.Moves(a, b)
  {
  }

  ghost function History(trace: seq<Event>, id: nat): seq<TaskLife.Life> {
    if trace == [] then []
    else
      var before := History(trace[..|trace| - 1], id);
      if id !in After(trace).rows then before
      else
        var life := LifeOf(After(trace).rows[id]);
        if before != [] && before[|before| - 1] == life then before else before + [life]
  }

  ghost predicate IsLife(h: seq<TaskLife.Life>) {
    |h| > 0 && h[0].Waiting? && TaskLife.Chain(h, h[0].maxAttempts)
  }

  lemma {:induction false} RunIsChain(trace: seq<Event>, id: nat)
    ensures id !in After(trace).rows ==> History(trace, id) == []
    ensures id in After(trace).rows ==>
      IsLife(History(trace, id)) && History(trace, id)[|History(trace, id)| - 1] == LifeOf(After(trace).rows[id])
  {
    hide TaskLife.Moves;
    if trace != [] {
      var front, ev := trace[..|trace| - 1], trace[|trace| - 1];
      RunIsChain(front, id);
      RunOwned(front);
      if Enabled(After(front), ev) {
        if id in After(front).rows {
          StepMoves(After(front), ev, id);
        }
      }
    }
  }

  // Every run, crashes and lost replies included: at most max(1, max_attempts) claims, boundedly
  // many moves, and at most 10 s * (4^(max_attempts - 1) - 1) / 3 of delay for each task.
  lemma PgTaskIsBounded(trace: seq<Event>, id: nat)
    requires id in After(trace).rows
    ensures var h := History(trace, id);
      && IsLife(h)
      && |h| - 1 <= 3 * TaskLife.Max1(h[0].maxAttempts) - 1
      && TaskLife.Dispatches(h) <= TaskLife.Max1(h[0].maxAttempts)
      && 3 * TaskLife.BackOff(h) <= 10 * TaskLife.SECOND * (TaskLife.Pow4(TaskLife.Max1(h[0].maxAttempts) - 1) - 1)
  {
    hide History, After, TaskLife.Chain, TaskLife.Dispatches, TaskLife.BackOff, TaskLife.Pow4;
    RunIsChain(trace, id);
    TaskLife.LifeIsBounded(History(trace, id), History(trace, id)[0].maxAttempts);
  }

  // The attempts of a row never pass max(1, max_attempts).
  lemma {:induction false} PgAttemptsAreBounded(trace: seq<Event>, id: nat)
    requires id in After(trace).rows && After(trace).rows[id].status.Running?
    ensures 1 <= After(trace).rows[id].attempts <= TaskLife.Max1(After(trace).rows[id].maxAttempts)
  {
    hide History, After, TaskLife.Chain, TaskLife.Dispatches, TaskLife.BackOff, TaskLife.DelaysSoFar;
    RunIsChain(trace, id);
    TaskLife.ChainAccounts(History(trace, id), History(trace, id)[0].maxAttempts);
  }

  // A task that failed on attempt n is claimed no earlier than that failure plus 10 s * 4^(n - 1).
  lemma {:induction false} PgRetriesWait(trace: seq<Event>, w: nat, id: nat, locked: set<nat>)
    requires Enabled(After(trace), Take(w, id, locked)) && After(trace).rows[id].status.Retry?
    ensures var s := After(trace); var n := s.rows[id].attempts;
      exists at :: (id, n, at) in s.failures && at + TaskLife.Delay(n) <= s.now
  {
    RunOwned(trace);
  }

  // ----- stranded rows ---------------------------------------------------------------------------------

  // Running, with no live worker on it.
  ghost predicate Stranded(s: State, id: nat) {
    id in s.rows && s.rows[id].status.Running? && forall w :: w in s.workers ==> s.workers[w].id != id
  }

  // The step after which a row is stranded: a crash at work, a claim nobody saw, a refused update.
  ghost predicate Strands(s: State, ev: Event, id: nat) {
    && Enabled(s, ev)
    && match ev
       case TakeUnseen(i, _) => i == id
       case Finish(w, applied) => !applied && s.workers[w].id == id
       case GiveUp(w, _, applied) => !applied && s.workers[w].id == id
       case Crash(w) => s.workers[w].id == id
       case _ => false
  }

  ghost predicate StrandedAlong(trace: seq<Event>, id: nat) {
    trace != [] &&
    (StrandedAlong(trace[..|trace| - 1], id) || Strands(After(trace[..|trace| - 1]), trace[|trace| - 1], id))
  }

  lemma OneStrands(s: State, ev: Event, id: nat, w: nat)
    requires Owned(s) && Enabled(s, ev) && w in s.workers && s.workers[w].id == id
    ensures Stranded(Next(s, ev), id) <==> Strands(s, ev, id)
  {
    hide TaskLife.Delay;
    var s' := Next(s, ev);
    assert WorkerOwns(s, w);
    if w in s'.workers {
      assert s'.workers[w] == s.workers[w];
    } else {
      assert ev.w == w && forall v :: v in s'.workers ==> v in s.workers && v != w;
    }
  }

  lemma NoneStrands(s: State, ev: Event, id: nat)
    requires Owned(s) && Enabled(s, ev) && forall w :: w in s.workers ==> s.workers[w].id != id
    ensures Stranded(Next(s, ev), id) <==> Stranded(s, id) || Strands(s, ev, id)
    ensures Stranded(s, id) ==> Next(s, ev).rows[id] == s.rows[id]
  {
    hide TaskLife.Delay;
    var s' := Next(s, ev);
    match ev
    case Take(w, i, _) =>
      assert w in s'.workers && s'.workers[w].id == i;
      assert forall v :: v in s'.workers && v != w ==> v in s.workers && s'.workers[v] == s.workers[v];
    case TakeUnseen(i, _) => assert s'.workers == s.workers;
    case Tick(_) => assert s'.workers == s.workers;
    case Insert(_, _, _, _) => assert s'.workers == s.workers;
    case _ => assert forall v :: v in s'.workers ==> v in s.workers && s'.workers[v] == s.workers[v];
  }

  lemma StepStrands(s: State, ev: Event, id: nat)
    requires Owned(s)
    ensures Stranded(Apply(s, ev), id) <==> Stranded(s, id) || Strands(s, ev, id)
    ensures Stranded(s, id) ==> Apply(s, ev).rows[id] == s.rows[id]
  {
    hide TaskLife.Delay;
    if Enabled(s, ev) {
      if w :| w in s.workers && s.workers[w].id == id {
        assert WorkerOwns(s, w) && forall v :: v in s.workers && v != w ==> s.workers[v].id != id;
        OneStrands(s, ev, id, w);
      } else {
        NoneStrands(s, ev, id);
      }
    }
  }

  // A row is stranded exactly if one of those steps happened to it; there is no way back.
  lemma {:induction false} StrandedExactly(trace: seq<Event>, id: nat)
    ensures Stranded(After(trace), id) <==> StrandedAlong(trace, id)
  {
    hide Next, Enabled, Strands, Stranded, Apply;
    if trace == [] {
      NothingStranded(id);
    } else {
      StrandedExactly(trace[..|trace| - 1], id);
      RunOwned(trace[..|trace| - 1]);
      StepStrands(After(trace[..|trace| - 1]), trace[|trace| - 1], id);
    }
  }

  lemma NothingStranded(id: nat)
    ensures !Stranded(INITIAL, id)
  {
  }

  // Nothing that happens later touches a stranded row.
  lemma {:induction false} StrandedForever(trace: seq<Event>, later: seq<Event>, id: nat)
    requires Stranded(After(trace), id)
    ensures Stranded(After(trace + later), id) && After(trace + later).rows[id] == After(trace).rows[id]
    decreases |later|
  {
    hide Next, Enabled, Strands, Stranded, Apply;
    if later == [] {
      assert trace + later == trace;
    } else {
      var front := trace + later[..|later| - 1];
      StrandedForever(trace, later[..|later| - 1], id);
      RunOwned(front);
      assert (trace + later)[..|trace + later| - 1] == front;
      StepStrands(After(front), later[|later| - 1], id);
    }
  }
}
