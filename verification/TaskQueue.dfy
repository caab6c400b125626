// RedisTaskQueue and TaskWorker (server/task_queue.py) step by step, each call proved to be a
// sequence of enabled steps of RedisProtocol on the same Redis contents.
module TaskQueue {
  import opened Text
  import opened TaskLife
  import opened RedisProtocol
  import RedisSafety

  // What becomes of one Redis command: done and answered, done with the reply lost, not done.
  datatype Outcome = Answered | Unseen | Refused

  ghost function Tasks(pending: seq<Entry>): (r: seq<Task>)
    ensures |r| == |pending| && forall i :: 0 <= i < |r| ==> r[i] == pending[i].task
  {
    if pending == [] then [] else [pending[0].task] + Tasks(pending[1..])
  }

  // The steps taken one after the other.
  ghost function Run(s: State, events: seq<Event>): State {
    if events == [] then s else Apply(Run(s, events[..|events| - 1]), events[|events| - 1])
  }

  ghost predicate AllEnabled(s: State, events: seq<Event>) {
    events != [] ==>
      && AllEnabled(s, events[..|events| - 1])
      && Enabled(Run(s, events[..|events| - 1]), events[|events| - 1])
  }

  lemma RunOne(s: State, events: seq<Event>, ev: Event)
    ensures Run(s, events + [ev]) == Apply(Run(s, events), ev)
    ensures AllEnabled(s, events) && Enabled(Run(s, events), ev) ==> AllEnabled(s, events + [ev])
  {
    assert (events + [ev])[..|events|] == events;
  }

  lemma RunFirst(s: State, ev: Event)
    ensures Run(s, []) == s && AllEnabled(s, [])
    ensures Run(s, [ev]) == Apply(s, ev) && (Enabled(s, ev) ==> AllEnabled(s, [ev]))
  {
    assert [ev][..0] == [];
  }

  lemma RunConcat(s: State, a: seq<Event>, b: seq<Event>)
    ensures Run(s, a + b) == Run(Run(s, a), b)
    ensures AllEnabled(s, a) && AllEnabled(Run(s, a), b) ==> AllEnabled(s, a + b)
    decreases |b|
  {
    hide Apply, Enabled;
    if b == [] {
      assert a + b == a;
    } else {
      RunConcat(s, a, b[..|b| - 1]);
      assert (a + b)[..|a + b| - 1] == a + b[..|b| - 1];
    }
  }

  // Steps taken after a run lengthen the run.
  lemma {:induction false} RunExtends(trace: seq<Event>, events: seq<Event>)
    ensures Run(After(trace), events) == After(trace + events)
  {
    hide Apply;
    if events == [] {
      assert trace + [] == trace;
    } else {
      RunExtends(trace, events[..|events| - 1]);
      assert (trace + events)[..|trace + events| - 1] == trace + events[..|events| - 1];
    }
  }

  class Redis {
    var pending: seq<Task>
    var retry: map<Task, int>
    var running: map<string, Task>

    constructor ()
      ensures Shows(INITIAL)
    {
      pending, retry, running := [], map[], map[];
    }

    ghost predicate Shows(s: State)
      reads this
    {
      pending == Tasks(s.pending) && retry == s.retry && running == s.running
    }

    // Records are filed under their own id, as HSET does it.
    ghost predicate Keyed()
      reads this
    {
      forall id :: id in running ==> running[id].id == id
    }

    method RangeByScore(cutoff: int) returns (matured: seq<Task>)
      ensures Lists(matured, Matured(retry, cutoff)) && ScoreOrder(matured, retry)
      ensures forall t :: t in matured <==> t in retry && retry[t] <= cutoff
      ensures forall i, j :: 0 <= i < j < |matured| ==> matured[i] != matured[j] && retry[matured[i]] <= retry[matured[j]]
    {
      matured := [];
      var rest := set t | t in retry && retry[t] <= cutoff;
      ghost var all := rest;
      while rest != {}
        invariant rest <= all && all == Matured(retry, cutoff)
        invariant Lists(matured, all - rest) && ScoreOrder(matured, retry)
        decreases rest
      {
        var t :| t in rest;
        var k := 0;
        while k < |matured| && retry[matured[k]] <= retry[t]
          invariant 0 <= k <= |matured|
          invariant forall i :: 0 <= i < k ==> retry[matured[i]] <= retry[t]
        {
          k := k + 1;
        }
        InsertLists(matured, all - rest, t, k);
        InsertOrders(matured, retry, t, k);
        matured := matured[..k] + [t] + matured[k..];
        assert all - rest + {t} == all - (rest - {t});
        rest := rest - {t};
      }
      assert all - rest == all;
    }

    // Promotion script: every matured record goes to the end of the pending list.
    method PromoteScript(cutoff: int) returns (ghost order: seq<Task>, count: int)
      modifies this
      ensures Lists(order, Matured(old(retry), cutoff)) && ScoreOrder(order, old(retry))
      ensures pending == old(pending) + order && retry == old(retry) - Matured(old(retry), cutoff) && running == old(running)
      ensures count == |order|
      ensures forall t :: t in old(retry) ==>
        if old(retry)[t] <= cutoff then t !in retry && t in pending[|old(pending)|..] else t in retry && retry[t] == old(retry)[t]
      ensures forall i, j :: |old(pending)| <= i < j < |pending| ==>
        pending[i] in old(retry) && pending[j] in old(retry) && old(retry)[pending[i]] <= old(retry)[pending[j]]
    {
      var matured := RangeByScore(cutoff);
      var i := 0;
      while i < |matured|
        invariant 0 <= i <= |matured| && running == old(running)
        invariant pending == old(pending) + matured[..i]
        invariant retry == old(retry) - Ids0(matured[..i])
      {
        assert matured[..i + 1] == matured[..i] + [matured[i]];
        pending := pending + [matured[i]];
        retry := retry - {matured[i]};
        i := i + 1;
      }
      assert matured[..i] == matured;
      assert Ids0(matured) == Matured(old(retry), cutoff);
      order, count := matured, |matured|;
    }

    // HGETALL, as the keys in whatever order it has.
    method AllKeys() returns (ids: seq<string>)
      ensures forall id :: id in ids <==> id in running
      ensures forall i, j :: 0 <= i < j < |ids| ==> ids[i] != ids[j]
    {
      ids := [];
      var rest := running.Keys;
      while rest != {}
        invariant rest <= running.Keys && forall id :: id in ids <==> id in running && id !in rest
        invariant forall i, j :: 0 <= i < j < |ids| ==> ids[i] != ids[j]
        decreases rest
      {
        var id :| id in rest;
        ids, rest := ids + [id], rest - {id};
      }
    }

    // Reaper script: every stale record of the running hash goes to the end of the pending list.
    method ReapScript(cutoff: int) returns (ghost order: seq<Task>, reaped: int)
      requires Keyed()
      modifies this
      ensures Lists(order, Stale(old(running), cutoff))
      ensures pending == old(pending) + order && running == old(running) - Ids(order) && retry == old(retry)
      ensures reaped == |order|
      ensures forall id :: id in old(running) ==> ReapedBefore(old(running)[id], cutoff, id, running, pending[|old(pending)|..])
    {
      hide Stale, Lists, Ids, StaleAmong;
      var ids := AllKeys();
      order, reaped := [], 0;
      StaleAmongNone(ids, running, cutoff);
      var i := 0;
      while i < |ids|
        invariant 0 <= i <= |ids| && retry == old(retry)
        invariant order == StaleAmong(ids[..i], old(running), cutoff) && reaped == |order|
        invariant pending == old(pending) + order
        invariant running == old(running) - Ids(order)
      {
        var id := ids[i];
        NotYetReaped(ids, i, old(running), cutoff);
        var t := running[id];
        StaleAmongNext(ids, i, old(running), cutoff);
        if t.claimedAt.Some? && t.claimedAt.value < cutoff {
          IdsGrow(order, t);
          running := running - {id};
          pending := pending + [t];
          reaped := reaped + 1;
          order := order + [t];
        }
        i := i + 1;
      }
      assert ids[..i] == ids;
      StaleAmongLists(ids, old(running), cutoff);
      ReapedMeans(old(running), order, cutoff);
      assert pending[|old(pending)|..] == order;
    }
  }

  // A record claimed before the cutoff is out of the running hash and among those pushed; any other
  // one stays as it is.
  ghost predicate ReapedBefore(t: Task, cutoff: int, id: string, running: map<string, Task>, pushed: seq<Task>) {
    if t.claimedAt.Some? && t.claimedAt.value < cutoff then id !in running && t in pushed
    else id in running && running[id] == t && t !in pushed
  }

  lemma ReapedMeans(running: map<string, Task>, order: seq<Task>, cutoff: int)
    requires Lists(order, Stale(running, cutoff)) && forall id :: id in running ==> running[id].id == id
    ensures forall id :: id in running ==> ReapedBefore(running[id], cutoff, id, running - Ids(order), order)
  {
    forall id | id in running ensures ReapedBefore(running[id], cutoff, id, running - Ids(order), order) {
      if running[id].claimedAt.Some? && running[id].claimedAt.value < cutoff {
        assert running[id] in Stale(running, cutoff);
      }
    }
  }

  // The stale records under these keys, in this order.
  ghost function StaleAmong(ids: seq<string>, running: map<string, Task>, cutoff: int): seq<Task> {
    if ids == [] then []
    else
      var before, id := StaleAmong(ids[..|ids| - 1], running, cutoff), ids[|ids| - 1];
      if id in running && StaleRecord(running[id], cutoff) then before + [running[id]] else before
  }

  lemma StaleAmongNone(ids: seq<string>, running: map<string, Task>, cutoff: int)
    ensures StaleAmong(ids[..0], running, cutoff) == [] && running - Ids([]) == running
  {
  }

  lemma StaleAmongNext(ids: seq<string>, i: nat, running: map<string, Task>, cutoff: int)
    requires i < |ids|
    ensures StaleAmong(ids[..i + 1], running, cutoff) == StaleAmong(ids[..i], running, cutoff) +
      if ids[i] in running && StaleRecord(running[ids[i]], cutoff) then [running[ids[i]]] else []
  {
    assert ids[..i + 1][..i] == ids[..i];
  }

  lemma {:induction false} StaleAmongMeans(ids: seq<string>, running: map<string, Task>, cutoff: int)
    requires forall id :: id in running ==> running[id].id == id
    requires forall i, j :: 0 <= i < j < |ids| ==> ids[i] != ids[j]
    ensures var r := StaleAmong(ids, running, cutoff);
      && (forall t :: t in r <==> t.id in ids && t.id in running && running[t.id] == t && StaleRecord(t, cutoff))
      && (forall i, j :: 0 <= i < j < |r| ==> r[i] != r[j])
  {
    if ids != [] {
      StaleAmongMeans(ids[..|ids| - 1], running, cutoff);
      assert ids == ids[..|ids| - 1] + [ids[|ids| - 1]];
    }
  }

  lemma {:induction false} NotYetReaped(ids: seq<string>, i: nat, running: map<string, Task>, cutoff: int)
    requires forall id :: id in running ==> running[id].id == id
    requires forall j, k :: 0 <= j < k < |ids| ==> ids[j] != ids[k]
    requires i < |ids|
    ensures ids[i] !in Ids(StaleAmong(ids[..i], running, cutoff))
  {
    var r := StaleAmong(ids[..i], running, cutoff);
    StaleAmongMeans(ids[..i], running, cutoff);
    forall j | 0 <= j < |r| ensures r[j].id != ids[i] {
      assert r[j] in r && r[j].id in ids[..i];
    }
  }

  lemma {:induction false} StaleAmongLists(ids: seq<string>, running: map<string, Task>, cutoff: int)
    requires forall id :: id in running ==> running[id].id == id
    requires forall i, j :: 0 <= i < j < |ids| ==> ids[i] != ids[j]
    requires forall id :: id in ids <==> id in running
    ensures Lists(StaleAmong(ids, running, cutoff), Stale(running, cutoff))
  {
    StaleAmongMeans(ids, running, cutoff);
    var r := StaleAmong(ids, running, cutoff);
    forall i | 0 <= i < |r| ensures r[i] in Stale(running, cutoff) {
      assert r[i] in r;
    }
  }

  ghost function Ids0(order: seq<Task>): set<Task> {
    set t | t in order
  }

  lemma IdsGrow(order: seq<Task>, t: Task)
    ensures Ids(order + [t]) == Ids(order) + {t.id}
  {
    var more := order + [t];
    assert more[|order|] == t;
    forall i | 0 <= i < |order| ensures order[i].id in Ids(more) {
      assert more[i] == order[i];
    }
  }

  lemma InsertLists(order: seq<Task>, records: set<Task>, t: Task, k: nat)
    requires Lists(order, records) && t !in records && k <= |order|
    ensures Lists(order[..k] + [t] + order[k..], records + {t})
  {
    var more := order[..k] + [t] + order[k..];
    assert forall i :: 0 <= i < k ==> more[i] == order[i];
    assert more[k] == t;
    assert forall i :: k < i < |more| ==> more[i] == order[i - 1];
    forall u | u in records ensures u in more {
      var i :| 0 <= i < |order| && order[i] == u;
      assert more[if i < k then i else i + 1] == u;
    }
    forall i | 0 <= i < |more| ensures more[i] in records + {t} {
      if i < k {
        assert more[i] == order[i];
      } else if i > k {
        assert more[i] == order[i - 1];
      }
    }
  }

  lemma InsertOrders(order: seq<Task>, retry: map<Task, int>, t: Task, k: nat)
    requires ScoreOrder(order, retry) && k <= |order| && t in retry && forall i :: 0 <= i < |order| ==> order[i] in retry
    requires forall i :: 0 <= i < k ==> retry[order[i]] <= retry[t]
    requires k < |order| ==> retry[order[k]] > retry[t]
    ensures ScoreOrder(order[..k] + [t] + order[k..], retry)
  {
    var more := order[..k] + [t] + order[k..];
    assert forall i :: 0 <= i < k ==> more[i] == order[i];
    assert forall i :: k < i < |more| ==> more[i] == order[i - 1];
  }

  lemma TasksAppend(a: seq<Entry>, b: seq<Entry>)
    ensures Tasks(a + b) == Tasks(a) + Tasks(b)
  {
  }

  lemma ReapEffect(s: State, order: seq<Task>, cutoff: int)
    requires Enabled(s, Reap(order, cutoff))
    ensures var s' := Apply(s, Reap(order, cutoff));
      && Tasks(s'.pending) == Tasks(s.pending) + order && s'.running == s.running - Ids(order) && s'.retry == s.retry
      && s'.workers == s.workers && s'.now == s.now
  {
    TasksAppend(s.pending, Requeued(order));
    assert Tasks(Requeued(order)) == order;
  }

  // The steps of a claim: pop, read the clock, file the stamped record.
  ghost function ClaimSteps(empty: bool, w: nat, stamp: int, popped: Outcome, filed: Outcome): seq<Event> {
    if empty || popped == Refused then []
    else if popped == Unseen then [PopUnseen]
    else [Pop(w), Tick(stamp), ClaimStep(w, stamp, filed)]
  }

  ghost function PopSteps(empty: bool, w: nat, popped: Outcome): seq<Event> {
    if empty || popped == Refused then []
    else if popped == Unseen then [PopUnseen]
    else [Pop(w)]
  }

  ghost function ClaimStep(w: nat, stamp: int, filed: Outcome): Event {
    match filed
    case Answered => Claim(w, stamp)
    case Unseen => ClaimUnseen(w, stamp)
    case Refused => ClaimRefused(w)
  }

  ghost function FailSteps(t: Task, w: nat, stamp: int, removed: Outcome, filed: Outcome): seq<Event> {
    [Release(w, removed != Refused)] +
    if t.attempts < t.maxAttempts then [Tick(stamp), Reschedule(w, stamp, filed != Refused)] else []
  }

  class RedisTaskQueue {
    const client: Redis

    constructor (client: Redis)
      ensures this.client == client
    {
      this.client := client;
    }

    // `outcome`: what becomes of the RPUSH.
    method Enqueue(id: string, kind: string, payload: string, maxAttempts: int, outcome: Outcome, ghost s: State)
      returns (queued: Option<string>, ghost events: seq<Event>)
      requires client.Shows(s) && id !in s.enqueued
      modifies client
      ensures AllEnabled(s, events) && client.Shows(Run(s, events))
      ensures id in Run(s, events).enqueued <==> outcome != Refused
      ensures events == if outcome == Refused then [] else [RedisProtocol.Enqueue(Task(id, kind, payload, 0, maxAttempts, None))]
      ensures queued == if outcome == Answered then Some(id) else None
    {
      hide Run, AllEnabled, Delay, Lists, Matured, Stale, ScoreOrder, Ids;
      var task := Task(id, kind, payload, 0, maxAttempts, None);
      events := [];
      RunFirst(s, RedisProtocol.Enqueue(task));
      queued := None;
      if outcome != Refused {
        client.pending := client.pending + [task];
        events := [RedisProtocol.Enqueue(task)];
        TasksAppend(s.pending, [Entry(task, New)]);
      }
      if outcome == Answered {
        queued := Some(id);
      }
    }

    method PromoteRetries(now: int, outcome: Outcome, ghost s: State) returns (ghost events: seq<Event>)
      requires client.Shows(s) && now <= s.now
      modifies client
      ensures AllEnabled(s, events) && client.Shows(Run(s, events))
      ensures Run(s, events).workers == s.workers && Run(s, events).now == s.now
      ensures outcome != Refused ==> forall t :: t in client.retry ==> client.retry[t] > now
      ensures outcome != Refused ==> old(client.pending) <= client.pending && forall t :: t in old(client.retry) ==>
        if old(client.retry)[t] <= now then t in client.pending[|old(client.pending)|..] else t in client.retry
      ensures if outcome == Refused then events == [] else |events| == 1 && events[0].Promote? && events[0].cutoff == now
    {
      hide Run, AllEnabled, Delay, Lists, Stale, ScoreOrder, Ids;
      events := [];
      RunFirst(s, Tick(now));
      if outcome != Refused {
        ghost var order;
        var count;
        order, count := client.PromoteScript(now);
        events := [Promote(order, now)];
        RunFirst(s, Promote(order, now));
        TasksAppend(s.pending, Promoted(order, s.retry));
        assert Tasks(Promoted(order, s.retry)) == order;
      }
    }

    // BLPOP, then HSET of the stamped record. `stamp` is the clock between the two.
    method PopAndClaim(w: nat, stamp: int, popped: Outcome, filed: Outcome, ghost s: State)
      returns (task: Option<Task>, ghost events: seq<Event>)
      requires client.Shows(s) && Of(s, w).Idle? && s.now <= stamp
      modifies client
      ensures AllEnabled(s, events) && client.Shows(Run(s, events)) && s.now <= Run(s, events).now <= stamp
      ensures Of(Run(s, events), w) == if task.Some? then Busy(task.value, Undecided) else Idle
      ensures task.Some? <==> old(client.pending) != [] && popped == Answered && filed == Answered
      ensures task.Some? ==>
        task.value == Claimed(old(client.pending)[0], stamp) && client.running == old(client.running)[task.value.id := task.value]
      ensures events == ClaimSteps(old(client.pending) == [], w, stamp, popped, filed)
    {
      hide Run, AllEnabled, Delay, Lists, Matured, Stale, ScoreOrder, Ids;
      var raw;
      RunFirst(s, PopUnseen);
      raw, events := Pop(w, popped, s);
      task := None;
      if raw.Some? {
        ghost var before := events;
        RunFirst(s, before[0]);
        RunOne(s, before, Tick(stamp));
        ghost var more;
        task, more := FileClaim(w, raw.value, stamp, filed, Run(s, before + [Tick(stamp)]));
        RunConcat(s, before + [Tick(stamp)], more);
        events := before + [Tick(stamp)] + more;
      }
    }

    // BLPOP.
    method Pop(w: nat, popped: Outcome, ghost s: State) returns (raw: Option<Task>, ghost events: seq<Event>)
      requires client.Shows(s) && Of(s, w).Idle?
      modifies client
      ensures AllEnabled(s, events) && client.Shows(Run(s, events)) && client.running == old(client.running)
      ensures raw == if old(client.pending) != [] && popped == Answered then Some(old(client.pending)[0]) else None
      ensures events == PopSteps(old(client.pending) == [], w, popped)
    {
      hide Run, AllEnabled, Delay, Lists, Matured, Stale, ScoreOrder, Ids;
      RunFirst(s, RedisProtocol.Pop(w));
      RunFirst(s, PopUnseen);
      raw, events := None, [];
      if client.pending == [] || popped == Refused {
        return;
      }
      if popped == Unseen {
        events := [PopUnseen];
      } else {
        raw, events := Some(client.pending[0]), [RedisProtocol.Pop(w)];
      }
      client.pending := client.pending[1..];
    }

    // Counts the attempt, stamps the record and puts it into the running hash.
    method FileClaim(w: nat, raw: Task, stamp: int, filed: Outcome, ghost s: State)
      returns (task: Option<Task>, ghost events: seq<Event>)
      requires client.Shows(s) && Of(s, w).InHand? && Of(s, w).task == raw && Of(s, w).since <= stamp <= s.now
      modifies client
      ensures AllEnabled(s, events) && client.Shows(Run(s, events)) && Run(s, events).now == s.now
      ensures Of(Run(s, events), w) == if task.Some? then Busy(task.value, Undecided) else Idle
      ensures task == if filed == Answered then Some(Claimed(raw, stamp)) else None
      ensures task.Some? ==>
        && task.value.claimedAt == Some(stamp) && task.value.attempts == raw.attempts + 1 && task.value.id == raw.id
        && task.value.kind == raw.kind && task.value.payload == raw.payload && task.value.maxAttempts == raw.maxAttempts
      ensures task.Some? ==> client.running == old(client.running)[raw.id := task.value]
      ensures events == [ClaimStep(w, stamp, filed)]
    {
      hide Run, AllEnabled, Delay, Lists, Matured, Stale, ScoreOrder, Ids;
      RunFirst(s, ClaimStep(w, stamp, filed));
      events := [ClaimStep(w, stamp, filed)];
      task := None;
      var claimed := raw.(attempts := raw.attempts + 1, claimedAt := Some(stamp));
      if filed != Refused {
        client.running := client.running[claimed.id := claimed];
      }
      if filed == Answered {
        task := Some(claimed);
      }
    }

    method Complete(w: nat, id: string, outcome: Outcome, ghost s: State) returns (ghost events: seq<Event>)
      requires client.Shows(s) && Of(s, w).Busy? && Of(s, w).verdict.Handled? && Of(s, w).task.id == id
      modifies client
      ensures AllEnabled(s, events) && client.Shows(Run(s, events))
      ensures Of(Run(s, events), w).Idle? && (outcome != Refused ==> id !in client.running)
      ensures Run(s, events).succeeded == s.succeeded && Run(s, events).now == s.now
      ensures events == [RedisProtocol.Complete(w, outcome != Refused)]
    {
      hide Run, AllEnabled, Delay, Lists, Matured, Stale, ScoreOrder, Ids;
      if outcome != Refused {
        client.running := client.running - {id};
      }
      RunFirst(s, RedisProtocol.Complete(w, outcome != Refused));
      events := [RedisProtocol.Complete(w, outcome != Refused)];
    }

    // HDEL, then for a task with attempts left ZADD; `stamp` is the clock between the two.
    method Fail(w: nat, task: Task, stamp: int, removed: Outcome, filed: Outcome, ghost s: State)
      returns (ghost events: seq<Event>)
      requires client.Shows(s) && Of(s, w) == Busy(task, Raised) && task.attempts >= 1 && s.now <= stamp
      modifies client
      ensures AllEnabled(s, events) && client.Shows(Run(s, events)) && Of(Run(s, events), w).Idle? && Run(s, events).now <= stamp
      ensures task.attempts >= task.maxAttempts ==> task.id in Run(s, events).exhausted && client.retry == old(client.retry)
      ensures task.attempts < task.maxAttempts && filed != Refused ==>
        client.retry == old(client.retry)[task := stamp + Delay(task.attempts)]
      ensures events == FailSteps(task, w, stamp, removed, filed)
    {
      hide Run, AllEnabled, Delay, Lists, Matured, Stale, ScoreOrder, Ids;
      events := Release(w, task, removed, s);
      RunFirst(s, events[0]);
      if task.attempts < task.maxAttempts {
        ghost var released := events + [Tick(stamp)];
        RunOne(s, events, Tick(stamp));
        ghost var more := File(w, task, stamp, filed, Run(s, released));
        RunConcat(s, released, more);
        events := released + more;
      }
    }

    // HDEL of a failed task.
    method Release(w: nat, task: Task, removed: Outcome, ghost s: State) returns (ghost events: seq<Event>)
      requires client.Shows(s) && Of(s, w) == Busy(task, Raised)
      modifies client
      ensures AllEnabled(s, events) && client.Shows(Run(s, events)) && client.retry == old(client.retry)
      ensures events == [RedisProtocol.Release(w, removed != Refused)]
    {
      hide Run, AllEnabled, Delay, Lists, Matured, Stale, ScoreOrder, Ids;
      if removed != Refused {
        client.running := client.running - {task.id};
      }
      events := [RedisProtocol.Release(w, removed != Refused)];
      RunFirst(s, events[0]);
    }

    // The ZADD of a failed task, due after its back-off.
    method File(w: nat, task: Task, stamp: int, filed: Outcome, ghost s: State) returns (ghost events: seq<Event>)
      requires client.Shows(s) && Of(s, w).Rescheduling? && Of(s, w).task == task && Of(s, w).since <= stamp <= s.now
      requires task.attempts >= 1
      modifies client
      ensures AllEnabled(s, events) && client.Shows(Run(s, events)) && Of(Run(s, events), w).Idle? && Run(s, events).now == s.now
      ensures client.retry ==
        if filed != Refused then old(client.retry)[task := stamp + Delay(task.attempts)] else old(client.retry)
      ensures events == [Reschedule(w, stamp, filed != Refused)]
    {
      hide Run, AllEnabled, Lists, Matured, Stale, ScoreOrder, Ids;
      var power := Power4(task.attempts - 1);
      events := [Reschedule(w, stamp, filed != Refused)];
      RunFirst(s, events[0]);
      if filed != Refused {
        client.retry := client.retry[task := stamp + 10 * SECOND * power];
      }
    }

    method ReapStale(staleSeconds: int, now: int, outcome: Outcome, ghost s: State)
      returns (reaped: int, ghost events: seq<Event>)
      requires client.Shows(s) && client.Keyed() && now <= s.now && staleSeconds >= 0
      modifies client
      ensures AllEnabled(s, events) && client.Shows(Run(s, events)) && client.Keyed()
      ensures Run(s, events).workers == s.workers && Run(s, events).now == s.now
      ensures outcome == Refused ==> events == [] && reaped == 0
      ensures outcome != Refused ==> |events| == 1 && events[0].Reap? && events[0].cutoff == now - staleSeconds * SECOND
      ensures outcome == Answered ==> reaped == |events[0].order|
      ensures outcome == Refused ==> client.running == old(client.running) && client.pending == old(client.pending)
      ensures outcome != Refused ==> old(client.pending) <= client.pending && forall id :: id in old(client.running) ==>
        ReapedBefore(old(client.running)[id], now - staleSeconds * SECOND, id, client.running, client.pending[|old(client.pending)|..])
    {
      hide Run, AllEnabled, Delay, Lists, Matured, Stale, ScoreOrder, Ids, Apply, Tasks;
      events, reaped := [], 0;
      RunFirst(s, Tick(now));
      if outcome != Refused {
        ghost var order;
        var count;
        var cutoff := now - staleSeconds * SECOND;
        order, count := client.ReapScript(cutoff);
        RunFirst(s, Reap(order, cutoff));
        events := [Reap(order, cutoff)];
        ReapEffect(s, order, cutoff);
        if outcome == Answered {
          reaped := count;
        }
      }
    }
  }

  // What the environment does to one pass of the worker's loop: clock readings, whether the
  // handler raises, and the outcome of every Redis command.
  datatype Round = Round(now: int, stamp: int, back: int, raises: bool, reap: Outcome, promote: Outcome, pop: Outcome,
                         file: Outcome, remove: Outcome, retry: Outcome)

  ghost predicate Orderly(r: Round, now: int) {
    now <= r.now <= r.stamp <= r.back
  }

  // A pass starts by reading the clock, reaping when that is due, and promoting.
  ghost predicate Opens(opening: seq<Event>, r: Round, due: bool) {
    var reaps := if due && r.reap != Refused then 1 else 0;
    var promotes := if r.promote != Refused then 1 else 0;
    && |opening| == 1 + reaps + promotes
    && opening[0] == Tick(r.now)
    && (reaps == 1 ==> opening[1].Reap? && opening[1].cutoff == r.now - 600 * SECOND)
    && (promotes == 1 ==> opening[1 + reaps].Promote? && opening[1 + reaps].cutoff == r.now)
  }

  ghost function DispatchSteps(t: Task, w: nat, r: Round, handlers: set<string>): seq<Event> {
    if t.kind in handlers && !r.raises then [Handle(w), Complete(w, r.remove != Refused)]
    else [Raise(w)] + FailSteps(t, w, r.back, r.remove, r.retry)
  }

  // It goes on to claim the head of the pending list and, if it got one, to dispatch it.
  ghost function ClosingSteps(s: State, w: nat, r: Round, handlers: set<string>): seq<Event> {
    ClaimSteps(s.pending == [], w, r.stamp, r.pop, r.file) +
    if s.pending != [] && r.pop == Answered && r.file == Answered
    then DispatchSteps(Claimed(s.pending[0].task, r.stamp), w, r, handlers) else []
  }

  ghost predicate Pass(before: seq<Event>, after: seq<Event>, w: nat, r: Round, due: bool, handlers: set<string>) {
    exists opening ::
      Opens(opening, r, due) && after == before + opening + ClosingSteps(After(before + opening), w, r, handlers)
  }

  // When the reaper last ran before pass i.
  ghost function LastReap(rounds: seq<Round>, i: nat, start: int): int
    requires i <= |rounds|
  {
    if i == 0 then start
    else
      var last := LastReap(rounds, i - 1, start);
      if rounds[i - 1].now - last >= 60 * SECOND then rounds[i - 1].now else last
  }

  class TaskWorker {
    const REAP_INTERVAL := 60 * SECOND
    const STALE_SECONDS := 600
    const queue: RedisTaskQueue
    const w: nat
    var handlers: set<string>
    var lastReap: int

    constructor (queue: RedisTaskQueue, w: nat, now: int)
      ensures this.queue == queue && this.w == w && handlers == {} && lastReap == now
    {
      this.queue, this.w := queue, w;
      handlers, lastReap := {}, now;
    }

    method Register(kind: string)
      modifies this
      ensures handlers == old(handlers) + {kind} && lastReap == old(lastReap)
    {
      handlers := handlers + {kind};
    }

    // Runs the handler, then completes or fails the task. `back` is the clock when it failed.
    method Dispatch(task: Task, r: Round, ghost s: State) returns (ghost events: seq<Event>)
      requires queue.client.Shows(s) && Of(s, w) == Busy(task, Undecided) && task.attempts >= 1 && s.now <= r.back
      modifies queue.client
      ensures AllEnabled(s, events) && queue.client.Shows(Run(s, events)) && Of(Run(s, events), w).Idle?
      ensures Run(s, events).now <= r.back
      ensures events == DispatchSteps(task, w, r, handlers)
      ensures
        if task.kind in handlers && !r.raises then task.id in Run(s, events).succeeded
        else if task.attempts >= task.maxAttempts then task.id in Run(s, events).exhausted
        else r.retry != Refused ==> task in queue.client.retry && queue.client.retry[task] == r.back + Delay(task.attempts)
    {
      hide Run, AllEnabled, Delay, Lists, Matured, Stale, ScoreOrder;
      if task.kind !in handlers || r.raises {
        RunFirst(s, Raise(w));
        ghost var more := queue.Fail(w, task, r.back, r.remove, r.retry, Run(s, [Raise(w)]));
        RunConcat(s, [Raise(w)], more);
        events := [Raise(w)] + more;
      } else {
        RunFirst(s, Handle(w));
        ghost var more := queue.Complete(w, task.id, r.remove, Run(s, [Handle(w)]));
        RunConcat(s, [Handle(w)], more);
        events := [Handle(w)] + more;
      }
    }

    // One pass of the polling loop: reap when due, promote, pop, claim, dispatch.
    method Poll(r: Round, ghost trace: seq<Event>) returns (ghost longer: seq<Event>)
      requires queue.client.Shows(After(trace)) && Of(After(trace), w).Idle? && Orderly(r, After(trace).now)
      modifies this, queue.client
      ensures Pass(trace, longer, w, r, r.now - old(lastReap) >= REAP_INTERVAL, handlers)
      ensures queue.client.Shows(After(longer)) && Of(After(longer), w).Idle? && After(longer).now <= r.back
      ensures handlers == old(handlers)
      ensures lastReap == if r.now - old(lastReap) >= REAP_INTERVAL then r.now else old(lastReap)
    {
      hide Run, AllEnabled, After, Delay, Lists, Matured, Stale, ScoreOrder, ClosingSteps;
      ghost var opening := [Tick(r.now)];
      AfterOne(trace, Tick(r.now));
      if r.now - lastReap >= REAP_INTERVAL {
        RedisSafety.RunAccounts(trace + opening);
        ghost var reaps;
        var reaped;
        reaped, reaps := queue.ReapStale(STALE_SECONDS, r.now, r.reap, After(trace + opening));
        RunExtends(trace + opening, reaps);
        assert trace + opening + reaps == trace + (opening + reaps);
        opening := opening + reaps;
        lastReap := r.now;
      }
      ghost var promotes := queue.PromoteRetries(r.now, r.promote, After(trace + opening));
      RunExtends(trace + opening, promotes);
      assert trace + opening + promotes == trace + (opening + promotes);
      opening := opening + promotes;
      longer := ClaimAndDispatch(r, trace + opening);
      assert Opens(opening, r, r.now - old(lastReap) >= REAP_INTERVAL);
    }

    method ClaimAndDispatch(r: Round, ghost trace: seq<Event>) returns (ghost longer: seq<Event>)
      requires queue.client.Shows(After(trace)) && Of(After(trace), w).Idle? && After(trace).now <= r.stamp <= r.back
      modifies queue.client
      ensures longer == trace + ClosingSteps(After(trace), w, r, handlers)
      ensures queue.client.Shows(After(longer)) && Of(After(longer), w).Idle? && After(longer).now <= r.back
    {
      hide Run, AllEnabled, After, Delay, Lists, Matured, Stale, ScoreOrder, ClaimSteps, DispatchSteps;
      var task;
      ghost var claims;
      task, claims := queue.PopAndClaim(w, r.stamp, r.pop, r.file, After(trace));
      RunExtends(trace, claims);
      longer := trace + claims;
      if task.Some? {
        RedisSafety.RunCounts(longer);
        assert RedisSafety.WorkerCounted(After(longer), After(longer).workers[w]);
        ghost var ends := Dispatch(task.value, r, After(longer));
        RunExtends(longer, ends);
        assert longer + ends == trace + (claims + ends);
        longer := longer + ends;
      }
    }

    // The polling loop, up to the pass in which it is stopped. `marks` are the runs between passes.
    method Loop(rounds: seq<Round>, ghost trace: seq<Event>) returns (ghost marks: seq<seq<Event>>)
      requires queue.client.Shows(After(trace)) && Of(After(trace), w).Idle?
      requires forall i :: 0 <= i < |rounds| ==> Orderly(rounds[i], if i == 0 then After(trace).now else rounds[i - 1].back)
      modifies this, queue.client
      ensures |marks| == |rounds| + 1 && marks[0] == trace
      ensures forall i :: 0 <= i < |rounds| ==>
        Pass(marks[i], marks[i + 1], w, rounds[i], rounds[i].now - LastReap(rounds, i, old(lastReap)) >= REAP_INTERVAL, handlers)
      ensures queue.client.Shows(After(marks[|rounds|])) && Of(After(marks[|rounds|]), w).Idle?
    {
      hide Pass, After;
      marks := [trace];
      var i := 0;
      while i < |rounds|
        invariant 0 <= i <= |rounds| && |marks| == i + 1 && marks[0] == trace && handlers == old(handlers)
        invariant queue.client.Shows(After(marks[i])) && Of(After(marks[i]), w).Idle?
        invariant After(marks[i]).now <= if i == 0 then After(trace).now else rounds[i - 1].back
        invariant lastReap == LastReap(rounds, i, old(lastReap))
        invariant forall k :: 0 <= k < i ==>
          Pass(marks[k], marks[k + 1], w, rounds[k], rounds[k].now - LastReap(rounds, k, old(lastReap)) >= REAP_INTERVAL, handlers)
      {
        ghost var longer := Poll(rounds[i], marks[i]);
        marks := marks + [longer];
        i := i + 1;
      }
    }
  }

  // 4 ** n
  method Power4(n: nat) returns (power: int)
    ensures power == Pow4(n)
  {
    power := 1;
    var i := 0;
    while i < n
      invariant 0 <= i <= n && power == Pow4(i)
    {
      power, i := 4 * power, i + 1;
    }
  }
}
