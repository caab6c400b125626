// RedisTaskQueue and its workers (server/task_queue.py) as a protocol: every Redis command or
// script is one atomic step, the clock only advances, and a worker may crash between any two
// steps. Where a command's reply can get lost, applied and not applied are separate outcomes.
module RedisProtocol {
  import opened Text
  import opened TaskLife

  // The record serialised into Redis.
  datatype Task = Task(id: string, kind: string, payload: string, attempts: int, maxAttempts: int, claimedAt: Option<int>)

  // Where a pending record came from; not stored in Redis.
  datatype Origin = New | Retried(failedAt: int) | Reaped

  datatype Entry = Entry(task: Task, origin: Origin)

  datatype Verdict = Undecided | Handled | Raised

  datatype Worker =
    | Idle
    | InHand(task: Task, since: int)        // popped, not yet in the running hash
    | Busy(task: Task, verdict: Verdict)    // in the running hash, handler at work or just back
    | Rescheduling(task: Task, since: int)  // out of the running hash, not yet in the retry set
    | Crashed

  datatype State = State(
    pending: seq<Entry>, retry: map<Task, int>, running: map<string, Task>, workers: map<nat, Worker>, now: int,
    enqueued: set<string>, succeeded: set<string>, exhausted: set<string>, lost: set<string>,
    reaps: map<string, nat>, failures: set<(Task, int)>)

  datatype Event =
    | Tick(to: int)
    | Enqueue(task: Task)                      // RPUSH
    | Promote(order: seq<Task>, cutoff: int)   // promotion script
    | Pop(w: nat)                              // BLPOP
    | PopUnseen                                // BLPOP whose reply is lost
    | Claim(w: nat, stamp: int)                // HSET
    | ClaimUnseen(w: nat, stamp: int)          // HSET applied, reply lost
    | ClaimRefused(w: nat)                     // HSET not applied
    | Handle(w: nat)                           // the handler returns
    | Raise(w: nat)                            // the handler raises, or none is registered
    | Complete(w: nat, applied: bool)          // HDEL in complete
    | Release(w: nat, applied: bool)           // HDEL in fail
    | Reschedule(w: nat, stamp: int, applied: bool) // ZADD in fail
    | Reap(order: seq<Task>, cutoff: int)      // reaper script
    | Crash(w: nat)
    | Restart(w: nat)

  const INITIAL := State([], map[], map[], map[], 0, {}, {}, {}, {}, map[], {})

  // ----- what single Redis commands do to records ------------------------------------------------

  function Claimed(t: Task, stamp: int): Task {
    t.(attempts := t.attempts + 1, claimedAt := Some(stamp))
  }

  ghost function Matured(retry: map<Task, int>, cutoff: int): set<Task> {
    set t | t in retry && retry[t] <= cutoff
  }

  ghost predicate StaleRecord(t: Task, cutoff: int) {
    t.claimedAt.Some? && t.claimedAt.value < cutoff
  }

  ghost function Stale(running: map<string, Task>, cutoff: int): set<Task> {
    set id | id in running && StaleRecord(running[id], cutoff) :: running[id]
  }

  // The same records, each exactly once.
  ghost predicate Lists(order: seq<Task>, records: set<Task>) {
    && (forall i :: 0 <= i < |order| ==> order[i] in records)
    && (forall t :: t in records ==> t in order)
    && (forall i, j :: 0 <= i < j < |order| ==> order[i] != order[j])
  }

  ghost predicate ScoreOrder(order: seq<Task>, retry: map<Task, int>) {
    forall i, j :: 0 <= i < j < |order| && order[i] in retry && order[j] in retry ==> retry[order[i]] <= retry[order[j]]
  }

  ghost function Promoted(order: seq<Task>, retry: map<Task, int>): (r: seq<Entry>)
    ensures |r| == |order|
    ensures forall i :: 0 <= i < |r| ==> r[i].task == order[i] && r[i].origin.Retried?
    ensures forall i :: 0 <= i < |r| && order[i] in retry ==>
      r[i] == Entry(order[i], Retried(retry[order[i]] - Delay(order[i].attempts)))
  {
    if order == [] then []
    else
      var t := order[0];
      [Entry(t, Retried((if t in retry then retry[t] else 0) - Delay(t.attempts)))] + Promoted(order[1..], retry)
  }

  ghost function Requeued(order: seq<Task>): (r: seq<Entry>)
    ensures |r| == |order| && forall i :: 0 <= i < |r| ==> r[i] == Entry(order[i], Reaped)
  {
    if order == [] then [] else [Entry(order[0], Reaped)] + Requeued(order[1..])
  }

  function Ids(order: seq<Task>): (r: set<string>)
    ensures forall i :: 0 <= i < |order| ==> order[i].id in r
    ensures forall id :: id in r ==> exists i :: 0 <= i < |order| && order[i].id == id
  {
    set i | 0 <= i < |order| :: order[i].id
  }

  ghost function Of(s: State, w: nat): Worker {
    if w in s.workers then s.workers[w] else Idle
  }

  ghost function ReapsOf(s: State, id: string): nat {
    if id in s.reaps then s.reaps[id] else 0
  }

  // ----- the steps ---------------------------------------------------------------------------------

  ghost predicate Enabled(s: State, ev: Event) {
    match ev
    case Tick(to) => s.now <= to
    case Enqueue(t) => t.id !in s.enqueued && t.attempts == 0 && t.claimedAt == None
    case Promote(order, cutoff) => cutoff <= s.now && Lists(order, Matured(s.retry, cutoff)) && ScoreOrder(order, s.retry)
    case Pop(w) => Of(s, w).Idle? && s.pending != []
    case PopUnseen => s.pending != []
    case Claim(w, stamp) => Of(s, w).InHand? && Of(s, w).since <= stamp <= s.now
    case ClaimUnseen(w, stamp) => Of(s, w).InHand? && Of(s, w).since <= stamp <= s.now
    case ClaimRefused(w) => Of(s, w).InHand?
    case Handle(w) => Of(s, w).Busy? && Of(s, w).verdict.Undecided?
    case Raise(w) => Of(s, w).Busy? && Of(s, w).verdict.Undecided?
    case Complete(w, _) => Of(s, w).Busy? && Of(s, w).verdict.Handled?
    case Release(w, _) => Of(s, w).Busy? && Of(s, w).verdict.Raised?
    case Reschedule(w, stamp, _) => Of(s, w).Rescheduling? && Of(s, w).since <= stamp <= s.now
    case Reap(order, cutoff) => cutoff <= s.now && Lists(order, Stale(s.running, cutoff))
    case Crash(w) => !Of(s, w).Crashed?
    case Restart(w) => Of(s, w).Crashed?
  }

  ghost function Becomes(s: State, w: nat, worker: Worker): State {
    s.(workers := s.workers[w := worker])
  }

  ghost function Next(s: State, ev: Event): State
    requires Enabled(s, ev)
  {
    match ev
    case Tick(to) => s.(now := to)
    case Enqueue(t) => s.(pending := s.pending + [Entry(t, New)], enqueued := s.enqueued + {t.id})
    case Promote(order, cutoff) =>
      s.(pending := s.pending + Promoted(order, s.retry), retry := s.retry - Matured(s.retry, cutoff))
    case Pop(w) => Becomes(s.(pending := s.pending[1..]), w, InHand(s.pending[0].task, s.now))
    case PopUnseen => s.(pending := s.pending[1..], lost := s.lost + {s.pending[0].task.id})
    case Claim(w, stamp) =>
      var t := Claimed(Of(s, w).task, stamp);
      Becomes(s.(running := s.running[t.id := t]), w, Busy(t, Undecided))
    case ClaimUnseen(w, stamp) =>
      var t := Claimed(Of(s, w).task, stamp);
      Becomes(s.(running := s.running[t.id := t]), w, Idle)
    case ClaimRefused(w) => Becomes(s.(lost := s.lost + {Of(s, w).task.id}), w, Idle)
    case Handle(w) =>
      Becomes(s.(succeeded := s.succeeded + {Of(s, w).task.id}), w, Busy(Of(s, w).task, Handled))
    case Raise(w) => Becomes(s, w, Busy(Of(s, w).task, Raised))
    case Complete(w, applied) =>
      Becomes(if applied then s.(running := s.running - {Of(s, w).task.id}) else s, w, Idle)
    case Release(w, applied) =>
      var t := Of(s, w).task;
      var released := if applied then s.(running := s.running - {t.id}) else s;
      if t.attempts < t.maxAttempts then Becomes(released, w, Rescheduling(t, s.now))
      else Becomes(released.(exhausted := s.exhausted + {t.id}), w, Idle)
    case Reschedule(w, stamp, applied) =>
      var t := Of(s, w).task;
      if applied then
        Becomes(s.(retry := s.retry[t := stamp + Delay(t.attempts)], failures := s.failures + {(t, stamp)}), w, Idle)
      else Becomes(s.(lost := s.lost + {t.id}), w, Idle)
    case Reap(order, cutoff) =>
      s.(pending := s.pending + Requeued(order),
         running := s.running - Ids(order),
         reaps := map id | id in s.reaps.Keys + Ids(order) :: ReapsOf(s, id) + if id in Ids(order) then 1 else 0)
    case Crash(w) =>
      var dropped := if Of(s, w).InHand? || Of(s, w).Rescheduling? then {Of(s, w).task.id} else {};
      Becomes(s.(lost := s.lost + dropped), w, Crashed)
    case Restart(w) => Becomes(s, w, Idle)
  }

  // A step that is not enabled does not happen.
  ghost function Apply(s: State, ev: Event): State {
    if Enabled(s, ev) then Next(s, ev) else s
  }

  ghost function After(trace: seq<Event>): State {
    if trace == [] then INITIAL else Apply(After(trace[..|trace| - 1]), trace[|trace| - 1])
  }

  lemma AfterOne(trace: seq<Event>, ev: Event)
    ensures After(trace + [ev]) == Apply(After(trace), ev)
  {
    assert (trace + [ev])[..|trace|] == trace;
  }
}
