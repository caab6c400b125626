// Any number of TaskWorkers on one Redis, command by command: the threads' own variables beside the
// Redis contents. Whatever the order in which their commands reach Redis, they take the protocol's
// steps, so what is proved of its runs holds of the code.
module RedisReplicas {
  import opened Text
  import opened RedisProtocol
  import opened TaskQueue
  import RedisSafety
  import RedisOwnership

  // One command of some thread, or the end of a handler, with what becomes of it. Clock readings
  // may be older than the moment at which the command reaches Redis.
  datatype Command =
    | Wait(to: int)
    | Put(id: string, kind: string, payload: string, maxAttempts: int, outcome: Outcome)
    | PromoteDue(cutoff: int, outcome: Outcome)
    | ReapDue(now: int, outcome: Outcome)
    | PopHead(w: nat, outcome: Outcome)
    | FileClaimed(w: nat, stamp: int, outcome: Outcome)
    | RunHandler(w: nat, raises: bool)
    | RemoveDone(w: nat, outcome: Outcome)
    | RemoveFailed(w: nat, outcome: Outcome)
    | FileRetry(w: nat, stamp: int, outcome: Outcome)
    | Die(w: nat)
    | Revive(w: nat)

  // The steps a command takes, where they are certain. A command that its thread cannot give now
  // takes none.
  ghost predicate Takes(s: State, c: Command, handlers: set<string>, events: seq<Event>) {
    match c
    case Wait(to) => events == if s.now <= to then [Tick(to)] else []
    case Put(id, kind, payload, max, outcome) =>
      events == if outcome != Refused && id !in s.enqueued then [Enqueue(Task(id, kind, payload, 0, max, None))] else []
    case PromoteDue(cutoff, outcome) =>
      if outcome == Refused || cutoff > s.now then events == []
      else |events| == 1 && events[0].Promote? && events[0].cutoff == cutoff
    case ReapDue(now, outcome) =>
      if outcome == Refused || now > s.now then events == []
      else |events| == 1 && events[0].Reap? && events[0].cutoff == now - 600 * TaskLife.SECOND
    case PopHead(w, outcome) => events == if Of(s, w).Idle? then PopSteps(s.pending == [], w, outcome) else []
    case FileClaimed(w, stamp, outcome) =>
      events == if Of(s, w).InHand? && Of(s, w).since <= stamp <= s.now then [ClaimStep(w, stamp, outcome)] else []
    case RunHandler(w, raises) =>
      events == if !(Of(s, w).Busy? && Of(s, w).verdict.Undecided?) then []
                else if raises || Of(s, w).task.kind !in handlers then [Raise(w)] else [Handle(w)]
    case RemoveDone(w, outcome) =>
      events == if Of(s, w).Busy? && Of(s, w).verdict.Handled? then [Complete(w, outcome != Refused)] else []
    case RemoveFailed(w, outcome) =>
      events == if Of(s, w).Busy? && Of(s, w).verdict.Raised? then [Release(w, outcome != Refused)] else []
    case FileRetry(w, stamp, outcome) =>
      events == if Of(s, w).Rescheduling? && Of(s, w).since <= stamp <= s.now then [Reschedule(w, stamp, outcome != Refused)] else []
    case Die(w) => events == if Of(s, w).Crashed? then [] else [Crash(w)]
    case Revive(w) => events == if Of(s, w).Crashed? then [Restart(w)] else []
  }

  // How far the threads have got after one step.
  lemma ThreadsAfter(s: State, ev: Event)
    requires Enabled(s, ev)
    ensures var s' := Next(s, ev);
      && (ev.Tick? || ev.Enqueue? || ev.Promote? || ev.PopUnseen? || ev.Reap? ==> s'.workers == s.workers)
      && (!ev.Tick? ==> s'.now == s.now)
      && (!ev.Enqueue? ==> s'.enqueued == s.enqueued)
      && (ev.Enqueue? ==> s'.enqueued == s.enqueued + {ev.task.id})
  {
    hide TaskLife.Delay, Lists, Matured, Stale, ScoreOrder;
  }

  lemma OneStep(trace: seq<Event>, events: seq<Event>)
    ensures events == [] ==> trace + events == trace && AllEnabled(After(trace), events)
    ensures |events| == 1 ==> After(trace + events) == Apply(After(trace), events[0])
    ensures |events| == 1 ==> (AllEnabled(After(trace), events) <==> Enabled(After(trace), events[0]))
  {
    hide Apply, Enabled;
    if |events| == 1 {
      assert events == [events[0]] && [events[0]][..0] == [];
      AfterOne(trace, events[0]);
    }
  }

  class Replicas {
    const queue: RedisTaskQueue
    const handlers: set<string>
    var threads: map<nat, Worker>     // how far each worker's pass has got, with its local variables
    var clock: int
    var used: set<string>             // the ids handed out so far: they never repeat

    constructor (queue: RedisTaskQueue, handlers: set<string>)
      requires queue.client.Shows(INITIAL)
      ensures this.queue == queue && this.handlers == handlers && Shows([])
    {
      this.queue, this.handlers := queue, handlers;
      threads, clock, used := map[], 0, {};
    }

    ghost predicate Shows(trace: seq<Event>)
      reads this, queue, queue.client
    {
      var s := After(trace);
      queue.client.Shows(s) && threads == s.workers && clock == s.now && used == s.enqueued
    }

    function ThreadOf(w: nat): Worker
      reads `threads
    {
      if w in threads then threads[w] else Idle
    }

    // Time, clients, the two scripts, handlers, crashes.
    method OtherStep(c: Command, ghost trace: seq<Event>) returns (ghost events: seq<Event>)
      requires Shows(trace)
      requires c.Wait? || c.Put? || c.PromoteDue? || c.ReapDue?
      modifies this, queue.client
      ensures Shows(trace + events) && AllEnabled(After(trace), events) && Takes(After(trace), c, handlers, events)
    {
      hide After, Run, TaskLife.Delay, Lists, Matured, Stale, ScoreOrder, Promoted, Requeued, Ids, Tasks, ReapsOf;
      ghost var s := After(trace);
      events := [];
      match c {
        case Wait(to) =>
          if clock <= to {
            clock := to;
            events := [Tick(to)];
          }
        case Put(id, kind, payload, max, outcome) =>
          if id !in used {
            var id';
            id', events := queue.Enqueue(id, kind, payload, max, outcome, s);
            used := if outcome != Refused then used + {id} else used;
          }
        case PromoteDue(cutoff, outcome) =>
          if cutoff <= clock {
            events := queue.PromoteRetries(cutoff, outcome, s);
          }
        case ReapDue(now, outcome) =>
          if now <= clock {
            RedisSafety.RunAccounts(trace);
            var reaped;
            reaped, events := queue.ReapStale(600, now, outcome, s);
          }
        case _ =>
      }
      OneStep(trace, events);
      RunExtends(trace, events);
      if events != [] {
        ThreadsAfter(s, events[0]);
      }
    }

    // BLPOP, and the HSET of the record popped.
    method ClaimingStep(c: Command, ghost trace: seq<Event>) returns (ghost events: seq<Event>)
      requires Shows(trace)
      requires c.PopHead? || c.FileClaimed?
      modifies this, queue.client
      ensures Shows(trace + events) && AllEnabled(After(trace), events) && Takes(After(trace), c, handlers, events)
    {
      hide After, Run, TaskLife.Delay, Lists, Matured, Stale, ScoreOrder, Promoted, Requeued, Ids, Tasks, ReapsOf;
      ghost var s := After(trace);
      events := [];
      var w := c.w;
      if c.PopHead? && ThreadOf(w).Idle? {
        var raw;
        raw, events := queue.Pop(w, c.outcome, s);
        if raw.Some? {
          threads := threads[w := InHand(raw.value, clock)];
        }
      } else if c.FileClaimed? && ThreadOf(w).InHand? && ThreadOf(w).since <= c.stamp <= clock {
        var task;
        task, events := queue.FileClaim(w, ThreadOf(w).task, c.stamp, c.outcome, s);
        threads := threads[w := if task.Some? then Busy(task.value, Undecided) else Idle];
      }
      OneStep(trace, events);
      RunExtends(trace, events);
      if events != [] {
        ThreadsAfter(s, events[0]);
      }
    }

    // The handler, which touches neither Redis nor the clock; the end and the start of a worker.
    method LocalStep(c: Command, ghost trace: seq<Event>) returns (ghost events: seq<Event>)
      requires Shows(trace)
      requires c.RunHandler? || c.Die? || c.Revive?
      modifies `threads
      ensures Shows(trace + events) && AllEnabled(After(trace), events) && Takes(After(trace), c, handlers, events)
    {
      hide After, Run, TaskLife.Delay, Lists, Matured, Stale, ScoreOrder, Promoted, Requeued, Ids, Tasks, ReapsOf;
      events := [];
      var thread := ThreadOf(c.w);
      if c.RunHandler? && thread.Busy? && thread.verdict.Undecided? {
        var raised := c.raises || thread.task.kind !in handlers;
        threads := threads[c.w := Busy(thread.task, if raised then Raised else Handled)];
        events := if raised then [Raise(c.w)] else [Handle(c.w)];
      } else if c.Die? && !thread.Crashed? {
        threads := threads[c.w := Crashed];
        events := [Crash(c.w)];
      } else if c.Revive? && thread.Crashed? {
        threads := threads[c.w := Idle];
        events := [Restart(c.w)];
      }
      OneStep(trace, events);
    }

    // The HDEL of complete or of fail, and the ZADD of fail.
    method ClosingStep(c: Command, ghost trace: seq<Event>) returns (ghost events: seq<Event>)
      requires Shows(trace)
      requires c.RemoveDone? || c.RemoveFailed? || c.FileRetry?
      modifies this, queue.client
      ensures Shows(trace + events) && AllEnabled(After(trace), events) && Takes(After(trace), c, handlers, events)
    {
      hide After, Run, TaskLife.Delay, Lists, Matured, Stale, ScoreOrder, Promoted, Requeued, Ids, Tasks, ReapsOf;
      ghost var s := After(trace);
      events := [];
      var thread := ThreadOf(c.w);
      if c.RemoveDone? && thread.Busy? && thread.verdict.Handled? {
        events := queue.Complete(c.w, thread.task.id, c.outcome, s);
        threads := threads[c.w := Idle];
      } else if c.RemoveFailed? && thread.Busy? && thread.verdict.Raised? {
        events := queue.Release(c.w, thread.task, c.outcome, s);
        threads := threads[c.w :=
          if thread.task.attempts < thread.task.maxAttempts then Rescheduling(thread.task, clock) else Idle];
      } else if c.FileRetry? && thread.Rescheduling? && thread.since <= c.stamp <= clock {
        RedisSafety.RunCounts(trace);
        assert RedisSafety.WorkerCounted(s, s.workers[c.w]);
        events := queue.File(c.w, thread.task, c.stamp, c.outcome, s);
        threads := threads[c.w := Idle];
      }
      OneStep(trace, events);
      RunExtends(trace, events);
      if events != [] {
        ThreadsAfter(s, events[0]);
      }
    }

    method Step(c: Command, ghost trace: seq<Event>) returns (ghost events: seq<Event>)
      requires Shows(trace)
      modifies this, queue.client
      ensures Shows(trace + events) && AllEnabled(After(trace), events) && Takes(After(trace), c, handlers, events)
    {
      hide *;
      match c {
        case PopHead(_, _) => events := ClaimingStep(c, trace);
        case FileClaimed(_, _, _) => events := ClaimingStep(c, trace);
        case RunHandler(_, _) => events := LocalStep(c, trace);
        case Die(_) => events := LocalStep(c, trace);
        case Revive(_) => events := LocalStep(c, trace);
        case RemoveDone(_, _) => events := ClosingStep(c, trace);
        case RemoveFailed(_, _) => events := ClosingStep(c, trace);
        case FileRetry(_, _, _) => events := ClosingStep(c, trace);
        case _ => events := OtherStep(c, trace);
      }
    }

    // Any commands of any threads in any order. `marks` are the runs of the protocol before and after
    // each. At every moment each task enqueued is in Redis, in a thread's hand, ended, or lost in one
    // of the two windows; and it is in one place, with one worker at it at most, unless a release of
    // a task to be retried was refused or a live worker's record reaped.
    method Interleave(commands: seq<Command>, ghost trace: seq<Event>) returns (ghost marks: seq<seq<Event>>)
      requires Shows(trace)
      modifies this, queue.client
      ensures |marks| == |commands| + 1 && marks[0] == trace && Shows(marks[|commands|])
      ensures forall i :: 0 <= i < |commands| ==> Extends(marks[i], marks[i + 1], commands[i], handlers)
      ensures forall id :: id in used ==>
        (var run := marks[|commands|];
         RedisSafety.Placed(After(run), id) || RedisSafety.Ended(After(run), id) || RedisSafety.LostAlong(run, id))
      ensures RedisOwnership.NeverDuplicated(marks[|commands|]) <==> RedisOwnership.CleanRun(marks[|commands|])
    {
      hide *;
      marks := [trace];
      var i := 0;
      while i < |commands|
        invariant 0 <= i <= |commands| && |marks| == i + 1 && marks[0] == trace && Shows(marks[i])
        invariant forall k :: 0 <= k < i ==> Extends(marks[k], marks[k + 1], commands[k], handlers)
      {
        ghost var events := Step(commands[i], marks[i]);
        ItExtends(marks[i], events, commands[i], handlers);
        marks := marks + [marks[i] + events];
        i := i + 1;
      }
      ghost var run := marks[|commands|];
      UsedAreEnqueued(run);
      forall id | id in used
        ensures RedisSafety.Placed(After(run), id) || RedisSafety.Ended(After(run), id) || RedisSafety.LostAlong(run, id)
      {
        RedisSafety.AtLeastOnce(run, id);
      }
      RedisOwnership.OwnershipExactly(run);
    }

    lemma UsedAreEnqueued(trace: seq<Event>)
      requires Shows(trace)
      ensures used == After(trace).enqueued
    {
    }
  }

  // The run goes on with the steps of this command, all of them enabled.
  ghost predicate Extends(before: seq<Event>, after: seq<Event>, c: Command, handlers: set<string>) {
    exists events ::
      after == before + events && AllEnabled(After(before), events) && Takes(After(before), c, handlers, events)
  }

  lemma ItExtends(before: seq<Event>, events: seq<Event>, c: Command, handlers: set<string>)
    requires AllEnabled(After(before), events) && Takes(After(before), c, handlers, events)
    ensures Extends(before, before + events, c, handlers)
  {
  }
}
