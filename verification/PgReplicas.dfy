// Any number of worker processes and clients on one task table, transaction by transaction. Whatever
// the order in which their transactions commit, they take the protocol's steps, so what is proved of
// its runs holds of the code.
module PgReplicas {
  import opened Text
  import opened PgQueue
  import opened PgTermination
  import TaskLife

  // One transaction of some thread with what becomes of it, or the end of a process. Readings of
  // the clock that go back are not taken.
  datatype Command =
    | Put(kind: string, payload: string, maxAttempts: int, outcome: Outcome)
    | TakeNext(w: nat, r: Round)
    | EndTask(w: nat, r: Round)
    | Die(w: nat)

  // The steps a command takes. One that its thread cannot give now takes none.
  ghost predicate Takes(s: State, c: Command, handlers: set<string>, events: seq<Event>) {
    match c
    case Put(kind, payload, max, outcome) =>
      if outcome == Refused || !Fits(max) then events == []
      else |events| == 1 && events[0].Insert? && events[0] == Insert(events[0].id, kind, payload, max)
    case TakeNext(w, r) =>
      if w in s.workers || r.now < s.now then events == []
      else
        || (events == [Tick(r.now)]
            && (r.claim != Refused ==> forall id :: id in s.rows && id !in r.locked ==> !Claimable(s.rows[id], r.now)))
        || (r.claim != Refused
            && exists id :: Selected(s.rows, r.locked, r.now, id) && events == [Tick(r.now)] + [ClaimStep(w, id, r)])
    case EndTask(w, r) =>
      events == if w in s.workers && s.now <= r.back then [Tick(r.back)] + [EndStep(w, s.workers[w].kind, r, handlers)] else []
    case Die(w) => events == if w in s.workers then [Crash(w)] else []
  }

  // The run goes on with the steps of this command, all of them enabled.
  ghost predicate Extends(before: seq<Event>, after: seq<Event>, c: Command, handlers: set<string>) {
    AllTaken(before, after) && Takes(After(before), c, handlers, after[|before|..])
  }

  lemma ItExtends(before: seq<Event>, events: seq<Event>, c: Command, handlers: set<string>)
    requires AllTaken(before, before + events) && Takes(After(before), c, handlers, events)
    ensures Extends(before, before + events, c, handlers)
  {
    hide AllTaken, Takes, After;
    assert (before + events)[|before|..] == events;
  }

  lemma TakenOne(trace: seq<Event>, step: Option<Event>)
    requires step.Some? ==> Enabled(After(trace), step.value)
    ensures AllTaken(trace, trace + if step.Some? then [step.value] else [])
  {
    hide After, Enabled;
    var longer := trace + if step.Some? then [step.value] else [];
    assert longer[..|trace|] == trace;
  }

  class Replicas {
    const queue: PgTaskQueue
    const handlers: set<string>
    const staff: seq<PgWorker>
    var tasks: map<nat, Claim>      // what the live workers at work have claimed: local variables
    var clock: int

    constructor (queue: PgTaskQueue, handlers: set<string>, staff: seq<PgWorker>)
      requires queue.Valid() && queue.Shows(INITIAL)
      requires forall w :: 0 <= w < |staff| ==> staff[w].queue == queue && staff[w].w == w && staff[w].handlers == handlers
      ensures this.queue == queue && this.handlers == handlers && this.staff == staff && Shows([])
    {
      this.queue, this.handlers, this.staff := queue, handlers, staff;
      tasks, clock := map[], 0;
    }

    ghost predicate Shows(trace: seq<Event>)
      reads this, queue, staff
    {
      var s := After(trace);
      && queue.Valid() && queue.Shows(s) && tasks == s.workers && clock == s.now
      && forall w :: 0 <= w < |staff| ==> staff[w].queue == queue && staff[w].w == w && staff[w].handlers == handlers
    }

    method PutStep(kind: string, payload: string, max: int, outcome: Outcome, ghost trace: seq<Event>)
      returns (ghost longer: seq<Event>)
      requires Shows(trace)
      modifies queue
      ensures Shows(longer) && Extends(trace, longer, Put(kind, payload, max, outcome), handlers)
    {
      hide After;
      ghost var step;
      var id;
      id, step := queue.Enqueue(kind, payload, max, clock, outcome, After(trace));
      ghost var events := if step.Some? then [step.value] else [];
      TakenOne(trace, step);
      if step.Some? {
        Append(trace, step.value);
      } else {
        assert trace + events == trace;
      }
      longer := trace + events;
      ItExtends(trace, events, Put(kind, payload, max, outcome), handlers);
    }

    method TakeStep(w: nat, r: Round, ghost trace: seq<Event>) returns (ghost longer: seq<Event>)
      requires Shows(trace) && w < |staff| && w !in tasks && clock <= r.now
      modifies `tasks, `clock, queue
      ensures Shows(longer) && Extends(trace, longer, TakeNext(w, r), handlers)
    {
      hide After, AllTaken, Selected;
      var claim;
      ghost var taken;
      claim, longer, taken := staff[w].TakeOne(r, trace);
      ghost var events := [Tick(r.now)] + if taken.Some? then [ClaimStep(w, taken.value, r)] else [];
      assert longer == trace + events;
      if claim.Some? {
        tasks := tasks[w := claim.value];
      }
      clock := r.now;
      if taken == None {
        assert events == [Tick(r.now)];
      } else {
        assert Selected(After(trace).rows, r.locked, r.now, taken.value);
      }
      ItExtends(trace, events, TakeNext(w, r), handlers);
    }

    method EndStepOf(w: nat, r: Round, ghost trace: seq<Event>) returns (ghost longer: seq<Event>)
      requires Shows(trace) && w < |staff| && w in tasks && clock <= r.back
      modifies `tasks, `clock, queue
      ensures Shows(longer) && Extends(trace, longer, EndTask(w, r), handlers)
    {
      hide After, AllTaken, EndStep;
      var task := tasks[w];
      longer := staff[w].Dispatch(task, r, trace);
      ghost var events := [Tick(r.back)] + [EndStep(w, task.kind, r, handlers)];
      assert longer == trace + events;
      tasks := tasks - {w};
      clock := r.back;
      ItExtends(trace, events, EndTask(w, r), handlers);
    }

    method DieStep(w: nat, ghost trace: seq<Event>) returns (ghost longer: seq<Event>)
      requires Shows(trace) && w in tasks
      modifies `tasks
      ensures Shows(longer) && Extends(trace, longer, Die(w), handlers)
    {
      hide After;
      Append(trace, Crash(w));
      TakenOne(trace, Some(Crash(w)));
      tasks := tasks - {w};
      longer := trace + [Crash(w)];
      ItExtends(trace, [Crash(w)], Die(w), handlers);
    }

    method Step(c: Command, ghost trace: seq<Event>) returns (ghost longer: seq<Event>)
      requires Shows(trace) && (c.TakeNext? || c.EndTask? ==> c.w < |staff|)
      modifies this, queue
      ensures Shows(longer) && Extends(trace, longer, c, handlers)
    {
      hide After;
      longer := trace;
      TakenOne(trace, None);
      ghost var s := After(trace);
      assert trace + [] == trace;
      if c.Put? {
        longer := PutStep(c.kind, c.payload, c.maxAttempts, c.outcome, trace);
      } else if c.TakeNext? && c.w !in tasks && clock <= c.r.now {
        longer := TakeStep(c.w, c.r, trace);
      } else if c.EndTask? && c.w in tasks && clock <= c.r.back {
        longer := EndStepOf(c.w, c.r, trace);
      } else if c.Die? && c.w in tasks {
        longer := DieStep(c.w, trace);
      } else {
        ItExtends(trace, [], c, handlers);
      }
    }

    // Any transactions of any threads in any order. `marks` are the runs of the protocol before and
    // after each. At every moment a running row has no live worker exactly if one of the three faults
    // happened to it, and no row's attempts pass max(1, max_attempts).
    method Interleave(commands: seq<Command>, ghost trace: seq<Event>) returns (ghost marks: seq<seq<Event>>)
      requires Shows(trace)
      requires forall i :: 0 <= i < |commands| && (commands[i].TakeNext? || commands[i].EndTask?) ==> commands[i].w < |staff|
      modifies this, queue
      ensures |marks| == |commands| + 1 && marks[0] == trace && Shows(marks[|commands|])
      ensures forall i :: 0 <= i < |commands| ==> Extends(marks[i], marks[i + 1], commands[i], handlers)
      ensures forall id :: id in queue.rows && queue.rows[id].status.Running? ==>
        && 1 <= queue.rows[id].attempts <= TaskLife.Max1(queue.rows[id].maxAttempts)
        && (StrandedAlong(marks[|commands|], id) <==> forall w :: w in tasks ==> tasks[w].id != id)
    {
      hide After, Extends;
      marks := [trace];
      var i := 0;
      while i < |commands|
        invariant 0 <= i <= |commands| && |marks| == i + 1 && marks[0] == trace && Shows(marks[i])
        invariant forall k :: 0 <= k < i ==> Extends(marks[k], marks[k + 1], commands[k], handlers)
      {
        ghost var longer := Step(commands[i], marks[i]);
        marks := marks + [longer];
        i := i + 1;
      }
      forall id | id in queue.rows && queue.rows[id].status.Running?
        ensures 1 <= queue.rows[id].attempts <= TaskLife.Max1(queue.rows[id].maxAttempts)
        ensures StrandedAlong(marks[|commands|], id) <==> forall w :: w in tasks ==> tasks[w].id != id
      {
        PgAttemptsAreBounded(marks[|commands|], id);
        StrandedExactly(marks[|commands|], id);
      }
    }
  }
}
