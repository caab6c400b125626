// What the two scripts of the Redis queue bring back to the pending list, in terms of claim times and
// scores, and so what becomes of a task whose worker has crashed.
module RedisRecovery {
  import opened Text
  import opened RedisProtocol
  import opened RedisOwnership
  import RedisSafety
  import TaskLife

  ghost predicate Waits(s: State, t: Task) {
    exists i :: 0 <= i < |s.pending| && s.pending[i].task == t
  }

  // A reaper step takes every record claimed before its cutoff from the running hash to the pending
  // list, and leaves every other one.
  lemma ReapReturns(s: State, order: seq<Task>, cutoff: int, id: string)
    requires Enabled(s, Reap(order, cutoff)) && id in s.running && s.running[id].id == id
    requires forall other :: other in s.running ==> s.running[other].id == other
    ensures var s' := Next(s, Reap(order, cutoff)); var t := s.running[id];
      if t.claimedAt.Some? && t.claimedAt.value < cutoff then id !in s'.running && Waits(s', t)
      else id in s'.running && s'.running[id] == t
  {
    var s' := Next(s, Reap(order, cutoff));
    var t := s.running[id];
    if t.claimedAt.Some? && t.claimedAt.value < cutoff {
      assert t in Stale(s.running, cutoff);
      var k :| 0 <= k < |order| && order[k] == t;
      assert s'.pending[|s.pending| + k].task == t;
    } else if i :| 0 <= i < |order| && order[i].id == id {
      assert order[i] in Stale(s.running, cutoff);
    }
  }

  // A promotion step does the same with every record whose score the cutoff has reached.
  lemma PromotionReturns(s: State, order: seq<Task>, cutoff: int, t: Task)
    requires Enabled(s, Promote(order, cutoff)) && t in s.retry
    ensures var s' := Next(s, Promote(order, cutoff));
      if s.retry[t] <= cutoff then t !in s'.retry && Waits(s', t) else t in s'.retry && s'.retry[t] == s.retry[t]
  {
    hide TaskLife.Delay;
    var s' := Next(s, Promote(order, cutoff));
    if s.retry[t] <= cutoff {
      assert t in Matured(s.retry, cutoff);
      var k :| 0 <= k < |order| && order[k] == t;
      assert s'.pending[|s.pending| + k].task == t;
    }
  }

  // A claim counts one attempt and stamps the record with its time, and so does one whose reply is lost.
  lemma ClaimStamps(s: State, w: nat, stamp: int)
    requires Enabled(s, Claim(w, stamp))
    ensures var t := Of(s, w).task; var s', s'' := Next(s, Claim(w, stamp)), Next(s, ClaimUnseen(w, stamp));
      && t.id in s'.running && s'.running[t.id].claimedAt == Some(stamp) && s'.running[t.id].attempts == t.attempts + 1
      && Of(s', w) == Busy(s'.running[t.id], Undecided)
      && t.id in s''.running && s''.running[t.id] == s'.running[t.id] && Of(s'', w) == Idle
  {
  }

  // Nothing but a reaper with a cutoff past its claim moves an orphan.
  lemma OrphanStays(s: State, home: map<string, Place>, ev: Event, id: string)
    requires Enabled(s, ev) && Settled(s, home) && id in home && home[id].AtOrphan? && home[id].task.claimedAt.Some?
    requires ev.Reap? ==> ev.cutoff <= home[id].task.claimedAt.value
    ensures id in HomeNext(s, home, ev) && HomeNext(s, home, ev)[id] == home[id]
  {
    hide Settled, TaskLife.Delay, Lists, Matured, Stale, ScoreOrder;
    if Moved(s, ev).Some? {
      MovedFrom(s, home, ev);
    }
  }

  // No reaper in these steps looks past time c.
  ghost predicate NoReapAfter(steps: seq<Event>, c: int) {
    forall i :: 0 <= i < |steps| && steps[i].Reap? ==> steps[i].cutoff <= c
  }

  lemma {:induction false} OrphanWaits(before: seq<Event>, more: seq<Event>, id: string)
    requires CleanRun(before + more) && id in Home(before) && Home(before)[id].AtOrphan?
    requires Home(before)[id].task.claimedAt.Some? && NoReapAfter(more, Home(before)[id].task.claimedAt.value)
    ensures id in Home(before + more) && Home(before + more)[id] == Home(before)[id]
    decreases |more|
  {
    hide After, Enabled, HomeNext, Settled, Clean;
    if more == [] {
      assert before + more == before;
    } else {
      var front, ev := more[..|more| - 1], more[|more| - 1];
      assert (before + more)[..|before + more| - 1] == before + front && (before + more)[|before + more| - 1] == ev;
      OrphanWaits(before, front, id);
      if Enabled(After(before + front), ev) {
        RunSettles(before + front);
        OrphanStays(After(before + front), Home(before + front), ev, id);
      }
    }
  }

  lemma OrphanFound(s: State, home: map<string, Place>, id: string)
    requires Settled(s, home) && id in home && home[id].AtOrphan?
    ensures id in s.running && s.running[id] == home[id].task && home[id].task.id == id
  {
    assert Found(s, id, home[id]);
  }

  lemma CrashLeavesOrphan(before: seq<Event>, w: nat)
    requires CleanRun(before) && Of(After(before), w).Busy?
    ensures var t := Of(After(before), w).task; var home := Home(before + [Crash(w)]);
      t.claimedAt.Some? && t.id in home && home[t.id] == AtOrphan(t)
  {
    hide After, PendingSits, RetrySits, RunningSits, AllFound;
    RunSettles(before);
    assert WorkerSits(Home(before), w, After(before).workers[w]);
    assert (before + [Crash(w)])[..|before|] == before;
  }

  lemma {:induction false} PrefixClean(before: seq<Event>, more: seq<Event>)
    requires CleanRun(before + more)
    ensures CleanRun(before)
    decreases |more|
  {
    hide After, Enabled, Clean;
    if more == [] {
      assert before + more == before;
    } else {
      assert (before + more)[..|before + more| - 1] == before + more[..|more| - 1];
      PrefixClean(before, more[..|more| - 1]);
    }
  }

  // A worker crashes while it has a task. In any clean run that goes on from there the record stays
  // in the running hash until the first reaper whose cutoff lies past its claim, and that one puts
  // it back on the pending list.
  lemma CrashedTaskReturns(before: seq<Event>, w: nat, more: seq<Event>, order: seq<Task>, cutoff: int)
    requires Of(After(before), w).Busy?
    requires CleanRun(before + [Crash(w)] + more)
    requires var t := Of(After(before), w).task;
      t.claimedAt.Some? ==> NoReapAfter(more, t.claimedAt.value) && t.claimedAt.value < cutoff
    requires Enabled(After(before + [Crash(w)] + more), Reap(order, cutoff))
    ensures var t := Of(After(before), w).task; var s := After(before + [Crash(w)] + more);
      && t.claimedAt.Some? && t.id in s.running && s.running[t.id] == t
      && t.id !in Next(s, Reap(order, cutoff)).running && Waits(Next(s, Reap(order, cutoff)), t)
  {
    hide After, Next, Enabled, Settled, Home, CleanRun;
    var t := Of(After(before), w).task;
    var crashed := before + [Crash(w)];
    PrefixClean(crashed, more);
    PrefixClean(before, [Crash(w)]);
    CrashLeavesOrphan(before, w);
    OrphanWaits(crashed, more, t.id);
    RunSettles(crashed + more);
    OrphanFound(After(crashed + more), Home(crashed + more), t.id);
    RecordsKeyed(crashed + more);
    ReapReturns(After(crashed + more), order, cutoff, t.id);
  }

  lemma RecordsKeyed(trace: seq<Event>)
    ensures forall id :: id in After(trace).running ==> After(trace).running[id].id == id
  {
    hide After;
    RedisSafety.RunAccounts(trace);
  }

  // With the shipped limit: the reaper that runs ten minutes and a moment after the claim.
  lemma ReapedAfterTenMinutes(s: State, order: seq<Task>, now: int, id: string)
    requires Enabled(s, Reap(order, now - 600 * TaskLife.SECOND)) && id in s.running && s.running[id].claimedAt.Some?
    requires forall other :: other in s.running ==> s.running[other].id == other
    ensures id !in Next(s, Reap(order, now - 600 * TaskLife.SECOND)).running
      <==> now > s.running[id].claimedAt.value + 600_000_000
  {
    ReapReturns(s, order, now - 600 * TaskLife.SECOND, id);
  }
}
