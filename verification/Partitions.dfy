// scripts/retention_cleanup.py: weekly partitions of a table, named after the Monday they start
// on. Times are whole seconds from the first midnight of the calendar, a Monday.
module Partitions {
  const DAY := 86400
  const WEEK := 604800

  // Midnight of the Monday of that week.
  function Monday(t: nat): (start: nat)
    ensures start % WEEK == 0 && start <= t < start + WEEK
  {
    t - t % WEEK
  }

  predicate Covers(start: nat, t: int) {
    start <= t < start + WEEK
  }

  // A row of this time can be stored.
  ghost predicate Covered(starts: set<nat>, t: int) {
    exists start :: start in starts && Covers(start, t)
  }

  ghost predicate Aligned(starts: set<nat>) {
    forall start :: start in starts ==> start % WEEK == 0
  }

  function Dropped(starts: set<nat>, cutoff: int): set<nat> {
    set start | start in starts && start + WEEK < cutoff
  }

  ghost function Created(now: nat, weeks: nat): set<nat> {
    set i | 0 <= i < weeks :: Monday(now + i * WEEK)
  }

  // One table's partitions, by the start read back from the partition's name.
  class Table {
    var starts: set<nat>

    constructor ()
      ensures starts == {}
    {
      starts := {};
    }

    method DropOldPartitions(cutoff: int) returns (dropped: nat)
      modifies this
      ensures starts == old(starts) - Dropped(old(starts), cutoff)
      ensures dropped == |Dropped(old(starts), cutoff)|
      ensures forall start :: start in starts <==> start in old(starts) && cutoff <= start + 604800
    {
      dropped := 0;
      var rest := starts;
      ghost var gone: set<nat> := {};
      while rest != {}
        invariant rest <= old(starts) && gone == Dropped(old(starts) - rest, cutoff)
        invariant starts == old(starts) - gone && dropped == |gone|
        decreases rest
      {
        Some(rest);
        var start :| start in rest;
        assert old(starts) - (rest - {start}) == (old(starts) - rest) + {start};
        rest := rest - {start};
        if start + WEEK < cutoff {
          assert start !in gone;
          starts := starts - {start};
          dropped := dropped + 1;
          gone := gone + {start};
        }
      }
      assert old(starts) - rest == old(starts);
    }

    method CreateFuturePartitions(now: nat, weeksAhead: nat)
      modifies this
      ensures starts == old(starts) + Created(now, weeksAhead)
    {
      var i := 0;
      while i < weeksAhead
        invariant 0 <= i <= weeksAhead
        invariant starts == old(starts) + Created(now, i)
      {
        CreatedOne(now, i);
        var target := now + i * WEEK;
        var start := target - target % WEEK;
        if start !in starts {
          starts := starts + {start};
        }
        i := i + 1;
      }
    }

    method Cleanup(now: nat, retentionDays: int) returns (dropped: nat)
      modifies this
      ensures starts == AfterRun(old(starts), now, retentionDays)
      ensures dropped == |Dropped(old(starts), now - retentionDays * DAY)|
    {
      dropped := DropOldPartitions(now - retentionDays * DAY);
      CreateFuturePartitions(now, 4);
    }
  }

  lemma Some(s: set<nat>)
    requires s != {}
    ensures exists x :: x in s
  {
  }

  lemma CreatedOne(now: nat, i: nat)
    ensures Created(now, i + 1) == Created(now, i) + {Monday(now + i * WEEK)}
  {
  }

  // One run: drop what is older than the retention, then create this week and the next three.
  ghost function AfterRun(starts: set<nat>, now: nat, retentionDays: int): set<nat> {
    (starts - Dropped(starts, now - retentionDays * DAY)) + Created(now, 4)
  }

  ghost function AfterRuns(times: seq<nat>, retentionDays: int): set<nat> {
    if times == [] then {} else AfterRun(AfterRuns(times[..|times| - 1], retentionDays), times[|times| - 1], retentionDays)
  }

  // Two partitions never overlap, so a row has at most one home.
  lemma AlignedAreDisjoint(a: nat, b: nat, t: nat)
    requires a % WEEK == 0 && b % WEEK == 0 && Covers(a, t) && Covers(b, t)
    ensures a == b
  {
    assert a == Monday(t) == b by {
      assert a / WEEK == t / WEEK == b / WEEK;
    }
  }

  lemma {:induction false} RunsAreAligned(times: seq<nat>, retentionDays: int)
    ensures Aligned(AfterRuns(times, retentionDays))
  {
    if times != [] {
      RunsAreAligned(times[..|times| - 1], retentionDays);
    }
  }

  // A dropped partition holds no row at or after the cutoff; every row that goes is older than the
  // retention.
  lemma DropsOnlyOldRows(starts: set<nat>, cutoff: int, start: nat, t: int)
    requires start in Dropped(starts, cutoff) && Covers(start, t)
    ensures t < cutoff
  {
  }

  // And every week that ended before the cutoff goes: what is left reaches up to the retention, or
  // past the latest run.
  lemma {:induction false} NothingOlderIsLeft(times: seq<nat>, retentionDays: int, start: nat)
    requires times != [] && start in AfterRuns(times, retentionDays)
    ensures start + 604800 >= times[|times| - 1] - retentionDays * 86400 || start + 604800 > times[|times| - 1]
  {
    var now := times[|times| - 1];
    var before := AfterRuns(times[..|times| - 1], retentionDays);
    if start in Created(now, 4) {
      var i :| 0 <= i < 4 && start == Monday(now + i * WEEK);
    } else {
      assert start in before && start !in Dropped(before, now - retentionDays * DAY);
    }
  }

  // A run leaves four whole weeks from this Monday on in place.
  lemma RunCoversFourWeeks(starts: set<nat>, now: nat, retentionDays: int, t: nat)
    requires Monday(now) <= t < Monday(now) + 4 * WEEK
    ensures Covered(AfterRun(starts, now, retentionDays), t)
  {
    var i := (t - Monday(now)) / WEEK;
    assert 0 <= i < 4;
    assert Monday(now + i * WEEK) == Monday(now) + i * WEEK;
    assert Covers(Monday(now + i * WEEK), t);
    assert Monday(now + i * WEEK) in Created(now, 4);
  }

  // What arrives up to three weeks after a run has its partition, whatever was there before ...
  lemma ArrivalsAreCovered(starts: set<nat>, now: nat, retentionDays: int, t: nat)
    requires now <= t <= now + 3 * WEEK
    ensures Covered(AfterRun(starts, now, retentionDays), t)
  {
    RunCoversFourWeeks(starts, now, retentionDays, t);
  }

  // ... and a second later it may not have one.
  lemma LaterArrivalsAreNot() returns (now: nat)
    ensures !Covered(AfterRun({}, now, 30), now + 3 * WEEK + 1)
  {
    now := WEEK - 1;
  }

  // Runs at most four weeks apart, forward in time.
  ghost predicate Regular(times: seq<nat>) {
    forall i :: 0 < i < |times| ==> times[i - 1] <= times[i] <= times[i - 1] + 4 * WEEK
  }

  // From the first run on, every moment up to the end of the third week after the latest run that
  // is not older than the retention has its partition.
  lemma {:induction false} NoDayUncovered(times: seq<nat>, retentionDays: int, t: nat)
    requires times != [] && Regular(times)
    requires times[0] <= t < Monday(times[|times| - 1]) + 4 * WEEK
    requires t >= times[|times| - 1] - retentionDays * DAY
    ensures Covered(AfterRuns(times, retentionDays), t)
  {
    var front, now := times[..|times| - 1], times[|times| - 1];
    if t >= Monday(now) {
      RunCoversFourWeeks(AfterRuns(front, retentionDays), now, retentionDays, t);
    } else {
      assert now <= front[|front| - 1] + 4 * WEEK;
      NoDayUncovered(front, retentionDays, t);
      var start :| start in AfterRuns(front, retentionDays) && Covers(start, t);
      assert start in AfterRuns(times, retentionDays);
    }
  }

  // Four weeks and a second apart, two runs can leave a whole week between them uncovered.
  lemma LongGapUncovers() returns (times: seq<nat>, week: nat)
    ensures |times| == 2 && times[0] <= week < week + WEEK <= times[1] == times[0] + 4 * WEEK + 1
    ensures forall t :: week <= t < week + WEEK ==> !Covered(AfterRuns(times, 30), t)
  {
    times, week := [WEEK - 1, 5 * WEEK], 4 * WEEK;
    assert times[..1] == [WEEK - 1] && times[..1][..0] == [];
    assert AfterRuns(times[..1], 30) == AfterRun({}, WEEK - 1, 30);
    assert AfterRuns(times, 30) == AfterRun(AfterRun({}, WEEK - 1, 30), 5 * WEEK, 30);
  }
}
