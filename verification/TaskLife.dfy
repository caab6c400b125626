// The life of one task in either queue of server/task_queue.py while nothing crashes: it waits,
// is worked on, and either completes, fails for good, or is delayed and waits again.
module TaskLife {
  // Times are whole microseconds.
  const SECOND := 1_000_000

  function Max1(n: int): (r: int)
    ensures r >= 1 && r >= n && (r == 1 || r == n)
  {
    if n > 1 then n else 1
  }

  function Pow4(n: nat): (r: nat)
    ensures r >= 1
  {
    if n == 0 then 1 else 4 * Pow4(n - 1)
  }

  // The wait after a failure on the n-th attempt: 10 s, 40 s, 160 s and so on.
  function Delay(attempts: int): (r: int)
    ensures r >= 10 * SECOND
  {
    10 * SECOND * Pow4(if attempts > 1 then attempts - 1 else 0)
  }

  datatype Life =
    | Waiting(attempts: int, maxAttempts: int)
    | Active(attempts: int, maxAttempts: int)
    | Delayed(attempts: int, maxAttempts: int)
    | Completed
    | Failed

  predicate Finished(life: Life) {
    life.Completed? || life.Failed?
  }

  // One visible move. A delayed task may be claimed straight away once its time has come.
  ghost predicate Moves(a: Life, b: Life) {
    match a
    case Waiting(n, max) => b == Active(n + 1, max)
    case Active(n, max) => b == Completed || b == if n < max then Delayed(n, max) else Failed
    case Delayed(n, max) => b == Waiting(n, max) || b == Active(n + 1, max)
    case _ => false
  }

  // Remaining attempts first, then how far through the current one.
  ghost function Remaining(life: Life): int {
    match life
    case Waiting(n, max) => 3 * (Max1(max) - n) - 1
    case Active(n, max) => 3 * (Max1(max) - n) + 1
    case Delayed(n, max) => 3 * (Max1(max) - n)
    case _ => 0
  }

  // A task that waits or is delayed has an attempt left.
  ghost predicate InBounds(life: Life) {
    match life
    case Waiting(n, max) => 0 <= n < Max1(max)
    case Active(n, max) => 1 <= n <= Max1(max)
    case Delayed(n, max) => 1 <= n < max
    case _ => true
  }

  ghost predicate Chain(lives: seq<Life>, maxAttempts: int) {
    && |lives| > 0 && lives[0] == Waiting(0, maxAttempts)
    && forall i :: 0 < i < |lives| ==> Moves(lives[i - 1], lives[i])
  }

  lemma MoveDecreases(a: Life, b: Life)
    requires InBounds(a) && Moves(a, b)
    ensures InBounds(b) && 0 <= Remaining(b) < Remaining(a)
    ensures !b.Completed? && !b.Failed? ==> b.maxAttempts == a.maxAttempts
  {
  }

  // ----- what a whole life adds up to -----------------------------------------------------------

  ghost function Dispatches(lives: seq<Life>): nat {
    if lives == [] then 0
    else Dispatches(lives[..|lives| - 1]) + if lives[|lives| - 1].Active? then 1 else 0
  }

  ghost function BackOff(lives: seq<Life>): int {
    if lives == [] then 0
    else BackOff(lives[..|lives| - 1]) + if lives[|lives| - 1].Delayed? then Delay(lives[|lives| - 1].attempts) else 0
  }

  // The delays of the first n failures together.
  ghost function DelaysUpTo(n: int): (r: int)
    ensures r >= 0
    decreases if n > 0 then n else 0
  {
    if n <= 0 then 0 else DelaysUpTo(n - 1) + Delay(n)
  }

  lemma {:induction false} DelaysClosedForm(n: nat)
    ensures 3 * DelaysUpTo(n) == 10 * SECOND * (Pow4(n) - 1)
  {
    if n > 0 {
      DelaysClosedForm(n - 1);
    }
  }

  lemma {:induction false} DelaysGrow(m: int, n: int)
    requires 0 <= m <= n
    ensures DelaysUpTo(m) <= DelaysUpTo(n)
    decreases n
  {
    if m < n {
      DelaysGrow(m, n - 1);
    }
  }

  ghost function DelaysSoFar(life: Life, maxAttempts: int): int {
    match life
    case Waiting(n, _) => DelaysUpTo(n)
    case Active(n, _) => DelaysUpTo(n - 1)
    case Delayed(n, _) => DelaysUpTo(n)
    case _ => DelaysUpTo(Max1(maxAttempts) - 1)
  }

  lemma DelaysSoFarBounded(life: Life, maxAttempts: int)
    requires InBounds(life) && (!Finished(life) ==> life.maxAttempts == maxAttempts)
    ensures DelaysSoFar(life, maxAttempts) <= DelaysUpTo(Max1(maxAttempts) - 1)
  {
    match life
    case Waiting(n, _) => DelaysGrow(n, Max1(maxAttempts) - 1);
    case Active(n, _) => DelaysGrow(n - 1, Max1(maxAttempts) - 1);
    case Delayed(n, _) => DelaysGrow(n, Max1(maxAttempts) - 1);
    case _ =>
  }

  // Every prefix of a life is accounted for by its last state.
  lemma {:induction false} ChainAccounts(lives: seq<Life>, maxAttempts: int)
    requires Chain(lives, maxAttempts)
    ensures var last := lives[|lives| - 1];
      && InBounds(last) && (!Finished(last) ==> last.maxAttempts == maxAttempts)
      && |lives| - 1 + Remaining(last) <= 3 * Max1(maxAttempts) - 1
      && Dispatches(lives) == (if Finished(last) then Dispatches(lives[..|lives| - 1]) else last.attempts)
      && Dispatches(lives) <= Max1(maxAttempts)
      && BackOff(lives) <= DelaysSoFar(last, maxAttempts)
  {
    var last := lives[|lives| - 1];
    if |lives| == 1 {
      assert lives[..0] == [];
    } else {
      var front := lives[..|lives| - 1];
      var prior := front[|front| - 1];
      ChainAccounts(front, maxAttempts);
      MoveDecreases(prior, last);
      DelaysSoFarBounded(prior, maxAttempts);
    }
  }

  // A life has at most 3 * max(1, max_attempts) - 1 moves, at most max(1, max_attempts)
  // dispatches, and waits at most 10 s * (4^(max_attempts - 1) - 1) / 3 in all.
  lemma LifeIsBounded(lives: seq<Life>, maxAttempts: int)
    requires Chain(lives, maxAttempts)
    ensures |lives| - 1 <= 3 * Max1(maxAttempts) - 1
    ensures Dispatches(lives) <= Max1(maxAttempts)
    ensures 3 * BackOff(lives) <= 10 * SECOND * (Pow4(Max1(maxAttempts) - 1) - 1)
  {
    ChainAccounts(lives, maxAttempts);
    var last := lives[|lives| - 1];
    DelaysSoFarBounded(last, maxAttempts);
    DelaysClosedForm(Max1(maxAttempts) - 1);
    assert Remaining(last) >= 0;
  }

  lemma Start(maxAttempts: int)
    ensures Chain([Waiting(0, maxAttempts)], maxAttempts)
    ensures Dispatches([Waiting(0, maxAttempts)]) == 0 && BackOff([Waiting(0, maxAttempts)]) == 0
  {
    assert [Waiting(0, maxAttempts)][..0] == [];
  }

  // Recording a move keeps the chain.
  lemma Lengthen(lives: seq<Life>, maxAttempts: int, life: Life)
    requires Chain(lives, maxAttempts) && (|lives| > 0 ==> Moves(lives[|lives| - 1], life))
    ensures Chain(lives + [life], maxAttempts) && (lives + [life])[|lives|] == life
    ensures Dispatches(lives + [life]) == Dispatches(lives) + if life.Active? then 1 else 0
    ensures BackOff(lives + [life]) == BackOff(lives) + if life.Delayed? then Delay(life.attempts) else 0
  {
    assert (lives + [life])[..|lives|] == lives;
  }

  // The life of the task whose every attempt fails, up to its (n + 1)-st dispatch.
  ghost function Unlucky(n: nat, maxAttempts: int): seq<Life> {
    if n == 0 then [Waiting(0, maxAttempts), Active(1, maxAttempts)]
    else Unlucky(n - 1, maxAttempts) + [Delayed(n, maxAttempts), Waiting(n, maxAttempts), Active(n + 1, maxAttempts)]
  }

  lemma {:induction false} UnluckySoFar(n: nat, maxAttempts: int)
    requires n < Max1(maxAttempts)
    ensures var lives := Unlucky(n, maxAttempts);
      && Chain(lives, maxAttempts) && lives[|lives| - 1] == Active(n + 1, maxAttempts)
      && |lives| == 3 * n + 2 && Dispatches(lives) == n + 1 && BackOff(lives) == DelaysUpTo(n)
  {
    hide Chain, Dispatches, BackOff;
    if n == 0 {
      Start(maxAttempts);
      Lengthen([Waiting(0, maxAttempts)], maxAttempts, Active(1, maxAttempts));
      assert Unlucky(n, maxAttempts) == [Waiting(0, maxAttempts)] + [Active(1, maxAttempts)];
    } else {
      var front := Unlucky(n - 1, maxAttempts);
      UnluckySoFar(n - 1, maxAttempts);
      Lengthen(front, maxAttempts, Delayed(n, maxAttempts));
      Lengthen(front + [Delayed(n, maxAttempts)], maxAttempts, Waiting(n, maxAttempts));
      Lengthen(front + [Delayed(n, maxAttempts)] + [Waiting(n, maxAttempts)], maxAttempts, Active(n + 1, maxAttempts));
      assert Unlucky(n, maxAttempts) ==
        front + [Delayed(n, maxAttempts)] + [Waiting(n, maxAttempts)] + [Active(n + 1, maxAttempts)];
    }
  }

  // All three bounds are reached by that task.
  lemma UnluckyReaches(maxAttempts: int)
    ensures var lives := Unlucky(Max1(maxAttempts) - 1, maxAttempts) + [Failed];
      && Chain(lives, maxAttempts) && |lives| - 1 == 3 * Max1(maxAttempts) - 1
      && Dispatches(lives) == Max1(maxAttempts)
      && 3 * BackOff(lives) == 10 * SECOND * (Pow4(Max1(maxAttempts) - 1) - 1)
  {
    hide Chain, Dispatches, BackOff, Unlucky;
    UnluckySoFar(Max1(maxAttempts) - 1, maxAttempts);
    Lengthen(Unlucky(Max1(maxAttempts) - 1, maxAttempts), maxAttempts, Failed);
    DelaysClosedForm(Max1(maxAttempts) - 1);
  }
}
