// What holds of the stored profiles after any sequence of payloads on any days.
module BaselineTheorems {
  import opened Reals
  import opened Text
  import opened Baseline

  // ----- one profile, one payload -----------------------------------------------------------------

  // Deviations are learned exactly with their averages and never fall below the floor.
  ghost predicate Floored(p: Profile) {
    && p.stds.Keys == p.means.Keys
    && (forall f :: f in p.means ==> p.stds[f] >= 10.0 && p.stds[f] >= 0.25 * Abs(p.means[f]))
  }

  // A feature is not counted more often than the profile was updated.
  ghost predicate Tallied(p: Profile) {
    forall f :: Count(p.supplied, f) + Count(p.missing, f) <= p.samples
  }

  lemma MergedIsFloored(p: Profile, decay: real)
    requires Floored(p)
    ensures Floored(Merged(p, decay))
  {
    hide Abs, MergedMean;
  }

  lemma UpdatedIsFloored(p: Profile, features: map<string, real>, today: string, decay: real)
    requires Floored(p)
    ensures Floored(Updated(p, features, today, decay))
  {
    hide Abs, Merged, Added, Raised;
    MergedIsFloored(p, decay);
  }

  lemma UpdatedIsTallied(p: Profile, features: map<string, real>, today: string, decay: real)
    requires Tallied(p)
    ensures Tallied(Updated(p, features, today, decay))
  {
    hide Updated, Count;
    var q := Updated(p, features, today, decay);
    forall f ensures Count(q.supplied, f) + Count(q.missing, f) <= q.samples {
      CountedExactlyOnce(p, features, today, decay, f);
    }
  }

  // Each payload counts every feature that has an average, or that it supplies, exactly once:
  // as supplied or as missing. It counts no other feature.
  lemma CountedExactlyOnce(p: Profile, features: map<string, real>, today: string, decay: real, f: string)
    ensures var q := Updated(p, features, today, decay);
      && Count(q.supplied, f) == Count(p.supplied, f) + (if f in features then 1 else 0)
      && Count(q.missing, f) == Count(p.missing, f) + (if f in q.means && f !in features then 1 else 0)
      && q.samples == p.samples + 1
  {
    hide MergedMean, MergedStd, Added;
  }

  // The day's average, and where a quantity goes from `before` at that weight.
  ghost function Daily(p: Profile, f: string): real
    requires Count(p.counts, f) > 0
  {
    Value(p.sums, f, 0.0) / (p.counts[f] as real)
  }

  ghost function Towards(decay: real, before: real, latest: real): real {
    before - decay * (before - latest)
  }

  // The merge, written out: average and deviation move by the decay towards the day's average and
  // its distance from the new one; the deviation stays above 10 and a quarter of the average.
  lemma MergeInNumbers(p: Profile, decay: real, f: string)
    requires Count(p.counts, f) > 0
    ensures var q := Merged(p, decay); var day := Daily(p, f);
      && f in q.means && f in q.stds
      && q.means[f] == Towards(decay, if f in p.means then p.means[f] else day, day)
      && q.stds[f] == Max(Max(Towards(decay, if f in p.stds then p.stds[f] else 10.0, Abs(day - q.means[f])),
                              0.25 * Abs(q.means[f])), 10.0)
  {
    MergedAt(p, decay, f);
    BlendIsTowards(decay, if f in p.means then p.means[f] else Daily(p, f), Daily(p, f));
    BlendIsTowards(decay, if f in p.stds then p.stds[f] else 10.0, Abs(Daily(p, f) - MergedMean(p, f, decay)));
    hide Merged, Blend, Towards, Abs, Max;
    assert Daily(p, f) == DailyAverage(p, f);
  }

  lemma MergedAt(p: Profile, decay: real, f: string)
    requires Count(p.counts, f) > 0
    ensures var q := Merged(p, decay);
      f in q.means && f in q.stds && q.means[f] == MergedMean(p, f, decay) && q.stds[f] == MergedStd(p, f, decay)
  {
    hide MergedMean, MergedStd;
  }

  lemma BlendIsTowards(decay: real, before: real, latest: real)
    ensures Blend(decay, before, latest) == Towards(decay, before, latest)
  {
  }

  lemma OthersStay(p: Profile, decay: real, f: string)
    requires Count(p.counts, f) == 0
    ensures var q := Merged(p, decay);
      && (f in q.means <==> f in p.means) && (f in p.means ==> q.means[f] == p.means[f])
      && (f in q.stds <==> f in p.stds) && (f in p.stds ==> q.stds[f] == p.stds[f])
  {
  }

  // Payloads of one day only fill the buffer; the first one of another day merges it.
  lemma OneMergeADay(p: Profile, features: map<string, real>, today: string, decay: real)
    ensures var q := Updated(p, features, today, decay);
      && q.mergeDate == today
      && (p.mergeDate == "" || p.mergeDate == today ==> q.means == p.means && q.stds == p.stds)
      && (p.mergeDate != "" && p.mergeDate != today ==> q.means == Merged(p, decay).means && q.stds == Merged(p, decay).stds)
  {
    hide Merged, Added, Raised;
  }

  // The buffer holds the sum and the number of the values supplied since the last merge.
  lemma BufferInNumbers(p: Profile, features: map<string, real>, today: string, decay: real, f: string)
    ensures var q := Updated(p, features, today, decay); var kept := p.mergeDate == "" || p.mergeDate == today;
      && Count(q.counts, f) == (if kept then Count(p.counts, f) else 0) + (if f in features then 1 else 0)
      && Value(q.sums, f, 0.0) == (if kept then Value(p.sums, f, 0.0) else 0.0) + (if f in features then features[f] else 0.0)
  {
    RecordedCounts(p, features, today, decay, f);
  }

  // ----- storage over runs ----------------------------------------------------------------------------

  lemma LoadLearned(storage: map<string, Profile>, u: Update, decay: real, e: string)
    ensures var role := RoleKey(RoleOf(u.user)); var p := Load(storage, e);
      var q := if e == u.user then Updated(p, u.features, u.today, decay) else p;
      Load(Learned(storage, u, decay), e) == if e == role then Updated(q, u.features, u.later, decay) else q
  {
    hide Updated, RoleOf;
  }

  lemma {:induction false} HistoryIsSane(run: seq<Update>, decay: real, e: string)
    ensures Floored(Load(History(run, decay), e)) && Tallied(Load(History(run, decay), e))
  {
    hide Floored, Tallied, Updated, RoleOf, Learned, Load;
    if run == [] {
      EmptyIsSane(e);
    } else {
      var front, u := run[..|run| - 1], run[|run| - 1];
      HistoryIsSane(front, decay, e);
      LoadLearned(History(front, decay), u, decay, e);
      var p := Load(History(front, decay), e);
      var q := if e == u.user then Updated(p, u.features, u.today, decay) else p;
      UpdatedIsFloored(p, u.features, u.today, decay);
      UpdatedIsFloored(q, u.features, u.later, decay);
      UpdatedIsTallied(p, u.features, u.today, decay);
      UpdatedIsTallied(q, u.features, u.later, decay);
    }
  }

  lemma EmptyIsSane(e: string)
    ensures Floored(Load(map[], e)) && Tallied(Load(map[], e))
  {
  }

  // After any run, every learned deviation is at least max(10, 0.25 * |mean|), and per feature the
  // supplied and missing counts together never pass the profile's own count.
  lemma StdsAndCounts(run: seq<Update>, decay: real, e: string, f: string)
    ensures var p := Load(History(run, decay), e);
      && (f in p.means <==> f in p.stds)
      && (f in p.stds ==> p.stds[f] >= Max(10.0, 0.25 * Abs(p.means[f])))
      && Count(p.supplied, f) + Count(p.missing, f) <= p.samples
  {
    hide History, Load, Abs, Count;
    HistoryIsSane(run, decay, e);
    var p := Load(History(run, decay), e);
    assert f in p.means.Keys <==> f in p.stds.Keys;
  }

  // ----- averages stay between the values supplied ------------------------------------------------------

  predicate Feeds(u: Update, e: string) {
    u.user == e || RoleKey(RoleOf(u.user)) == e
  }

  ghost predicate ValuesWithin(run: seq<Update>, e: string, f: string, lo: real, hi: real) {
    forall i :: 0 <= i < |run| && Feeds(run[i], e) && f in run[i].features ==> lo <= run[i].features[f] <= hi
  }

  ghost predicate Between(p: Profile, f: string, lo: real, hi: real) {
    && (f in p.means ==> lo <= p.means[f] <= hi)
    && Count(p.counts, f) as real * lo <= Value(p.sums, f, 0.0) <= Count(p.counts, f) as real * hi
  }

  lemma QuotientBetween(n: real, total: real, lo: real, hi: real)
    requires n > 0.0 && n * lo <= total <= n * hi
    ensures lo <= total / n <= hi
  {
    assert total / n * n == total;
  }

  lemma Product(x: real, y: real)
    requires x >= 0.0 && y >= 0.0
    ensures x * y >= 0.0
  {
  }

  lemma BlendBetween(decay: real, a: real, b: real, lo: real, hi: real)
    requires 0.0 <= decay <= 1.0 && lo <= a <= hi && lo <= b <= hi
    ensures lo <= Blend(decay, a, b) <= hi
  {
    Product(1.0 - decay, a - lo);
    Product(decay, b - lo);
    Product(1.0 - decay, hi - a);
    Product(decay, hi - b);
    assert Blend(decay, a, b) - lo == (1.0 - decay) * (a - lo) + decay * (b - lo);
    assert hi - Blend(decay, a, b) == (1.0 - decay) * (hi - a) + decay * (hi - b);
  }

  lemma MergedBetween(p: Profile, decay: real, f: string, lo: real, hi: real)
    requires 0.0 <= decay <= 1.0 && Between(p, f, lo, hi)
    ensures Between(Merged(p, decay), f, lo, hi)
  {
    hide Blend;
    if Count(p.counts, f) > 0 {
      QuotientBetween(p.counts[f] as real, Value(p.sums, f, 0.0), lo, hi);
      BlendBetween(decay, Value(p.means, f, DailyAverage(p, f)), DailyAverage(p, f), lo, hi);
    }
  }

  lemma OneMore(n: nat, total: real, v: real, lo: real, hi: real)
    requires n as real * lo <= total <= n as real * hi && lo <= v <= hi
    ensures (n + 1) as real * lo <= total + v <= (n + 1) as real * hi
  {
    assert (n + 1) as real * lo == n as real * lo + lo && (n + 1) as real * hi == n as real * hi + hi;
  }

  lemma UpdatedBetween(p: Profile, features: map<string, real>, today: string, decay: real, f: string, lo: real, hi: real)
    requires 0.0 <= decay <= 1.0 && Between(p, f, lo, hi) && (f in features ==> lo <= features[f] <= hi)
    ensures Between(Updated(p, features, today, decay), f, lo, hi)
  {
    hide Merged, Updated, Between;
    var merged := if p.mergeDate != "" && p.mergeDate != today then Merged(p, decay) else p;
    MergedBetween(p, decay, f, lo, hi);
    RecordedCounts(p, features, today, decay, f);
    RecordedBetween(merged, Updated(p, features, today, decay), features, f, lo, hi);
  }

  lemma RecordedBetween(p: Profile, q: Profile, features: map<string, real>, f: string, lo: real, hi: real)
    requires Between(p, f, lo, hi) && (f in features ==> lo <= features[f] <= hi) && q.means == p.means
    requires Count(q.counts, f) == Count(p.counts, f) + (if f in features then 1 else 0)
    requires Value(q.sums, f, 0.0) == Value(p.sums, f, 0.0) + (if f in features then features[f] else 0.0)
    ensures Between(q, f, lo, hi)
  {
    hide Count, Value;
    if f in features {
      OneMore(Count(p.counts, f), Value(p.sums, f, 0.0), features[f], lo, hi);
    }
  }

  lemma RecordedCounts(p: Profile, features: map<string, real>, today: string, decay: real, f: string)
    ensures var merged := if p.mergeDate != "" && p.mergeDate != today then Merged(p, decay) else p;
      var q := Updated(p, features, today, decay);
      && q.means == merged.means && q.mergeDate == today
      && Count(q.counts, f) == Count(merged.counts, f) + (if f in features then 1 else 0)
      && Value(q.sums, f, 0.0) == Value(merged.sums, f, 0.0) + (if f in features then features[f] else 0.0)
  {
    hide Merged;
  }

  lemma {:induction false} HistoryBetween(run: seq<Update>, decay: real, e: string, f: string, lo: real, hi: real)
    requires 0.0 <= decay <= 1.0 && ValuesWithin(run, e, f, lo, hi)
    ensures Between(Load(History(run, decay), e), f, lo, hi)
  {
    hide Updated, RoleOf, Between;
    if run == [] {
      EmptyBetween(f, lo, hi);
    } else {
      var front, u := run[..|run| - 1], run[|run| - 1];
      HistoryBetween(front, decay, e, f, lo, hi);
      LoadLearned(History(front, decay), u, decay, e);
      var p := Load(History(front, decay), e);
      if Feeds(u, e) {
        UpdatedBetween(p, u.features, u.today, decay, f, lo, hi);
        UpdatedBetween(p, u.features, u.later, decay, f, lo, hi);
        UpdatedBetween(Updated(p, u.features, u.today, decay), u.features, u.later, decay, f, lo, hi);
      }
    }
  }

  lemma EmptyBetween(f: string, lo: real, hi: real)
    ensures Between(EMPTY, f, lo, hi)
  {
  }

  // The decay is a weight exactly for windows of at least one day.
  lemma DecayIsWeight(windowDays: int)
    requires windowDays != -1
    ensures 0.0 <= Decay(windowDays) <= 1.0 <==> windowDays >= 1
  {
    var d, n := Decay(windowDays), windowDays as real + 1.0;
    assert d * n == 2.0;
    if windowDays >= 1 {
      assert d <= 1.0 by { QuotientBetween(n, 2.0, 2.0 / n, 1.0); }
    }
  }

  // With a window of at least one day, a learned average lies between the smallest and the largest
  // value ever supplied for the feature to that user or role.
  lemma MeansStayBetween(run: seq<Update>, windowDays: int, e: string, f: string, lo: real, hi: real)
    requires windowDays >= 1 && ValuesWithin(run, e, f, lo, hi)
    ensures var p := Load(History(run, Decay(windowDays)), e); f in p.means ==> lo <= p.means[f] <= hi
  {
    DecayIsWeight(windowDays);
    HistoryBetween(run, Decay(windowDays), e, f, lo, hi);
  }

  // A shorter window is no average: three days of values between 0 and 1 leave that range.
  lemma ShortWindowOvershoots(windowDays: int) returns (run: seq<Update>)
    requires windowDays != -1 && windowDays < 1
    ensures ValuesWithin(run, "u", "f", 0.0, 1.0)
    ensures var p := Load(History(run, Decay(windowDays)), "u"); "f" in p.means && !(0.0 <= p.means["f"] <= 1.0)
  {
    var d := Decay(windowDays);
    hide History, Updated, RoleOf, RoleKey, Load, Decay, ValuesWithin, OvershootingRun;
    DecayIsWeight(windowDays);
    OvershootingWithin();
    run := OvershootingRun();
    var p := ThreeDays(d);
    UserRun(d);
  }

  function OvershootingRun(): seq<Update> {
    [Update("u", map["f" := 0.0], "1", "1"), Update("u", map["f" := 1.0], "2", "2"), Update("u", map[], "3", "3")]
  }

  lemma OvershootingWithin()
    ensures ValuesWithin(OvershootingRun(), "u", "f", 0.0, 1.0)
  {
    hide Feeds;
    var run := OvershootingRun();
    assert run[0].features["f"] == 0.0 && run[1].features["f"] == 1.0 && "f" !in run[2].features;
  }

  lemma ThreeDays(d: real) returns (p: Profile)
    ensures p == Updated(Updated(Updated(EMPTY, map["f" := 0.0], "1", d), map["f" := 1.0], "2", d), map[], "3", d)
    ensures "f" in p.means && p.means["f"] == d
  {
    var p1 := Updated(EMPTY, map["f" := 0.0], "1", d);
    assert p1.means == map[] && Count(p1.counts, "f") == 1 && Value(p1.sums, "f", 0.0) == 0.0 && p1.mergeDate == "1";
    var p2 := Updated(p1, map["f" := 1.0], "2", d);
    SecondDay(p1, d);
    p := Updated(p2, map[], "3", d);
    ThirdDay(p2, d);
  }

  lemma SecondDay(p: Profile, d: real)
    requires p.means == map[] && Count(p.counts, "f") == 1 && Value(p.sums, "f", 0.0) == 0.0 && p.mergeDate == "1"
    ensures var q := Updated(p, map["f" := 1.0], "2", d);
      && "f" in q.means && q.means["f"] == 0.0 && Count(q.counts, "f") == 1 && Value(q.sums, "f", 0.0) == 1.0 && q.mergeDate == "2"
  {
    hide Updated;
    RecordedCounts(p, map["f" := 1.0], "2", d, "f");
    MergedFeature(p, d, 0.0);
  }

  lemma MergedFeature(p: Profile, d: real, sum: real)
    requires Count(p.counts, "f") == 1 && Value(p.sums, "f", 0.0) == sum
    ensures var m := Merged(p, d); "f" in m.means && m.means["f"] == Blend(d, Value(p.means, "f", sum), sum)
    ensures Count(Merged(p, d).counts, "f") == 0 && Value(Merged(p, d).sums, "f", 0.0) == 0.0
  {
    hide Blend, StdsAfter;
    assert DailyAverage(p, "f") == sum;
  }

  lemma ThirdDay(p: Profile, d: real)
    requires "f" in p.means && p.means["f"] == 0.0 && Count(p.counts, "f") == 1 && Value(p.sums, "f", 0.0) == 1.0
    requires p.mergeDate == "2"
    ensures var q := Updated(p, map[], "3", d); "f" in q.means && q.means["f"] == d
  {
    hide Updated;
    RecordedCounts(p, map[], "3", d, "f");
    MergedFeature(p, d, 1.0);
  }

  lemma UserRun(d: real)
    ensures Load(History(OvershootingRun(), d), "u") ==
      Updated(Updated(Updated(EMPTY, map["f" := 0.0], "1", d), map["f" := 1.0], "2", d), map[], "3", d)
  {
    hide Updated, Learned, RoleOf, Load;
    hide History, Feeds;
    var one, two, three :=
      Update("u", map["f" := 0.0], "1", "1"), Update("u", map["f" := 1.0], "2", "2"), Update("u", map[], "3", "3");
    EmptyIsUnknown(d);
    HistoryAppend([], one, d);
    HistoryAppend([one], two, d);
    HistoryAppend([one, two], three, d);
    assert [] + [one] == [one] && [one] + [two] == [one, two] && [one, two] + [three] == OvershootingRun();
    LoadLearned(map[], one, d, "u");
    LoadLearned(History([one], d), two, d, "u");
    LoadLearned(History([one, two], d), three, d, "u");
    RoleKeysDiffer();
  }

  lemma HistoryAppend(run: seq<Update>, u: Update, d: real)
    ensures History(run + [u], d) == Learned(History(run, d), u, d)
  {
    assert (run + [u])[..|run|] == run;
  }

  lemma EmptyIsUnknown(d: real)
    ensures Load(map[], "u") == EMPTY && History([], d) == map[]
  {
  }

  lemma RoleKeysDiffer()
    ensures forall role :: RoleKey(role) != "u"
  {
  }

  // ----- roles are the sum of their users -----------------------------------------------------------------

  // The profile's own count, or the supplied count of a feature.
  function Number(p: Profile, f: Option<string>): nat {
    if f.Some? then Count(p.supplied, f.value) else p.samples
  }

  function Weight(features: map<string, real>, f: Option<string>): nat {
    if f.Some? && f.value !in features then 0 else 1
  }

  function Total(users: seq<string>, storage: map<string, Profile>, f: Option<string>): nat {
    if users == [] then 0 else Number(Load(storage, users[0]), f) + Total(users[1..], storage, f)
  }

  predicate IsRoleKey(e: string) {
    e == RoleKey(Administrator) || e == RoleKey(StandardUser)
  }

  lemma KeyOfRole(role: Role)
    ensures IsRoleKey(RoleKey(role))
  {
  }

  lemma NumberUpdated(p: Profile, features: map<string, real>, today: string, decay: real, f: Option<string>)
    ensures Number(Updated(p, features, today, decay), f) == Number(p, f) + Weight(features, f)
  {
    CountedExactlyOnce(p, features, today, decay, if f.Some? then f.value else "");
  }

  // A payload adds its weight to its own user and to nobody else in a list of users.
  lemma {:induction false} TotalLearned(users: seq<string>, storage: map<string, Profile>, u: Update, decay: real, f: Option<string>)
    requires forall i, j :: 0 <= i < j < |users| ==> users[i] != users[j]
    requires forall e :: e in users ==> !IsRoleKey(e)
    ensures Total(users, Learned(storage, u, decay), f) ==
      Total(users, storage, f) + if u.user in users then Weight(u.features, f) else 0
  {
    hide Updated, RoleOf, Learned, Number, Weight;
    if users != [] {
      TotalLearned(users[1..], storage, u, decay, f);
      LoadLearned(storage, u, decay, users[0]);
      NumberUpdated(Load(storage, users[0]), u.features, u.today, decay, f);
      KeyOfRole(RoleOf(u.user));
      assert !IsRoleKey(users[0]);
      assert users[0] !in users[1..];
    }
  }

  // Without the role's key among them, a role's counts are the sums over its users.
  lemma {:induction false} RoleIsSumWithoutKey(run: seq<Update>, decay: real, role: Role, users: seq<string>, f: Option<string>)
    requires Distinct(users) && UsersOf(run, role, users) && RoleKey(role) !in users
    ensures Number(Load(History(run, decay), RoleKey(role)), f) == Total(users, History(run, decay), f)
  {
    hide Updated, RoleOf, Learned, Number, Weight, RoleKey;
    if run == [] {
      TotalOfNothing(users, f);
    } else {
      var front, u := run[..|run| - 1], run[|run| - 1];
      assert u == run[|run| - 1];
      RoleIsSumWithoutKey(front, decay, role, users, f);
      var storage := History(front, decay);
      NotRoleKeys(role, users);
      TotalLearned(users, storage, u, decay, f);
      LoadLearned(storage, u, decay, RoleKey(role));
      NumberUpdated(Load(storage, RoleKey(role)), u.features, u.later, decay, f);
      RoleKeysAreTwo(role, RoleOf(u.user));
      RoleOfKey(role);
    }
  }

  ghost predicate Distinct(users: seq<string>) {
    forall i, j :: 0 <= i < j < |users| ==> users[i] != users[j]
  }

  // `users` are of this role, and all those of it that sent a payload are among them.
  ghost predicate UsersOf(run: seq<Update>, role: Role, users: seq<string>) {
    && (forall e :: e in users ==> RoleOf(e) == role)
    && (forall i :: 0 <= i < |run| && RoleOf(run[i].user) == role ==> run[i].user in users)
  }

  lemma RoleKeysAreTwo(role: Role, other: Role)
    ensures RoleKey(role) == RoleKey(other) <==> role == other
  {
    var a, b := "__role_administrator__", "__role_standard_user__";
    assert a[7] != b[7];
  }

  // A role key, taken as a username, has that role itself.
  lemma RoleOfKey(role: Role)
    ensures RoleOf(RoleKey(role)) == role
  {
    var a, b := "__role_administrator__", "__role_standard_user__";
    assert |a| == 22 && forall i :: 0 <= i < 22 ==> LowerChar(a[i]) == a[i];
    assert Lower(a) == a;
    assert |b| == 22 && forall i :: 0 <= i < 22 ==> LowerChar(b[i]) == b[i];
    assert Lower(b) == b;
    AdministratorContainsAdmin();
    StandardUserContainsNone();
  }

  // Names with one of these in them, in whatever case, are administrators'.
  lemma AdministratorNames(before: string, after: string)
    ensures RoleOf(before + "Admin" + after) == Administrator && RoleOf(before + "admin" + after) == Administrator
    ensures RoleOf(before + "sys" + after) == Administrator && RoleOf(before + "root" + after) == Administrator
  {
    hide RoleOf, Contains;
    NameWith(before, "Admin", "admin", after);
    NameWith(before, "admin", "admin", after);
    NameWith(before, "sys", "sys", after);
    NameWith(before, "root", "root", after);
    HasRole(before + "Admin" + after);
    HasRole(before + "admin" + after);
    HasRole(before + "sys" + after);
    HasRole(before + "root" + after);
  }

  lemma {:induction false} NameWith(before: string, word: string, lower: string, after: string)
    requires |word| == |lower| && forall i :: 0 <= i < |word| ==> LowerChar(word[i]) == lower[i]
    ensures Contains(Lower(before + word + after), lower)
  {
    hide Contains;
    var s := Lower(before + word + after);
    assert s[|before|..|before| + |lower|] == lower;
    ContainsAt(s, lower, |before|);
  }

  lemma HasRole(name: string)
    ensures Contains(Lower(name), "admin") || Contains(Lower(name), "sys") || Contains(Lower(name), "root")
      ==> RoleOf(name) == Administrator
  {
  }

  lemma NotRoleKeys(role: Role, users: seq<string>)
    requires RoleKey(role) !in users && forall e :: e in users ==> RoleOf(e) == role
    ensures forall e :: e in users ==> !IsRoleKey(e)
  {
    hide RoleOf;
    RoleOfKey(Administrator);
    RoleOfKey(StandardUser);
  }

  // Some user with another name than the role's key counted here.
  ghost predicate OthersCounted(run: seq<Update>, role: Role, f: Option<string>) {
    exists i :: 0 <= i < |run| && RoleOf(run[i].user) == role && run[i].user != RoleKey(role) && Weight(run[i].features, f) > 0
  }

  // Each role's counts are the sums over its users, listed in any order: the profile counts, and the
  // supplied counts of every feature. The one exception is a user named like the role's key, whose
  // payloads update the role's profile twice, beside another user who counted.
  lemma RoleIsSumOfUsers(run: seq<Update>, decay: real, role: Role, users: seq<string>, f: Option<string>)
    requires Distinct(users) && UsersOf(run, role, users)
    ensures Number(Load(History(run, decay), RoleKey(role)), f) == Total(users, History(run, decay), f) <==>
      RoleKey(role) !in users || !OthersCounted(run, role, f)
  {
    hide RoleOf, RoleKey, Number, History, Total;
    if RoleKey(role) !in users {
      RoleIsSumWithoutKey(run, decay, role, users, f);
    } else {
      var k :| 0 <= k < |users| && users[k] == RoleKey(role);
      var others := users[..k] + users[k + 1..];
      TotalWithout(users, k, History(run, decay), f);
      assert forall e :: e in others ==> e in users && e != RoleKey(role);
      assert forall e :: e in users && e != RoleKey(role) ==> e in others by {
        forall e | e in users && e != RoleKey(role) ensures e in others {
          var i :| 0 <= i < |users| && users[i] == e;
          assert others[if i < k then i else i - 1] == e;
        }
      }
      OthersTotal(run, decay, role, others, f);
    }
  }

  lemma {:induction false} TotalWithout(users: seq<string>, k: nat, storage: map<string, Profile>, f: Option<string>)
    requires k < |users|
    ensures Total(users, storage, f) == Number(Load(storage, users[k]), f) + Total(users[..k] + users[k + 1..], storage, f)
  {
    hide Number;
    if k == 0 {
      assert users[..0] + users[1..] == users[1..];
    } else {
      TotalWithout(users[1..], k - 1, storage, f);
      assert users[1..][..k - 1] + users[1..][k..] == (users[..k] + users[k + 1..])[1..];
    }
  }

  lemma {:induction false} OthersTotal(run: seq<Update>, decay: real, role: Role, others: seq<string>, f: Option<string>)
    requires Distinct(others) && forall e :: e in others ==> RoleOf(e) == role && e != RoleKey(role)
    requires forall i :: 0 <= i < |run| && RoleOf(run[i].user) == role && run[i].user != RoleKey(role) ==> run[i].user in others
    ensures Total(others, History(run, decay), f) > 0 <==> OthersCounted(run, role, f)
  {
    hide Learned, Number, Weight, RoleOf, RoleKey;
    if run == [] {
      TotalOfNothing(others, f);
    } else {
      var front, u := run[..|run| - 1], run[|run| - 1];
      OthersTotal(front, decay, role, others, f);
      NotRoleKeys(role, others);
      TotalLearned(others, History(front, decay), u, decay, f);
      LastCounted(front, u, role, f);
      assert run == front + [u];
    }
  }

  lemma LastCounted(front: seq<Update>, u: Update, role: Role, f: Option<string>)
    ensures OthersCounted(front + [u], role, f) <==>
      OthersCounted(front, role, f) || (RoleOf(u.user) == role && u.user != RoleKey(role) && Weight(u.features, f) > 0)
  {
    hide RoleOf, RoleKey, Weight;
    var run := front + [u];
    assert run[|front|] == u && forall i :: 0 <= i < |front| ==> run[i] == front[i];
  }

  // A user named like the key of the standard users, beside one other: the role counts three
  // payloads, the sum over its two users is four.
  lemma KeyAsUsernameBreaksSum(decay: real, features: map<string, real>, day: string)
    ensures var run := [Update("u", features, day, day), Update(RoleKey(StandardUser), features, day, day)];
      && UsersOf(run, StandardUser, ["u", RoleKey(StandardUser)])
      && Number(Load(History(run, decay), RoleKey(StandardUser)), None) == 3
      && Total(["u", RoleKey(StandardUser)], History(run, decay), None) == 4
  {
    hide RoleOf, Learned, Updated, History;
    var key := RoleKey(StandardUser);
    var one, two := Update("u", features, day, day), Update(key, features, day, day);
    RoleOfKey(StandardUser);
    StandardU();
    EmptyIsUnknown(decay);
    HistoryAppend([], one, decay);
    HistoryAppend([one], two, decay);
    assert [] + [one] == [one] && [one] + [two] == [one, two];
    RoleKeysDiffer();
    TwoLoads(one, two, decay);
    assert ["u", key][1..] == [key] && [key][1..] == [];
    assert Total([key], History([one, two], decay), None) == 3;
  }

  lemma TwoLoads(one: Update, two: Update, decay: real)
    requires one.user == "u" && two.user == RoleKey(StandardUser) && RoleOf("u") == StandardUser == RoleOf(two.user)
    ensures var storage := Learned(Learned(map[], one, decay), two, decay);
      Load(storage, "u").samples == 1 && Load(storage, two.user).samples == 3
  {
    hide RoleOf, Learned, Updated;
    var first := Learned(map[], one, decay);
    RoleKeysDiffer();
    LoadLearned(map[], one, decay, "u");
    LoadLearned(map[], one, decay, two.user);
    LoadLearned(first, two, decay, "u");
    LoadLearned(first, two, decay, two.user);
    SamplesUpdated(decay);
  }

  lemma SamplesUpdated(decay: real)
    ensures forall p, features, today :: Updated(p, features, today, decay).samples == p.samples + 1
  {
  }

  lemma StandardU()
    ensures RoleOf("u") == StandardUser
  {
    assert Lower("u") == "u";
    Lacks("u", "admin", 0);
    Lacks("u", "sys", 0);
    Lacks("u", "root", 0);
  }

  lemma AdministratorContainsAdmin()
    ensures Contains("__role_administrator__", "admin")
  {
    assert "__role_administrator__"[7..12] == "admin";
    ContainsAt("__role_administrator__", "admin", 7);
  }

  lemma StandardUserContainsNone()
    ensures var s := "__role_standard_user__"; !Contains(s, "admin") && !Contains(s, "sys") && !Contains(s, "root")
  {
    hide Contains;
    var s := "__role_standard_user__";
    Lacks(s, "admin", 2);
    Lacks(s, "sys", 1);
    assert |s| == 22 && forall k :: 0 <= k < 21 && s[k] == 'o' ==> s[k + 1] != 'o';
    LacksPair(s, "root", 1);
  }

  lemma {:induction false} TotalOfNothing(users: seq<string>, f: Option<string>)
    ensures Total(users, map[], f) == 0 && Number(EMPTY, f) == 0
  {
    if users != [] {
      TotalOfNothing(users[1..], f);
    }
  }

  // ----- deviations -------------------------------------------------------------------------------------------

  lemma QuotientShrinks(x: real, d: real)
    requires d >= 10.0
    ensures 10.0 * Abs(x / d) <= Abs(x)
  {
    var q := x / d;
    assert q * d == x;
    if q >= 0.0 {
      Product(q, d - 10.0);
      assert q * d - q * 10.0 == q * (d - 10.0);
    } else {
      Product(-q, d - 10.0);
      assert (-q) * d - (-q) * 10.0 == (-q) * (d - 10.0);
    }
  }

  // After any run, a feature nobody relevant has an average for deviates by 0, and any other by at
  // most a tenth of its distance from that average.
  lemma DeviationsAreDamped(run: seq<Update>, decay: real, user: string, f: string, value: real)
    ensures var storage := History(run, decay); var p := Reference(storage, user, f);
      && (f !in p.means ==> Deviation(storage, user, f, value) == 0.0)
      && (f in p.means ==> 10.0 * Abs(Deviation(storage, user, f, value)) <= Abs(value - p.means[f]))
  {
    hide History, RoleOf, RoleKey, Abs;
    var storage := History(run, decay);
    HistoryIsSane(run, decay, user);
    HistoryIsSane(run, decay, RoleKey(RoleOf(user)));
    var p := Reference(storage, user, f);
    assert Floored(p);
    if f in p.means {
      QuotientShrinks(value - p.means[f], p.stds[f]);
    }
  }

  // ----- what a deviation is measured against -------------------------------------------------------------

  // The distance from the average in deviations, where there is an average.
  ghost function Distance(p: Profile, f: string, value: real): real {
    if f in p.means && f in p.stds && p.stds[f] != 0.0 then (value - p.means[f]) / p.stds[f] else 0.0
  }

  // After five values of the user's own the user's profile counts, before that the role's if it has
  // seen the feature, and otherwise there is no deviation.
  lemma DeviationInNumbers(run: seq<Update>, decay: real, user: string, f: string, value: real)
    ensures var storage := History(run, decay); var role := Load(storage, RoleKey(RoleOf(user)));
      Deviation(storage, user, f, value) ==
        if Count(Load(storage, user).supplied, f) >= 5 then Distance(Load(storage, user), f, value)
        else if Count(role.supplied, f) >= 1 then Distance(role, f, value)
        else 0.0
  {
    hide History, RoleOf, Load, Abs;
    StdsAndCounts(run, decay, user, f);
    StdsAndCounts(run, decay, RoleKey(RoleOf(user)), f);
  }
}
