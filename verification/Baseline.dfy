// BaselineEngine of server/baseline/engine.py: per user and per role, a long-term average that is
// updated once a day from a short-term buffer.
module Baseline {
  import opened Reals
  import opened Text

  datatype Profile = Profile(
    means: map<string, real>, stds: map<string, real>, samples: nat,
    missing: map<string, nat>, supplied: map<string, nat>,
    sums: map<string, real>, counts: map<string, nat>, mergeDate: string)

  const EMPTY := Profile(map[], map[], 0, map[], map[], map[], map[], "")

  function Count(m: map<string, nat>, f: string): nat {
    if f in m then m[f] else 0
  }

  function Value(m: map<string, real>, f: string, default: real): real {
    if f in m then m[f] else default
  }

  // 2 / (N + 1), the weight of the latest day in an average over N days.
  function Decay(windowDays: int): real
    requires windowDays != -1
  {
    2.0 / (windowDays as real + 1.0)
  }

  function Blend(decay: real, before: real, latest: real): real {
    (1.0 - decay) * before + decay * latest
  }

  // ----- the daily merge -------------------------------------------------------------------------

  function DailyAverage(p: Profile, f: string): real
    requires Count(p.counts, f) > 0
  {
    Value(p.sums, f, 0.0) / (p.counts[f] as real)
  }

  function MergedMean(p: Profile, f: string, decay: real): real
    requires Count(p.counts, f) > 0
  {
    Blend(decay, Value(p.means, f, DailyAverage(p, f)), DailyAverage(p, f))
  }

  function MergedStd(p: Profile, f: string, decay: real): (r: real)
    requires Count(p.counts, f) > 0
    ensures r >= 10.0 && r >= 0.25 * Abs(MergedMean(p, f, decay))
  {
    var mean := MergedMean(p, f, decay);
    var updated := Blend(decay, Value(p.stds, f, 10.0), Abs(DailyAverage(p, f) - mean));
    Max(Max(updated, Abs(mean) * 0.25), 10.0)
  }

  // The averages once the buffered features in `done` are merged.
  function MeansAfter(p: Profile, done: set<string>, decay: real): map<string, real> {
    map f | f in p.means.Keys + done && (f in p.means || Count(p.counts, f) > 0) ::
      if f in done && Count(p.counts, f) > 0 then MergedMean(p, f, decay) else p.means[f]
  }

  function StdsAfter(p: Profile, done: set<string>, decay: real): map<string, real> {
    map f | f in p.stds.Keys + done && (f in p.stds || Count(p.counts, f) > 0) ::
      if f in done && Count(p.counts, f) > 0 then MergedStd(p, f, decay) else p.stds[f]
  }

  function Merged(p: Profile, decay: real): Profile {
    p.(means := MeansAfter(p, p.counts.Keys, decay), stds := StdsAfter(p, p.counts.Keys, decay),
       sums := map[], counts := map[])
  }

  // ----- one payload -----------------------------------------------------------------------------

  function Raised(m: map<string, nat>, keys: set<string>): map<string, nat> {
    map f | f in m.Keys + keys :: Count(m, f) + if f in keys then 1 else 0
  }

  function Added(m: map<string, real>, features: map<string, real>, done: set<string>): map<string, real> {
    map f | f in m.Keys + (done * features.Keys) :: Value(m, f, 0.0) + if f in done && f in features then features[f] else 0.0
  }

  // Every feature in `done` is either supplied and buffered or counted as missing.
  function RecordedUpTo(p: Profile, features: map<string, real>, done: set<string>): Profile {
    p.(sums := Added(p.sums, features, done), counts := Raised(p.counts, done * features.Keys),
       supplied := Raised(p.supplied, done * features.Keys), missing := Raised(p.missing, done - features.Keys))
  }

  function Updated(p: Profile, features: map<string, real>, today: string, decay: real): Profile {
    var merged := if p.mergeDate != "" && p.mergeDate != today then Merged(p, decay) else p;
    RecordedUpTo(merged.(mergeDate := today, samples := merged.samples + 1), features, merged.means.Keys + features.Keys)
  }

  // ----- users and roles --------------------------------------------------------------------------

  datatype Role = Administrator | StandardUser

  function RoleOf(user: string): Role {
    var lower := Lower(user);
    if Contains(lower, "admin") || Contains(lower, "sys") || Contains(lower, "root") then Administrator else StandardUser
  }

  function RoleKey(role: Role): string {
    match role
    case Administrator => "__role_administrator__"
    case StandardUser => "__role_standard_user__"
  }

  function Load(storage: map<string, Profile>, entity: string): Profile {
    if entity in storage then storage[entity] else EMPTY
  }

  function Saved(storage: map<string, Profile>, entity: string, features: map<string, real>, today: string, decay: real)
    : map<string, Profile>
  {
    storage[entity := Updated(Load(storage, entity), features, today, decay)]
  }

  // One payload: the user's profile, then the one of the role; the two read the date separately.
  function Learned(storage: map<string, Profile>, u: Update, decay: real): map<string, Profile> {
    Saved(Saved(storage, u.user, u.features, u.today, decay), RoleKey(RoleOf(u.user)), u.features, u.later, decay)
  }

  datatype Update = Update(user: string, features: map<string, real>, today: string, later: string)

  function History(run: seq<Update>, decay: real): map<string, Profile> {
    if run == [] then map[] else Learned(History(run[..|run| - 1], decay), run[|run| - 1], decay)
  }

  // The profile a deviation is measured against: the user's after five samples, then the role's.
  function Reference(storage: map<string, Profile>, user: string, f: string): Profile {
    if Count(Load(storage, user).supplied, f) >= 5 then Load(storage, user)
    else if Count(Load(storage, RoleKey(RoleOf(user))).supplied, f) > 0 then Load(storage, RoleKey(RoleOf(user)))
    else EMPTY
  }

  function Deviation(storage: map<string, Profile>, user: string, f: string, value: real): real {
    var p := Reference(storage, user, f);
    var std := Value(p.stds, f, 1.0);
    (value - Value(p.means, f, value)) / (if std == 0.0 then 1.0 else std)
  }

  lemma SomeKey(keys: set<string>)
    requires keys != {}
    ensures exists k :: k in keys
  {
  }

  class BaselineEngine {
    const windowDays: int
    const decay: real
    var storage: map<string, Profile>

    constructor (windowDays: int)
      requires windowDays != -1
      ensures this.windowDays == windowDays && decay == Decay(windowDays) && storage == map[]
    {
      this.windowDays := windowDays;
      this.decay := 2.0 / (windowDays as real + 1.0);
      storage := map[];
    }

    method GetBaseline(entity: string) returns (p: Option<Profile>)
      ensures p == if entity in storage then Some(storage[entity]) else None
    {
      p := if entity in storage then Some(storage[entity]) else None;
    }

    method MergeBuffer(p: Profile) returns (merged: Profile)
      ensures merged == Merged(p, decay)
    {
      merged := p;
      var rest := p.counts.Keys;
      ghost var done: set<string> := {};
      assert MeansAfter(p, done, decay) == p.means && StdsAfter(p, done, decay) == p.stds;
      while rest != {}
        invariant rest <= p.counts.Keys && done == p.counts.Keys - rest
        invariant merged == p.(means := MeansAfter(p, done, decay), stds := StdsAfter(p, done, decay))
        decreases rest
      {
        SomeKey(rest);
        var f :| f in rest;
        rest := rest - {f};
        merged := MergeFeature(p, merged, f, done);
        done := done + {f};
      }
      assert done == p.counts.Keys;
      merged := merged.(sums := map[], counts := map[]);
    }

    method MergeFeature(p: Profile, before: Profile, f: string, ghost done: set<string>) returns (after: Profile)
      requires f in p.counts && f !in done
      requires before == p.(means := MeansAfter(p, done, decay), stds := StdsAfter(p, done, decay))
      ensures after == p.(means := MeansAfter(p, done + {f}, decay), stds := StdsAfter(p, done + {f}, decay))
    {
      hide MeansAfter, StdsAfter, Blend, Abs, Max;
      MeansOne(p, done, f, decay);
      StdsOne(p, done, f, decay);
      after := before;
      var count := p.counts[f];
      if count > 0 {
        var dailyAverage := (if f in p.sums then p.sums[f] else 0.0) / (count as real);
        var previousMean := if f in before.means then before.means[f] else dailyAverage;
        var mean := Blend(decay, previousMean, dailyAverage);
        assert mean == MergedMean(p, f, decay);
        var previousStd := if f in before.stds then before.stds[f] else 10.0;
        var std := Blend(decay, previousStd, Abs(dailyAverage - mean));
        assert Max(Max(std, Abs(mean) * 0.25), 10.0) == MergedStd(p, f, decay);
        after := before.(means := before.means[f := mean], stds := before.stds[f := Max(Max(std, Abs(mean) * 0.25), 10.0)]);
      }
    }

    method RecordFeatures(p: Profile, features: map<string, real>) returns (recorded: Profile)
      ensures recorded == RecordedUpTo(p, features, p.means.Keys + features.Keys)
    {
      hide RecordedUpTo;
      recorded := p;
      var rest := p.means.Keys + features.Keys;
      ghost var known, done: set<string> := rest, {};
      RecordNone(p, features);
      while rest != {}
        invariant rest <= known && done == known - rest
        invariant recorded == RecordedUpTo(p, features, done)
        decreases rest
      {
        SomeKey(rest);
        var f :| f in rest;
        rest := rest - {f};
        recorded := RecordFeature(p, features, recorded, f, done);
        done := done + {f};
      }
      assert done == known;
    }

    method RecordFeature(ghost p: Profile, features: map<string, real>, before: Profile, f: string, ghost done: set<string>)
      returns (after: Profile)
      requires f !in done && before == RecordedUpTo(p, features, done)
      ensures after == RecordedUpTo(p, features, done + {f})
    {
      hide RecordedUpTo;
      if f in features {
        RecordSupplied(p, features, done, f);
        after := before.(
          sums := before.sums[f := (if f in before.sums then before.sums[f] else 0.0) + features[f]],
          counts := before.counts[f := (if f in before.counts then before.counts[f] else 0) + 1],
          supplied := before.supplied[f := (if f in before.supplied then before.supplied[f] else 0) + 1]);
      } else {
        RecordMissing(p, features, done, f);
        after := before.(missing := before.missing[f := (if f in before.missing then before.missing[f] else 0) + 1]);
      }
    }

    method UpdateSingleBaseline(entity: string, features: map<string, real>, today: string)
      modifies this
      ensures storage == Saved(old(storage), entity, features, today, decay)
    {
      var loaded := GetBaseline(entity);
      var current := if loaded.Some? then loaded.value else EMPTY;
      if current.mergeDate != "" && current.mergeDate != today {
        current := MergeBuffer(current);
      }
      current := current.(mergeDate := today, samples := current.samples + 1);
      current := RecordFeatures(current, features);
      storage := storage[entity := current];
    }

    // How far each feature is from what the user, or failing that the role, has learned.
    method GetDeviationVector(user: string, features: map<string, real>) returns (deviations: map<string, real>)
      ensures deviations.Keys == features.Keys
      ensures forall f :: f in features ==> deviations[f] == Deviation(storage, user, f, features[f])
    {
      var own := GetBaseline(user);
      var shared := GetBaseline(RoleKey(RoleOf(user)));
      deviations := map[];
      var rest := features.Keys;
      while rest != {}
        invariant rest <= features.Keys && deviations.Keys == features.Keys - rest
        invariant forall f :: f in deviations ==> deviations[f] == Deviation(storage, user, f, features[f])
        decreases rest
      {
        SomeKey(rest);
        var f :| f in rest;
        rest := rest - {f};
        var value := features[f];
        var mean, std := value, 1.0;
        if own.Some? && Count(own.value.supplied, f) >= 5 {
          mean, std := Value(own.value.means, f, value), Value(own.value.stds, f, 1.0);
        } else if shared.Some? && Count(shared.value.supplied, f) > 0 {
          mean, std := Value(shared.value.means, f, value), Value(shared.value.stds, f, 1.0);
        }
        if std == 0.0 {
          std := 1.0;
        }
        deviations := deviations[f := (value - mean) / std];
      }
    }

    method UpdateBaseline(u: Update)
      modifies this
      ensures storage == Learned(old(storage), u, decay)
    {
      UpdateSingleBaseline(u.user, u.features, u.today);
      UpdateSingleBaseline(RoleKey(RoleOf(u.user)), u.features, u.later);
    }
  }

  lemma RaisedOne(m: map<string, nat>, keys: set<string>, f: string)
    requires f !in keys
    ensures Raised(m, keys + {f}) == Raised(m, keys)[f := Count(Raised(m, keys), f) + 1]
  {
  }

  lemma AddedOne(m: map<string, real>, features: map<string, real>, done: set<string>, f: string)
    requires f !in done
    ensures Added(m, features, done + {f}) ==
      if f in features then Added(m, features, done)[f := Value(Added(m, features, done), f, 0.0) + features[f]]
      else Added(m, features, done)
  {
    var one, more := Added(m, features, done), Added(m, features, done + {f});
    if f in features {
      assert more.Keys == one.Keys + {f};
    } else {
      assert more.Keys == one.Keys;
    }
  }

  lemma RecordSupplied(p: Profile, features: map<string, real>, done: set<string>, f: string)
    requires f !in done && f in features
    ensures var r := RecordedUpTo(p, features, done);
      RecordedUpTo(p, features, done + {f}) ==
        r.(sums := r.sums[f := Value(r.sums, f, 0.0) + features[f]], counts := r.counts[f := Count(r.counts, f) + 1],
           supplied := r.supplied[f := Count(r.supplied, f) + 1])
  {
    hide Raised, Added, Count, Value;
    var keys := features.Keys;
    assert (done + {f}) * keys == done * keys + {f} && (done + {f}) - keys == done - keys;
    RaisedOne(p.counts, done * keys, f);
    RaisedOne(p.supplied, done * keys, f);
    AddedOne(p.sums, features, done, f);
  }

  lemma RecordMissing(p: Profile, features: map<string, real>, done: set<string>, f: string)
    requires f !in done && f !in features
    ensures var r := RecordedUpTo(p, features, done);
      RecordedUpTo(p, features, done + {f}) == r.(missing := r.missing[f := Count(r.missing, f) + 1])
  {
    hide Raised, Added, Count, Value;
    var keys := features.Keys;
    assert (done + {f}) * keys == done * keys && (done + {f}) - keys == done - keys + {f};
    RaisedOne(p.missing, done - keys, f);
    AddedOne(p.sums, features, done, f);
  }

  lemma RecordNone(p: Profile, features: map<string, real>)
    ensures RecordedUpTo(p, features, {}) == p
  {
    assert Added(p.sums, features, {}) == p.sums;
    assert {} * features.Keys == {} && {} - features.Keys == {};
    assert Raised(p.counts, {}) == p.counts && Raised(p.supplied, {}) == p.supplied && Raised(p.missing, {}) == p.missing;
  }

  lemma MeansOne(p: Profile, done: set<string>, f: string, decay: real)
    requires f !in done && f in p.counts
    ensures MeansAfter(p, done + {f}, decay) ==
      if p.counts[f] > 0 then MeansAfter(p, done, decay)[f := MergedMean(p, f, decay)] else MeansAfter(p, done, decay)
    ensures Value(MeansAfter(p, done, decay), f, 0.0) == Value(p.means, f, 0.0)
    ensures f in MeansAfter(p, done, decay) <==> f in p.means
  {
    hide MergedMean;
  }

  lemma StdsOne(p: Profile, done: set<string>, f: string, decay: real)
    requires f !in done && f in p.counts
    ensures StdsAfter(p, done + {f}, decay) ==
      if p.counts[f] > 0 then StdsAfter(p, done, decay)[f := MergedStd(p, f, decay)] else StdsAfter(p, done, decay)
    ensures Value(StdsAfter(p, done, decay), f, 0.0) == Value(p.stds, f, 0.0)
    ensures f in StdsAfter(p, done, decay) <==> f in p.stds
  {
    hide MergedStd, MergedMean;
  }
}
