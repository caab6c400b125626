// heuristics/detector.py: what a detection in a domain that was not active does to the overall
// score, which is not always to raise it.
module DomainActivation {
  import opened Reals
  import opened Text
  import opened CorrelationDecay
  import opened HeuristicRules
  import opened Heuristics
  import opened HeuristicTheorems
  import opened ShippedRules

  // ----- on the peaks ----------------------------------------------------------------------------

  // With a peak of x in the new domain d, the weighted mean is below c.
  predicate MeanBelow(p: map<Domain, real>, d: Domain, x: real, c: real) {
    WeightedPeaks(p) + x * DomainWeight(d) < c * (TotalWeight(p) + DomainWeight(d))
  }

  // When activating domain d with a peak of x lowers the score. A single domain counted 0.40 of its
  // peak before; from the third domain on a mean of at least 35 earns a bonus, five more than before.
  predicate ActivationLowers(p: map<Domain, real>, d: Domain, x: real) {
    if ActiveCount(p) <= 1 then MeanBelow(p, d, x, 0.4 * PeakSum(p))
    else if BaseRisk(p) < 35.0 then MeanBelow(p, d, x, BaseRisk(p))
    else
      || MeanBelow(p, d, x, 35.0)
      || (MeanBelow(p, d, x, BaseRisk(p) - 5.0) && (ActiveCount(p) >= 3 ==> MeanBelow(p, d, x, 90.0)))
  }

  ghost predicate InRange(p: map<Domain, real>) {
    forall d :: d in p ==> 0.0 <= p[d] <= 100.0
  }

  lemma QuotientBelow(n: real, t: real, c: real)
    requires 0.0 < t
    ensures n / t < c <==> n < c * t
  {
    var q := n / t;
    assert q * t == n && (q - c) * t == n - c * t;
    SameSign(q - c, t, n - c * t, 1.0);
  }

  lemma MeanBelowMeans(p: map<Domain, real>, d: Domain, x: real, c: real)
    requires p != map[] && d !in p
    ensures BaseRisk(p[d := x]) < c <==> MeanBelow(p, d, x, c)
  {
    hide WeightedPeaks, TotalWeight;
    ActivateDomain(p, d, x);
    QuotientBelow(WeightedPeaks(p) + x * DomainWeight(d), TotalWeight(p) + DomainWeight(d), c);
  }

  lemma BaseInRange(p: map<Domain, real>)
    requires p != map[] && InRange(p)
    ensures 0.0 <= BaseRisk(p) <= 100.0
  {
    WeightedAtMost(p, 100.0);
    PeaksWeighNonNegative(p);
    hide WeightedPeaks, TotalWeight;
    var t := Max(0.01, TotalWeight(p));
    assert 100.0 * TotalWeight(p) <= 100.0 * t;
    DivideAtMost(WeightedPeaks(p), 100.0, t);
    QuotientBelow(WeightedPeaks(p), t, 0.0);
  }

  lemma PeaksWeighNonNegative(p: map<Domain, real>)
    requires InRange(p)
    ensures 0.0 <= WeightedPeaks(p)
  {
    assert forall d: Domain :: 0.0 <= PeakAt(p, d);
  }

  lemma OneMoreDomain(p: map<Domain, real>, d: Domain, x: real)
    requires p != map[] && d !in p && InRange(p) && 0.0 <= x <= 100.0
    ensures ActiveCount(p[d := x]) == ActiveCount(p) + 1 && 1 <= ActiveCount(p) <= 3 && InRange(p[d := x])
    ensures ActiveCount(p) == 1 ==> 0.0 <= PeakSum(p) <= 100.0
  {
    var k :| k in p;
    match k
    case FileDomain =>
    case DeviceDomain =>
    case LogonDomain =>
    case HttpDomain =>
  }

  // For all peaks: the returned score falls if and only if that condition on them holds.
  lemma SuperposeFallsIff(p: map<Domain, real>, d: Domain, x: real)
    requires p != map[] && d !in p && InRange(p) && 0.0 <= x <= 100.0
    ensures Superpose(p[d := x]) < Superpose(p) <==> ActivationLowers(p, d, x)
  {
    hide WeightedPeaks, TotalWeight, ActiveCount, PeakSum, BaseRisk, MeanBelow;
    OneMoreDomain(p, d, x);
    BaseInRange(p);
    BaseInRange(p[d := x]);
    MeanBelowMeans(p, d, x, 0.4 * PeakSum(p));
    MeanBelowMeans(p, d, x, BaseRisk(p));
    MeanBelowMeans(p, d, x, 35.0);
    MeanBelowMeans(p, d, x, BaseRisk(p) - 5.0);
    MeanBelowMeans(p, d, x, 90.0);
  }

  // ----- on the detections ---------------------------------------------------------------------------

  lemma PeaksInRange(ds: seq<Detection>)
    requires NonNegativeValues(ds)
    ensures InRange(Peaks(ds))
  {
    hide GroupScore, Groups, DomainOf, PeaksOver;
    forall g ensures 0.0 <= ScoreOf(ds, g) <= 100.0 {
      ScoreNonNegative(ds, g);
      GroupScoreCapped(Values(Members(ds, g)));
    }
    forall d | d in Peaks(ds) ensures 0.0 <= Peaks(ds)[d] <= 100.0 {
      PeaksAreMaxima(Groups(ds), ds, d);
    }
  }

  lemma GroupScoreCapped(values: seq<real>)
    ensures GroupScore(values) <= 100.0
  {
  }

  lemma LoneGroupScore(d: Detection)
    requires 0.0 <= Value(d)
    ensures GroupScore([Value(d)]) == Min(100.0, Value(d))
  {
    var v := Value(d);
    hide Value;
    assert [v][1..] == [];
    assert SortDescending([v]) == Insert(v, []) == [v];
    assert DecaySum([v]) == v + 0.2 * DecaySum([]);
  }

  // A detection in a new domain is alone in its group, and changes no other group.
  lemma NewGroup(before: seq<Detection>, d: Detection, after: seq<Detection>)
    requires Coherent(before + [d] + after) && NonNegativeValues(before + [d] + after)
    requires d.domain !in Peaks(before + after)
    ensures d.group !in Groups(before + after) && Members(before + [d] + after, d.group) == [d]
  {
    hide GroupScore, ScoreOf, PeaksOver, Value;
    var ds, ds' := before + after, before + [d] + after;
    assert forall e :: e in ds ==> e in before || e in after;
    assert forall e :: e in ds ==> e in ds';
    CoherentSubset(ds, ds');
    NonNegativeSubset(ds, ds');
    assert d == ds'[|before|];
    GroupsOf(ds, d.group);
    if e :| e in ds && e.group == d.group {
      DomainOfCoherent(ds, e);
      ScoresNonNegative(ds);
      PeaksAreMaxima(Groups(ds), ds, e.domain);
      SameGroupSameDomain(ds', d, e);
    }
    MembersNonEmpty(ds, d.group);
    MembersAppend(before, after, d.group);
    MembersAppend(before + [d], after, d.group);
    MembersAppend(before, [d], d.group);
    assert Front([d]) == [];
  }

  lemma ScoresNonNegative(ds: seq<Detection>)
    requires NonNegativeValues(ds)
    ensures forall g :: 0.0 <= ScoreOf(ds, g)
  {
    forall g ensures 0.0 <= ScoreOf(ds, g) {
      ScoreNonNegative(ds, g);
    }
  }

  lemma SameGroupSameDomain(ds: seq<Detection>, d: Detection, e: Detection)
    requires Coherent(ds) && d in ds && e in ds && d.group == e.group
    ensures d.domain == e.domain
  {
  }

  lemma OtherGroupsStay(before: seq<Detection>, d: Detection, after: seq<Detection>, g: string)
    requires g != d.group
    ensures Members(before + [d] + after, g) == Members(before + after, g)
  {
    MembersAppend(before, after, g);
    MembersAppend(before + [d], after, g);
    MembersAppend(before, [d], g);
    assert Front([d]) == [];
  }

  lemma GroupsWith(before: seq<Detection>, d: Detection, after: seq<Detection>, g: string)
    ensures g in Groups(before + [d] + after) <==> g in Groups(before + after) || g == d.group
  {
    var ds, ds' := before + after, before + [d] + after;
    GroupsOf(ds, g);
    GroupsOf(ds', g);
    assert d == ds'[|before|];
    assert forall e :: e in ds ==> e in before || e in after;
    assert forall e :: e in ds' <==> e in ds || e == d;
  }

  // The peaks gain the new domain, with the detection's own value, and are otherwise the same.
  lemma NewDomainPeaks(before: seq<Detection>, d: Detection, after: seq<Detection>)
    requires Coherent(before + [d] + after) && NonNegativeValues(before + [d] + after)
    requires d.domain !in Peaks(before + after)
    ensures Peaks(before + [d] + after) == Peaks(before + after)[d.domain := Min(100.0, Value(d))]
  {
    hide GroupScore, Groups, PeaksOver, Members, Coherent, Value;
    var ds, ds' := before + after, before + [d] + after;
    var p, p' := Peaks(ds), Peaks(ds');
    NewGroup(before, d, after);
    NewValues(before, d, after);
    ScoresNonNegative(ds);
    ScoresNonNegative(ds');
    LoneGroupScore(d);
    assert ds'[|before|] == d;
    DomainOfCoherent(ds', d);
    forall g ensures g in Groups(ds') <==> g in Groups(ds) || g == d.group {
      GroupsWith(before, d, after, g);
    }
    forall g | g in Groups(ds) ensures ScoreOf(ds', g) == ScoreOf(ds, g) && DomainOf(ds', g) == DomainOf(ds, g) {
      OtherGroupsStay(before, d, after, g);
    }
    forall e: Domain ensures e in p' <==> e in p || e == d.domain {
      PeaksAreMaxima(Groups(ds), ds, e);
      PeaksAreMaxima(Groups(ds'), ds', e);
      assert e == d.domain ==> DomainOf(ds', d.group) == e;
    }
    forall e: Domain | e in p' ensures p'[e] == if e == d.domain then Min(100.0, Value(d)) else p[e] {
      PeaksAreMaxima(Groups(ds), ds, e);
      PeaksAreMaxima(Groups(ds'), ds', e);
    }
  }

  lemma NewValues(before: seq<Detection>, d: Detection, after: seq<Detection>)
    requires NonNegativeValues(before + [d] + after)
    requires Members(before + [d] + after, d.group) == [d]
    ensures NonNegativeValues(before + after) && 0.0 <= Value(d)
    ensures ScoreOf(before + [d] + after, d.group) == GroupScore([Value(d)])
  {
    var ds, ds' := before + after, before + [d] + after;
    assert d == ds'[|before|];
    assert forall e :: e in ds ==> e in before || e in after;
    assert forall e :: e in ds ==> e in ds';
    NonNegativeSubset(ds, ds');
    assert Values([d]) == [Value(d)];
  }

  // For all detections whose groups share a domain: one more detection, in a domain that was not
  // active, lowers the overall score if and only if the condition on the old peaks holds.
  lemma NewDomainLowersRiskIff(before: seq<Detection>, d: Detection, after: seq<Detection>)
    requires Coherent(before + [d] + after) && NonNegativeValues(before + [d] + after)
    requires d.domain !in Peaks(before + after) && Peaks(before + after) != map[]
    ensures Risk(before + [d] + after) < Risk(before + after) <==>
      ActivationLowers(Peaks(before + after), d.domain, Min(100.0, Value(d)))
  {
    hide Peaks, Superpose, ActivationLowers, Coherent, InRange, Value, Members, Groups;
    assert (before + [d] + after)[|before|] == d;
    NewGroup(before, d, after);
    NewValues(before, d, after);
    PeaksInRange(before + after);
    NewDomainPeaks(before, d, after);
    SuperposeFallsIff(Peaks(before + after), d.domain, Min(100.0, Value(d)));
  }

  // ----- a feature vector for which it happens ---------------------------------------------------------

  lemma {:induction false} NoneFires(table: seq<Rule>)
    requires forall i :: 0 <= i < |table| ==> !table[i].fires
    ensures Fired(table) == []
  {
    if table != [] {
      NoneFires(table[..|table| - 1]);
    }
  }

  lemma {:induction false} FiredConcat(a: seq<Rule>, b: seq<Rule>)
    ensures Fired(a + b) == Fired(a) + Fired(b)
  {
    if b == [] {
      assert a + b == a;
    } else {
      FiredConcat(a, b[..|b| - 1]);
      assert (a + b)[..|a + b| - 1] == a + b[..|b| - 1];
    }
  }

  lemma {:induction false} OneFires(table: seq<Rule>, k: nat)
    requires k < |table| && table[k].fires && forall i :: 0 <= i < |table| && i != k ==> !table[i].fires
    ensures Fired(table) == [table[k].hit]
  {
    NoneFires(table[..k]);
    NoneFires(table[k + 1..]);
    FiredConcat(table[..k], [table[k]]);
    FiredConcat(table[..k] + [table[k]], table[k + 1..]);
    assert table == table[..k] + [table[k]] + table[k + 1..];
    assert [table[k]][..0] == [] && Fired([table[k]]) == [table[k].hit];
  }

  lemma {:induction false} FirstAndOneFire(table: seq<Rule>, k: nat)
    requires 0 < k < |table| && table[0].fires && table[k].fires
    requires forall i :: 0 < i < |table| && i != k ==> !table[i].fires
    ensures Fired(table) == [table[0].hit, table[k].hit]
  {
    OneFires(table[1..], k - 1);
    FiredConcat([table[0]], table[1..]);
    assert table == [table[0]] + table[1..];
    assert [table[0]][..0] == [] && Fired([table[0]]) == [table[0].hit];
  }

  const MOVEMENT_HIT := RuleHit("Multi-PC Lateral Movement", High, 20.0, HighConfidence)
  const COLLECTION_HIT := RuleHit("Bulk File Collection", High, 15.0, HighConfidence)
  const BROWSING_HIT := RuleHit("Normal Work Browsing", Low, 0.0, HighConfidence)
  const SOCIAL_HIT := RuleHit("Social Media During Work Hours", Low, 0.0, LowConfidence)

  // Twenty thousand files on a hundred machines, with or without a single web request.
  function Features(requests: real): FeatureVector {
    FeatureVector(map["file_access_count" := Some(20000.0), "daily_unique_filename_count" := Some(5000.0),
                      "unique_pc_count" := Some(100.0), "http_count" := Some(requests)], map[])
  }

  lemma LogonAndFileHits(requests: real)
    ensures Fired(LogonRules(Features(requests))) == [MOVEMENT_HIT]
    ensures Fired(FileRules(Features(requests))) == [COLLECTION_HIT]
    ensures Fired(DeviceRules(Features(requests))) == []
  {
    hide Fired;
    OneFires(LogonRules(Features(requests)), 1);
    OneFires(FileRules(Features(requests)), 0);
    NoneFires(DeviceRules(Features(requests)));
  }

  lemma HttpHits()
    ensures Fired(HttpRules(Features(0.0))) == [SOCIAL_HIT]
    ensures Fired(HttpRules(Features(1.0))) == [BROWSING_HIT, SOCIAL_HIT]
  {
    hide Fired;
    OneFires(HttpRules(Features(0.0)), 8);
    FirstAndOneFire(HttpRules(Features(1.0)), 8);
  }

  lemma BrowsingHits()
    ensures AllHits(Features(0.0)) == [MOVEMENT_HIT, COLLECTION_HIT, SOCIAL_HIT]
    ensures AllHits(Features(1.0)) == [MOVEMENT_HIT, COLLECTION_HIT, BROWSING_HIT, SOCIAL_HIT]
  {
    hide Fired, LogonRules, FileRules, HttpRules, DeviceRules, Features;
    LogonAndFileHits(0.0);
    LogonAndFileHits(1.0);
    HttpHits();
  }

  const BROWSING := "normal work browsing"
  const SOCIAL := "social media during work hours"

  lemma BrowsingLower()
    ensures Lower("Normal Work Browsing") == BROWSING
  {
  }

  lemma SocialLower()
    ensures Lower("Social Media During Work Hours") == SOCIAL
  {
  }

  lemma BrowsingWords()
    ensures !Contains(BROWSING, "file") && !Contains(BROWSING, "credential") && !Contains(BROWSING, "usb")
    ensures !Contains(BROWSING, "device") && !Contains(BROWSING, "pc") && !Contains(BROWSING, "account")
    ensures !Contains(BROWSING, "auth")
  {
    hide Contains;
    Lacks(BROWSING, "file", 0);
    Lacks(BROWSING, "credential", 0);
    Lacks(BROWSING, "usb", 0);
    Lacks(BROWSING, "device", 0);
    Lacks(BROWSING, "pc", 0);
    Lacks(BROWSING, "account", 1);
    Lacks(BROWSING, "auth", 1);
  }

  lemma BrowsingPairs()
    ensures !Contains(BROWSING, "logon") && !Contains(BROWSING, "session") && Contains(BROWSING, "browsing")
  {
    hide Contains;
    assert forall k :: 0 <= k < |BROWSING| - 1 && BROWSING[k] == 'l' ==> BROWSING[k + 1] != 'o';
    LacksPair(BROWSING, "logon", 0);
    assert forall k :: 0 <= k < |BROWSING| - 1 && BROWSING[k] == 's' ==> BROWSING[k + 1] != 'e';
    LacksPair(BROWSING, "session", 0);
    assert BROWSING[12..20] == "browsing";
    ContainsAt(BROWSING, "browsing", 12);
  }

  lemma SocialWords()
    ensures !Contains(SOCIAL, "http") && !Contains(SOCIAL, "network") && !Contains(SOCIAL, "browsing")
  {
    hide Contains;
    Lacks(SOCIAL, "http", 1);
    Lacks(SOCIAL, "network", 2);
    Lacks(SOCIAL, "browsing", 0);
  }

  lemma SocialPairs()
    ensures !Contains(SOCIAL, "cloud") && !Contains(SOCIAL, "domain")
  {
    hide Contains;
    assert forall k :: 0 <= k < |SOCIAL| - 1 && SOCIAL[k] == 'c' ==> SOCIAL[k + 1] != 'l';
    LacksPair(SOCIAL, "cloud", 0);
    assert forall k :: 0 <= k < |SOCIAL| - 1 && SOCIAL[k] == 'd' ==> SOCIAL[k + 1] != 'o';
    LacksPair(SOCIAL, "domain", 0);
  }

  lemma WitnessDomains()
    ensures InferDomain("Multi-PC Lateral Movement") == LogonDomain && InferDomain("Bulk File Collection") == FileDomain
    ensures InferDomain("Normal Work Browsing") == HttpDomain && InferDomain("Social Media During Work Hours") != HttpDomain
  {
    hide Contains, Lower, BROWSING, SOCIAL;
    AssetDomains();
    FileNames("Bulk File Collection");
    BrowsingLower();
    BrowsingWords();
    BrowsingPairs();
    SocialLower();
    SocialWords();
    SocialPairs();
  }

  lemma ShippedPeaksAreSmall(f: FeatureVector, ctx: Context)
    ensures var p := Peaks(ClassifyAll(AllHits(f), ctx)); forall d :: d in p ==> 0.0 <= p[d] <= 22.5
  {
    hide ScoreOf, Value, AllHits, Groups, DomainOf, PeaksOver;
    var ds := ClassifyAll(AllHits(f), ctx);
    AllHitsAreMild(f);
    forall i | 0 <= i < |ds| ensures 0.0 <= Value(ds[i]) <= 18.0 {
      ClassifiedValue(AllHits(f)[i], ctx);
    }
    forall g ensures 0.0 <= ScoreOf(ds, g) <= 22.5 {
      GroupBound(ds, g);
    }
    forall d | d in Peaks(ds) ensures 0.0 <= Peaks(ds)[d] <= 22.5 {
      PeaksAreMaxima(Groups(ds), ds, d);
    }
  }

  // A hit with a positive score makes its domain's peak positive.
  lemma PositivePeak(ds: seq<Detection>, d: Detection)
    requires Coherent(ds) && NonNegativeValues(ds) && d in ds && 0.0 < Value(d)
    ensures d.domain in Peaks(ds) && 0.0 < Peaks(ds)[d.domain]
  {
    hide PeaksOver, Value, GroupScore;
    GroupsOf(ds, d.group);
    DomainOfCoherent(ds, d);
    ScoresNonNegative(ds);
    PeaksAreMaxima(Groups(ds), ds, d.domain);
    PositiveGroup(ds, d);
  }

  lemma PositiveGroup(ds: seq<Detection>, d: Detection)
    requires NonNegativeValues(ds) && d in ds && 0.0 < Value(d)
    ensures 0.0 < ScoreOf(ds, d.group)
  {
    hide GroupScore, Value;
    var ms := Members(ds, d.group);
    MembersOf(ds, d.group);
    var k :| 0 <= k < |ms| && ms[k] == d;
    var vs := Values(ms);
    assert vs[k] == Value(d);
    assert vs == vs[..k] + [vs[k]] + vs[k + 1..];
    forall i | 0 <= i < |vs| ensures 0.0 <= vs[i] {
      assert ms[i] in ms && ms[i] in ds;
    }
    var m := LargestOf(vs);
    assert vs[k] in vs && 0.0 < vs[k] <= m;
    GroupScoreFiveQuarters(vs, m);
  }

  lemma {:induction false} LargestOf(vs: seq<real>) returns (m: real)
    requires vs != []
    ensures m in vs && forall v :: v in vs ==> v <= m
  {
    if |vs| == 1 {
      m := vs[0];
    } else {
      var n := LargestOf(vs[1..]);
      m := if vs[0] > n then vs[0] else n;
      assert vs == [vs[0]] + vs[1..];
    }
  }

  lemma PositiveProduct(x: real, y: real, z: real, w: real)
    requires 0.0 < x && 0.0 < y && 0.0 < z && 0.0 < w
    ensures 0.0 < x * y * z * w
  {
  }

  lemma PositiveValue(hit: RuleHit, ctx: Context)
    requires 0.0 < hit.score
    ensures 0.0 < Value(Classify(hit, ctx))
  {
    var d := InferDomain(hit.scenario);
    var x, y, z, w := hit.score, Discount(hit.scenario, d, ctx), Sensitivity(ctx.profile, d), ConfidenceWeight(hit.confidence);
    hide InferDomain, Discount, Sensitivity, GroupId;
    assert Value(Classify(hit, ctx)) == x * y * z * w;
    hide ConfidenceWeight, Classify, Value;
    PositiveProduct(x, y, z, w);
  }

  lemma WitnessValues(ctx: Context)
    ensures 0.0 < Value(Classify(MOVEMENT_HIT, ctx)) && 0.0 < Value(Classify(COLLECTION_HIT, ctx))
    ensures Value(Classify(BROWSING_HIT, ctx)) == 0.0
  {
    PositiveValue(MOVEMENT_HIT, ctx);
    PositiveValue(COLLECTION_HIT, ctx);
    hide InferDomain, Discount, Sensitivity, GroupId;
  }

  // With two active domains that weigh something, and a mean below the bonus, a third domain at 0
  // lowers the score.
  lemma EmptyDomainLowers(p: map<Domain, real>, d: Domain)
    requires d !in p && FileDomain in p && LogonDomain in p && 0.0 < p[LogonDomain]
    requires forall e :: e in p ==> 0.0 <= p[e] <= 22.5
    ensures ActivationLowers(p, d, 0.0)
  {
    WeightedAtMost(p, 22.5);
    PeaksWeighNonNegative(p);
    assert PeakAt(p, LogonDomain) * 0.20 > 0.0;
    assert forall e: Domain :: 0.0 <= PeakAt(p, e);
    assert 0.0 < WeightedPeaks(p) && 0.55 <= TotalWeight(p);
    hide WeightedPeaks, TotalWeight, PeakSum;
    var n, t := WeightedPeaks(p), TotalWeight(p);
    DivideAtMost(n, 22.5, t);
    QuotientBelow(0.0 - n, t, 0.0);
    assert n / t * t == n;
    PositiveShare(n / t, DomainWeight(d));
  }

  lemma PositiveShare(m: real, w: real)
    requires 0.0 < w
    ensures 0.0 < m ==> 0.0 < m * w
  {
  }

  lemma BrowsingLowers(ctx: Context)
    ensures Risk(ClassifyAll(AllHits(Features(1.0)), ctx)) < Risk(ClassifyAll(AllHits(Features(0.0)), ctx))
  {
    hide AllHits, Classify, Peaks, Risk, Value, InferDomain, ActivationLowers, Features;
    BrowsingHits();
    WitnessDomains();
    WitnessValues(ctx);
    var ds, ds' := ClassifyAll(AllHits(Features(0.0)), ctx), ClassifyAll(AllHits(Features(1.0)), ctx);
    var before, d, after :=
      [Classify(MOVEMENT_HIT, ctx), Classify(COLLECTION_HIT, ctx)], Classify(BROWSING_HIT, ctx), [Classify(SOCIAL_HIT, ctx)];
    assert ds == before + after && ds' == before + [d] + after;
    ShippedDetectionsAreCoherent(Features(0.0), ctx);
    ShippedDetectionsAreCoherent(Features(1.0), ctx);
    WitnessPeaks(ds, ctx);
    EmptyDomainLowers(Peaks(ds), HttpDomain);
    ClassifiedNames(BROWSING_HIT, ctx);
    NewDomainLowersRiskIff(before, d, after);
  }

  // Twenty thousand files read on a hundred machines score higher without than with one harmless
  // web request, for every profile and context of the two vectors: the request activates a third
  // domain with a peak of 0.
  lemma ThirdDomainCanLowerRisk(profile: string, benign: string -> bool)
    ensures Evaluate(Features(1.0), profile, benign).risk < Evaluate(Features(0.0), profile, benign).risk
  {
    hide AllHits, Classify, Peaks, Risk, ClassifyAll, Groups, Lower, Upper;
    var ctx := ContextOf(Features(0.0), profile, benign);
    assert ContextOf(Features(1.0), profile, benign) == ctx;
    hide ContextOf;
    BrowsingLowers(ctx);
    BrowsingHits();
    TwoHits(ctx);
  }

  lemma TwoHits(ctx: Context)
    ensures ClassifyAll(AllHits(Features(0.0)), ctx) != [] && ClassifyAll(AllHits(Features(1.0)), ctx) != []
  {
    hide AllHits;
    BrowsingHits();
  }

  lemma WitnessPeaks(ds: seq<Detection>, ctx: Context)
    requires ds == ClassifyAll(AllHits(Features(0.0)), ctx)
    ensures var p := Peaks(ds);
      && HttpDomain !in p && FileDomain in p && LogonDomain in p && 0.0 < p[LogonDomain]
      && forall e :: e in p ==> 0.0 <= p[e] <= 22.5
  {
    hide AllHits, Classify, Value, InferDomain, Groups, DomainOf, PeaksOver, GroupId;
    BrowsingHits();
    WitnessDomains();
    WitnessValues(ctx);
    ShippedDetectionsAreCoherent(Features(0.0), ctx);
    ShippedPeaksAreSmall(Features(0.0), ctx);
    ClassifiedNames(MOVEMENT_HIT, ctx);
    ClassifiedNames(COLLECTION_HIT, ctx);
    ClassifiedNames(SOCIAL_HIT, ctx);
    assert ds == [Classify(MOVEMENT_HIT, ctx), Classify(COLLECTION_HIT, ctx), Classify(SOCIAL_HIT, ctx)];
    assert ds[0] in ds && ds[1] in ds;
    PositivePeak(ds, ds[0]);
    PositivePeak(ds, ds[1]);
    NoHttp(ds);
  }

  lemma NoHttp(ds: seq<Detection>)
    requires Coherent(ds) && NonNegativeValues(ds) && forall d :: d in ds ==> d.domain != HttpDomain
    ensures HttpDomain !in Peaks(ds)
  {
    hide PeaksOver, GroupScore;
    ScoresNonNegative(ds);
    PeaksAreMaxima(Groups(ds), ds, HttpDomain);
    forall g | g in Groups(ds) ensures DomainOf(ds, g) != HttpDomain {
      GroupsOf(ds, g);
      var e :| e in ds && e.group == g;
      DomainOfCoherent(ds, e);
    }
  }
}
