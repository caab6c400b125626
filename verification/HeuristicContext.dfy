// What the endpoint's context does to the heuristic score: a trusted build process and a benign path
// discount detections by fixed factors, and so never raise the score of any feature vector.
module HeuristicContext {
  import opened Reals
  import opened Text
  import opened HeuristicRules
  import opened CorrelationDecay
  import opened Heuristics
  import opened HeuristicTheorems
  import opened ShippedRules
  import DomainActivation

  // ----- one detection ------------------------------------------------------------------------

  // The transfers that a build process makes over the network.
  ghost predicate NetworkExfil(d: Detection) {
    d.domain == HttpDomain && d.hit.scenario in CORRELATION_GROUPS && Contains(d.group, "HTTP_EXFIL")
  }

  ghost predicate SameKind(d: Detection, e: Detection) {
    d.hit == e.hit && d.domain == e.domain && d.group == e.group
  }

  // A trusted build process leaves a fifth of a file detection, half of a transfer over the network,
  // and all of every other one.
  lemma TrustedProcessDiscounts(hit: RuleHit, ctx: Context)
    requires !ctx.trusted
    ensures var d, e := Classify(hit, ctx), Classify(hit, ctx.(trusted := true));
      && SameKind(d, e)
      && (d.domain == FileDomain ==> Value(d) == 5.0 * Value(e))
      && (NetworkExfil(d) ==> Value(d) == 2.0 * Value(e))
      && (d.domain != FileDomain && !NetworkExfil(d) ==> Value(d) == Value(e))
  {
    hide InferDomain, Sensitivity, Contains, CORRELATION_GROUPS;
    var domain := InferDomain(hit.scenario);
    var trusted := ctx.(trusted := true);
    Factors(hit, ctx);
    Factors(hit, trusted);
    var rest := hit.score * Sensitivity(ctx.profile, domain) * ConfidenceWeight(hit.confidence);
    var f, g := Discount(hit.scenario, domain, ctx), Discount(hit.scenario, domain, trusted);
    assert domain == FileDomain ==> f == 5.0 * g;
  }

  // A benign path leaves a quarter of every detection.
  lemma BenignPathDiscounts(hit: RuleHit, ctx: Context)
    requires !ctx.benignPath
    ensures var d, e := Classify(hit, ctx), Classify(hit, ctx.(benignPath := true));
      SameKind(d, e) && Value(d) == 4.0 * Value(e)
  {
    hide InferDomain, Sensitivity, Contains, CORRELATION_GROUPS;
    Factors(hit, ctx);
    Factors(hit, ctx.(benignPath := true));
    var domain := InferDomain(hit.scenario);
    assert Discount(hit.scenario, domain, ctx) == 4.0 * Discount(hit.scenario, domain, ctx.(benignPath := true));
  }

  // Without either a detection counts its score, its confidence and the profile's sensitivity.
  lemma FullValue(hit: RuleHit, ctx: Context)
    requires !ctx.trusted && !ctx.benignPath
    ensures var d := Classify(hit, ctx);
      Value(d) == hit.score * ConfidenceWeight(hit.confidence) * Sensitivity(ctx.profile, d.domain)
  {
    hide InferDomain, Sensitivity;
    Factors(hit, ctx);
  }

  lemma Factors(hit: RuleHit, ctx: Context)
    ensures var domain := InferDomain(hit.scenario);
      Value(Classify(hit, ctx)) ==
        Discount(hit.scenario, domain, ctx) * (hit.score * Sensitivity(ctx.profile, domain) * ConfidenceWeight(hit.confidence))
  {
    hide InferDomain, Discount, Sensitivity, ConfidenceWeight, GroupId;
  }

  // How much of a domain each profile counts; a name that is none of these counts as DEFAULT.
  lemma SensitivitiesInNumbers(profile: string, d: Domain)
    ensures profile == "OFFICE_WORKER" ==> Sensitivity(profile, d) == 1.0
    ensures profile == "DEVELOPER" ==> Sensitivity(profile, d) == Choose(d, 0.35, 0.80, 0.70, 0.60)
    ensures profile == "SYSADMIN" ==> Sensitivity(profile, d) == Choose(d, 0.60, 0.70, 0.30, 0.70)
    ensures profile == "DATA_ENGINEER" ==> Sensitivity(profile, d) == Choose(d, 0.40, 0.70, 0.60, 0.30)
    ensures profile == "MEDIA_CREATOR" ==> Sensitivity(profile, d) == Choose(d, 0.40, 0.30, 0.80, 0.50)
    ensures profile !in {"OFFICE_WORKER", "DEVELOPER", "SYSADMIN", "DATA_ENGINEER", "MEDIA_CREATOR"} ==>
      Sensitivity(profile, d) == 0.80
  {
  }

  function Choose(d: Domain, file: real, device: real, logon: real, http: real): real {
    match d case FileDomain => file case DeviceDomain => device case LogonDomain => logon case HttpDomain => http
  }

  // ----- all detections -----------------------------------------------------------------------

  ghost predicate NoneHigher(ds: seq<Detection>, es: seq<Detection>) {
    |ds| == |es| && forall i :: 0 <= i < |ds| ==> SameKind(ds[i], es[i]) && 0.0 <= Value(ds[i]) <= Value(es[i])
  }

  // Lowering detections, one after the other, never raises the score.
  lemma {:induction false} LowerDetectionsLowerRisk(ds: seq<Detection>, es: seq<Detection>, k: nat)
    requires NoneHigher(ds, es) && Coherent(es) && k <= |ds|
    ensures Risk(ds[..k] + es[k..]) <= Risk(es)
  {
    hide Risk, Value;
    if k == 0 {
      assert ds[..0] + es[0..] == es;
    } else {
      LowerDetectionsLowerRisk(ds, es, k - 1);
      var before, after := ds[..k - 1], es[k..];
      assert ds[..k - 1] + es[k - 1..] == before + [es[k - 1]] + after;
      assert ds[..k] + es[k..] == before + [ds[k - 1]] + after;
      MixedIsCoherent(ds, es, k);
      assert SameKind(ds[k - 1], es[k - 1]);
      RaisedDetectionNeverLowersRisk(before, ds[k - 1], es[k - 1], after);
    }
  }

  lemma MixedIsCoherent(ds: seq<Detection>, es: seq<Detection>, k: nat)
    requires NoneHigher(ds, es) && Coherent(es) && k <= |ds|
    ensures Coherent(ds[..k] + es[k..]) && NonNegativeValues(ds[..k] + es[k..])
  {
    hide Value;
    var mixed := ds[..k] + es[k..];
    forall i | 0 <= i < |mixed| ensures SameKind(mixed[i], es[i]) && 0.0 <= Value(mixed[i]) {
      assert SameKind(ds[i], es[i]) && 0.0 <= Value(ds[i]) <= Value(es[i]);
    }
  }

  // The context of the first is at least as harmless as that of the second.
  predicate AtLeastAsHarmless(a: Context, b: Context) {
    a.profile == b.profile && (b.trusted ==> a.trusted) && (b.benignPath ==> a.benignPath)
  }

  lemma HarmlessIsNoHigher(hit: RuleHit, a: Context, b: Context)
    requires AtLeastAsHarmless(a, b) && Mild(hit)
    ensures SameKind(Classify(hit, a), Classify(hit, b))
    ensures 0.0 <= Value(Classify(hit, a)) <= Value(Classify(hit, b))
  {
    hide Classify, Value;
    var c := b.(trusted := a.trusted);
    assert a == c.(benignPath := a.benignPath);
    ClassifiedValue(hit, a);
    ClassifiedValue(hit, b);
    ClassifiedValue(hit, c);
    if !b.trusted && a.trusted {
      TrustedProcessDiscounts(hit, b);
    } else {
      assert c == b;
    }
    if !c.benignPath && a.benignPath {
      BenignPathDiscounts(hit, c);
    } else {
      assert a == c;
    }
  }

  // For every feature vector: a trusted process, a benign path, or both never raise the score.
  lemma HarmlessContextNeverRaises(f: FeatureVector, a: Context, b: Context)
    requires AtLeastAsHarmless(a, b)
    ensures Risk(ClassifyAll(AllHits(f), a)) <= Risk(ClassifyAll(AllHits(f), b))
  {
    hide AllHits, Classify, Value, Risk, AtLeastAsHarmless;
    var hits := AllHits(f);
    var ds, es := ClassifyAll(hits, a), ClassifyAll(hits, b);
    AllHitsAreMild(f);
    forall i | 0 <= i < |ds| ensures SameKind(ds[i], es[i]) && 0.0 <= Value(ds[i]) <= Value(es[i]) {
      HarmlessIsNoHigher(hits[i], a, b);
    }
    ShippedDetectionsAreCoherent(f, b);
    LowerDetectionsLowerRisk(ds, es, |ds|);
    assert ds[..|ds|] + es[|ds|..] == ds;
  }

  ghost predicate SameNumbers(f: FeatureVector, g: FeatureVector) {
    forall key :: SafeGet(f, key) == SafeGet(g, key)
  }

  lemma SameLogonRules(f: FeatureVector, g: FeatureVector)
    requires SameNumbers(f, g)
    ensures LogonRules(f) == LogonRules(g)
  {
    hide SafeGet;
  }

  lemma SameFileRules(f: FeatureVector, g: FeatureVector)
    requires SameNumbers(f, g)
    ensures FileRules(f) == FileRules(g)
  {
    hide SafeGet;
  }

  lemma SameHttpRules(f: FeatureVector, g: FeatureVector)
    requires SameNumbers(f, g)
    ensures HttpRules(f) == HttpRules(g)
  {
    hide SafeGet;
  }

  lemma SameDeviceRules(f: FeatureVector, g: FeatureVector)
    requires SameNumbers(f, g)
    ensures DeviceRules(f) == DeviceRules(g)
  {
    hide SafeGet;
  }

  lemma SameHits(f: FeatureVector, g: FeatureVector)
    requires f.numbers == g.numbers
    ensures AllHits(f) == AllHits(g)
  {
    hide Fired, LogonRules, FileRules, HttpRules, DeviceRules;
    assert SameNumbers(f, g);
    hide SameNumbers;
    SameLogonRules(f, g);
    SameFileRules(f, g);
    SameHttpRules(f, g);
    SameDeviceRules(f, g);
  }

  lemma RiskOfEvaluate(f: FeatureVector, profile: string, benign: string -> bool)
    requires f != FeatureVector(map[], map[])
    ensures Evaluate(f, profile, benign).risk == Risk(ClassifyAll(AllHits(f), ContextOf(f, profile, benign)))
  {
    hide AllHits, Classify, ContextOf;
    var ds := ClassifyAll(AllHits(f), ContextOf(f, profile, benign));
    if ds == [] {
      assert Peaks(ds) == map[];
    }
  }

  // The same numbers in a context that is at least as harmless never score higher.
  lemma HarmlessNeverScoresHigher(g: FeatureVector, f: FeatureVector, profile: string, benign: string -> bool)
    requires f != FeatureVector(map[], map[]) && g != FeatureVector(map[], map[]) && g.numbers == f.numbers
    requires AtLeastAsHarmless(ContextOf(g, profile, benign), ContextOf(f, profile, benign))
    ensures Evaluate(g, profile, benign).risk <= Evaluate(f, profile, benign).risk
  {
    hide Evaluate, AllHits, ContextOf, Risk, AtLeastAsHarmless, ClassifyAll;
    SameHits(g, f);
    RiskOfEvaluate(g, profile, benign);
    RiskOfEvaluate(f, profile, benign);
    HarmlessContextNeverRaises(f, ContextOf(g, profile, benign), ContextOf(f, profile, benign));
  }

  // The process is the first of the two names that is given, and so are path and profile.
  lemma ContextExactly(f: FeatureVector, profile: string, benign: string -> bool)
    ensures var ctx := ContextOf(f, profile, benign);
      && (ctx.trusted <==>
            if Given(f, "process_name") then Lower(f.texts["process_name"]) in TRUSTED_BUILD_PROCESSES
            else Given(f, "active_process") && Lower(f.texts["active_process"]) in TRUSTED_BUILD_PROCESSES)
      && (ctx.benignPath <==>
            if Given(f, "target_path") then benign(f.texts["target_path"])
            else Given(f, "file_path") && benign(f.texts["file_path"]))
      && ctx.profile == Upper(if profile != "" then profile
                              else if Given(f, "system_profile") then f.texts["system_profile"]
                              else if Given(f, "user_role") then f.texts["user_role"]
                              else "DEFAULT")
  {
    NobodyIsUntrusted();
    hide Lower, Upper, TRUSTED_BUILD_PROCESSES;
  }

  ghost predicate Given(f: FeatureVector, key: string) {
    key in f.texts && f.texts[key] != ""
  }

  lemma NobodyIsUntrusted()
    ensures Lower("") !in TRUSTED_BUILD_PROCESSES
  {
    assert Lower("") == "";
  }

  // The same features read by git instead of whatever process it was: the score does not rise.
  lemma GitNeverScoresHigher(f: FeatureVector, profile: string, benign: string -> bool)
    requires f != FeatureVector(map[], map[])
    ensures Evaluate(f.(texts := f.texts["process_name" := "git.exe"]), profile, benign).risk <= Evaluate(f, profile, benign).risk
  {
    hide Evaluate, Lower, Upper, TRUSTED_BUILD_PROCESSES;
    GitIsTrusted();
    HarmlessNeverScoresHigher(f.(texts := f.texts["process_name" := "git.exe"]), f, profile, benign);
  }

  lemma GitIsTrusted()
    ensures Lower("git.exe") in TRUSTED_BUILD_PROCESSES
  {
    assert Lower("git.exe") == "git.exe";
  }

  // Nor when they concern a path with a benign pattern.
  lemma BenignPathNeverScoresHigher(f: FeatureVector, profile: string, benign: string -> bool, path: string)
    requires f != FeatureVector(map[], map[]) && path != "" && benign(path)
    ensures Evaluate(f.(texts := f.texts["target_path" := path]), profile, benign).risk <= Evaluate(f, profile, benign).risk
  {
    hide Evaluate, Lower, Upper, TRUSTED_BUILD_PROCESSES;
    HarmlessNeverScoresHigher(f.(texts := f.texts["target_path" := path]), f, profile, benign);
  }

  // ----- the superposition in numbers ------------------------------------------------------------

  ghost function Pull(p: map<Domain, real>, d: Domain, weight: real, r: real): real {
    if d in p then weight * (p[d] - r) else 0.0
  }

  // The weighted mean is the point at which the active domains balance.
  lemma BaseRiskBalances(p: map<Domain, real>)
    requires p != map[]
    ensures var r := BaseRisk(p);
      Pull(p, FileDomain, 0.35, r) + Pull(p, DeviceDomain, 0.30, r) + Pull(p, LogonDomain, 0.20, r) + Pull(p, HttpDomain, 0.15, r) == 0.0
  {
    var d :| d in p;
    assert TotalWeight(p) >= DomainWeight(d) >= 0.15;
    var r := BaseRisk(p);
    assert r * TotalWeight(p) == WeightedPeaks(p);
    PullSplits(p, FileDomain, r);
    PullSplits(p, DeviceDomain, r);
    PullSplits(p, LogonDomain, r);
    PullSplits(p, HttpDomain, r);
    hide Pull, ActiveWeight, PeakAt, BaseRisk;
    SumSplits(r, ActiveWeight(p, FileDomain), ActiveWeight(p, DeviceDomain), ActiveWeight(p, LogonDomain), ActiveWeight(p, HttpDomain));
  }

  lemma PullSplits(p: map<Domain, real>, d: Domain, r: real)
    ensures Pull(p, d, DomainWeight(d), r) == PeakAt(p, d) * DomainWeight(d) - r * ActiveWeight(p, d)
  {
  }

  lemma SumSplits(r: real, a: real, b: real, c: real, d: real)
    ensures r * (a + b + c + d) == r * a + r * b + r * c + r * d
  {
  }

  // One domain counts 0.40 of its peak; several count their mean, and from 35 on with at least
  // three of them five points for the third and five for the fourth.
  lemma SuperposeInNumbers(p: map<Domain, real>)
    requires forall d :: d in p ==> 0.0 <= p[d] <= 100.0
    ensures |p.Keys| == 0 ==> Superpose(p) == 0.0
    ensures |p.Keys| == 1 ==> forall d :: d in p ==> Superpose(p) == 0.40 * p[d]
    ensures |p.Keys| == 2 || (|p.Keys| >= 3 && BaseRisk(p) < 35.0) ==> Superpose(p) == BaseRisk(p)
    ensures |p.Keys| == 3 && BaseRisk(p) >= 35.0 ==> Superpose(p) == Min(100.0, BaseRisk(p) + 5.0)
    ensures |p.Keys| == 4 && BaseRisk(p) >= 35.0 ==> Superpose(p) == Min(100.0, BaseRisk(p) + 10.0)
  {
    CountIsCardinality(p);
    if p != map[] {
      DomainActivation.BaseInRange(p);
    }
    hide BaseRisk;
    if ActiveCount(p) == 1 {
      forall d | d in p ensures Superpose(p) == 0.40 * p[d] {
        match d case FileDomain => case DeviceDomain => case LogonDomain => case HttpDomain =>
      }
    }
  }

  lemma CountIsCardinality(p: map<Domain, real>)
    ensures ActiveCount(p) == |p.Keys|
  {
    hide With;
    var one := With({}, FileDomain, FileDomain in p);
    var two := With(one, DeviceDomain, DeviceDomain in p);
    var three := With(two, LogonDomain, LogonDomain in p);
    var four := With(three, HttpDomain, HttpDomain in p);
    assert DeviceDomain !in one && LogonDomain !in two && HttpDomain !in three;
    assert |four| == ActiveCount(p);
    FourDomains(p, four);
  }

  lemma FourDomains(p: map<Domain, real>, s: set<Domain>)
    requires (FileDomain in s <==> FileDomain in p) && (DeviceDomain in s <==> DeviceDomain in p)
    requires (LogonDomain in s <==> LogonDomain in p) && (HttpDomain in s <==> HttpDomain in p)
    ensures s == p.Keys
  {
    forall d: Domain ensures d in s <==> d in p.Keys {
      match d case FileDomain => case DeviceDomain => case LogonDomain => case HttpDomain =>
    }
  }

  function With(s: set<Domain>, d: Domain, b: bool): (r: set<Domain>)
    ensures d !in s ==> |r| == |s| + One(b)
    ensures forall e :: e in r <==> e in s || (b && e == d)
  {
    if b then s + {d} else s
  }

  lemma SeveritiesInNumbers(score: real)
    ensures OverallSeverity(score) == Critical <==> score >= 85.0
    ensures OverallSeverity(score) == High <==> 60.0 <= score < 85.0
    ensures OverallSeverity(score) == Medium <==> 35.0 <= score < 60.0
    ensures OverallSeverity(score) == Low <==> score < 35.0
  {
  }
}
