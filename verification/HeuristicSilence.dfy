// For which features the heuristic score is above 0 at all: the rule tables of heuristics/*_rules.py
// as one condition on the numbers of the feature vector, for every profile and context.
module HeuristicSilence {
  import opened Reals
  import opened Text
  import opened HeuristicRules
  import opened CorrelationDecay
  import opened Heuristics
  import opened HeuristicTheorems
  import opened ShippedRules
  import DomainActivation
  import HeuristicContext

  // A number of the vector, 0 where it has none.
  ghost function Of(f: FeatureVector, key: string): real {
    if key !in f.numbers then 0.0
    else match f.numbers[key] case None => 0.0 case Some(x) => x
  }

  ghost predicate SuspiciousLogons(f: FeatureVector) {
    || (Of(f, "after_hours_logon") >= 50.0 && (Of(f, "first_logon_time") <= 2.0 || Of(f, "logon_count") >= 100.0))
    || Of(f, "unique_pc_count") >= 100.0
    || (Of(f, "daily_unique_pc_count") >= 100.0 && Of(f, "daily_pc_access_entropy") >= 5.5)
    || (Of(f, "logon_count") >= 300.0 && Of(f, "logoff_count") >= 300.0
        && -20.0 <= Of(f, "logon_count") - Of(f, "logoff_count") <= 20.0)
    || (Of(f, "logon_count") >= 100.0 && Of(f, "unique_pc_count") >= 50.0 && Of(f, "daily_after_hours_logon_ratio") > 0.95)
  }

  ghost predicate SuspiciousFiles(f: FeatureVector) {
    || (Of(f, "file_access_count") >= 20000.0 && Of(f, "daily_unique_filename_count") >= 5000.0)
    || (Of(f, "daily_file_access_entropy") >= 6.5 && Of(f, "daily_new_filename_count") >= 2500.0
        && Of(f, "daily_repeat_file_ratio") <= 0.005 && Of(f, "file_access_count") >= 5000.0)
    || (Of(f, "daily_new_filename_count") >= 3000.0 && Of(f, "daily_repeat_file_ratio") <= 0.005
        && Of(f, "daily_unique_filename_count") >= 3000.0)
    || (Of(f, "after_hours_file_access") >= 100.0 && Of(f, "file_access_count") >= 5000.0)
    || (Of(f, "weekend_file_access") >= 100.0 && Of(f, "file_access_count") >= 5000.0)
  }

  ghost predicate SuspiciousRequests(f: FeatureVector) {
    || (Of(f, "file_sharing_site_visits") >= 200.0 && Of(f, "http_after_hours") >= 50.0)
    || (Of(f, "suspicious_url_count") >= 100.0 && Of(f, "unique_url_count") <= 5.0)
    || (Of(f, "http_count") >= 5000.0 && Of(f, "unique_url_count") <= 2.0 && Of(f, "suspicious_url_count") >= 30.0)
    || (Of(f, "suspicious_url_count") >= 100.0 && Of(f, "http_after_hours") >= 50.0)
    || (Of(f, "suspicious_url_count") >= 50.0 && Of(f, "unique_url_count") <= 5.0 && Of(f, "http_count") <= 50.0)
  }

  ghost predicate SuspiciousDevices(f: FeatureVector) {
    Of(f, "usb_connect_count") >= 300.0 && Of(f, "usb_disconnect_count") >= 300.0
  }

  ghost predicate Suspicious(f: FeatureVector) {
    SuspiciousLogons(f) || SuspiciousFiles(f) || SuspiciousRequests(f) || SuspiciousDevices(f)
  }

  // ----- the tables ----------------------------------------------------------------------------

  ghost predicate Scores(table: seq<Rule>) {
    exists i :: 0 <= i < |table| && table[i].fires && table[i].hit.score > 0.0
  }

  lemma LogonsScore(f: FeatureVector)
    ensures Scores(LogonRules(f)) <==> SuspiciousLogons(f)
  {
    var t := LogonRules(f);
    assert |t| == 5 && t[2].hit.score == 0.0;
    assert SuspiciousLogons(f) <==> t[0].fires || t[1].fires || t[3].fires || t[4].fires;
    hide SuspiciousLogons, LogonRules;
    assert t[0].hit.score > 0.0 && t[1].hit.score > 0.0 && t[3].hit.score > 0.0 && t[4].hit.score > 0.0;
  }

  lemma FilesScore(f: FeatureVector)
    ensures Scores(FileRules(f)) <==> SuspiciousFiles(f)
  {
    var t := FileRules(f);
    assert |t| == 7 && t[1].hit.score == 0.0 && t[4].hit.score == 0.0;
    assert SuspiciousFiles(f) <==> t[0].fires || t[2].fires || t[3].fires || t[5].fires || t[6].fires;
    assert t[0].hit.score > 0.0 && t[2].hit.score > 0.0 && t[3].hit.score > 0.0 && t[5].hit.score > 0.0 && t[6].hit.score > 0.0;
  }

  lemma RequestsScore(f: FeatureVector)
    ensures Scores(HttpRules(f)) <==> SuspiciousRequests(f)
  {
    var t := HttpRules(f);
    assert |t| == 10 && t[0].hit.score == 0.0 && t[5].hit.score == 0.0 && t[6].hit.score == 0.0 && t[8].hit.score == 0.0;
    assert t[3].fires ==> t[1].fires;
    assert SuspiciousRequests(f) <==> t[1].fires || t[2].fires || t[4].fires || t[7].fires || t[9].fires;
    assert t[1].hit.score > 0.0 && t[2].hit.score > 0.0 && t[4].hit.score > 0.0 && t[7].hit.score > 0.0 && t[9].hit.score > 0.0;
  }

  lemma DevicesScore(f: FeatureVector)
    ensures Scores(DeviceRules(f)) <==> SuspiciousDevices(f)
  {
    var t := DeviceRules(f);
    assert |t| == 1 && t[0].hit.score > 0.0 && (SuspiciousDevices(f) <==> t[0].fires);
  }

  lemma FiredScores(table: seq<Rule>)
    ensures (exists h :: h in Fired(table) && h.score > 0.0) <==> Scores(table)
  {
    forall h: RuleHit ensures h in Fired(table) <==> exists i :: 0 <= i < |table| && table[i].fires && table[i].hit == h {
      FiredExactly(table, h);
    }
    if i :| 0 <= i < |table| && table[i].fires && table[i].hit.score > 0.0 {
      assert table[i].hit in Fired(table);
    }
  }

  // Some hit is worth anything exactly for suspicious features.
  lemma HitsScore(f: FeatureVector)
    ensures (exists h :: h in AllHits(f) && h.score > 0.0) <==> Suspicious(f)
  {
    LogonsScore(f);
    FilesScore(f);
    RequestsScore(f);
    DevicesScore(f);
    FiredScores(LogonRules(f));
    FiredScores(FileRules(f));
    FiredScores(HttpRules(f));
    FiredScores(DeviceRules(f));
    hide Fired, LogonRules, FileRules, HttpRules, DeviceRules, Scores, SuspiciousLogons, SuspiciousFiles,
         SuspiciousRequests, SuspiciousDevices;
    assert forall h :: h in AllHits(f) <==>
      h in Fired(LogonRules(f)) || h in Fired(FileRules(f)) || h in Fired(HttpRules(f)) || h in Fired(DeviceRules(f));
  }

  // ----- what the hits are worth -----------------------------------------------------------------

  ghost function Worth(hit: RuleHit): real {
    hit.score * ConfidenceWeight(hit.confidence)
  }

  ghost predicate WorthOf(table: seq<Rule>, worths: seq<real>) {
    |table| == |worths| && forall i :: 0 <= i < |table| ==> Worth(table[i].hit) == worths[i]
  }

  lemma LogonWorths(f: FeatureVector)
    ensures WorthOf(LogonRules(f), [7.0, 18.0, 0.0, 7.0, 4.0])
  {
    hide SafeGet;
  }

  lemma FileWorths(f: FeatureVector)
    ensures WorthOf(FileRules(f), [13.5, 0.0, 7.0, 13.5, 0.0, 7.0, 7.0])
  {
    hide SafeGet;
  }

  lemma HttpWorths(f: FeatureVector)
    ensures WorthOf(HttpRules(f), [0.0, 13.5, 7.0, 13.5, 18.0, 0.0, 0.0, 7.0, 0.0, 7.0])
  {
    hide SafeGet;
  }

  lemma DeviceWorths(f: FeatureVector)
    ensures WorthOf(DeviceRules(f), [9.0])
  {
    hide SafeGet;
  }

  // In the order of the tables, before any discount.
  lemma WorthsInNumbers(f: FeatureVector)
    ensures WorthOf(LogonRules(f), [7.0, 18.0, 0.0, 7.0, 4.0])
    ensures WorthOf(FileRules(f), [13.5, 0.0, 7.0, 13.5, 0.0, 7.0, 7.0])
    ensures WorthOf(HttpRules(f), [0.0, 13.5, 7.0, 13.5, 18.0, 0.0, 0.0, 7.0, 0.0, 7.0])
    ensures WorthOf(DeviceRules(f), [9.0])
  {
    hide WorthOf, LogonRules, FileRules, HttpRules, DeviceRules;
    LogonWorths(f);
    FileWorths(f);
    HttpWorths(f);
    DeviceWorths(f);
  }

  // ----- the score -----------------------------------------------------------------------------

  lemma WorthlessGroup(ds: seq<Detection>, g: string)
    requires forall i :: 0 <= i < |ds| ==> Value(ds[i]) == 0.0
    ensures ScoreOf(ds, g) == 0.0
  {
    hide Value, GroupScore;
    ScoreNonNegative(ds, g);
    MembersOf(ds, g);
    var ms := Members(ds, g);
    var vs := Values(ms);
    forall i | 0 <= i < |vs| ensures vs[i] == 0.0 {
      assert ms[i] in ms && ms[i] in ds;
    }
    if vs == [] {
      NoScore();
    } else {
      assert vs[0] in vs;
      GroupScoreFiveQuarters(vs, 0.0);
    }
  }

  lemma NoScore()
    ensures GroupScore([]) == 0.0
  {
  }

  lemma WorthlessRisk(ds: seq<Detection>)
    requires forall i :: 0 <= i < |ds| ==> Value(ds[i]) == 0.0
    ensures Risk(ds) <= 0.0
  {
    hide Value, ScoreOf, Groups, DomainOf, Superpose;
    forall g ensures ScoreOf(ds, g) == 0.0 {
      WorthlessGroup(ds, g);
    }
    forall d | d in Peaks(ds) ensures 0.0 <= Peaks(ds)[d] <= 0.0 {
      PeaksAreMaxima(Groups(ds), ds, d);
    }
    SuperposeBound(Peaks(ds), 0.0);
  }

  // A positive peak makes a positive score, by whatever the other domains lower the mean.
  lemma PositiveSuperposition(p: map<Domain, real>, d: Domain)
    requires (forall e :: e in p ==> 0.0 <= p[e] <= 100.0) && d in p && 0.0 < p[d]
    ensures 0.0 < Superpose(p)
  {
    DomainActivation.BaseInRange(p);
    assert forall e: Domain :: 0.0 <= PeakAt(p, e);
    assert 0.0 < PeakAt(p, d) * DomainWeight(d) <= WeightedPeaks(p);
    assert TotalWeight(p) >= DomainWeight(d) >= 0.15;
    assert 0.0 < PeakAt(p, d) <= PeakSum(p);
    hide WeightedPeaks, TotalWeight, PeakSum;
    PositiveQuotient(WeightedPeaks(p), Max(0.01, TotalWeight(p)));
    assert ActiveCount(p) >= 1;
  }

  lemma PositiveQuotient(n: real, t: real)
    requires 0.0 < n && 0.0 < t
    ensures 0.0 < n / t
  {
    assert n / t * t == n;
  }

  lemma WorthlessValue(hit: RuleHit, ctx: Context)
    requires hit.score == 0.0
    ensures Value(Classify(hit, ctx)) == 0.0
  {
    hide InferDomain, Discount, Sensitivity, GroupId, ConfidenceWeight;
  }

  lemma RiskScores(f: FeatureVector, ctx: Context)
    ensures Risk(ClassifyAll(AllHits(f), ctx)) > 0.0 <==> exists h :: h in AllHits(f) && h.score > 0.0
  {
    hide AllHits, Classify, Value, Peaks, Superpose;
    var hits := AllHits(f);
    var ds := ClassifyAll(hits, ctx);
    AllHitsAreMild(f);
    if h :| h in hits && h.score > 0.0 {
      var k :| 0 <= k < |hits| && hits[k] == h;
      assert ds[k] in ds;
      DomainActivation.PositiveValue(h, ctx);
      ShippedDetectionsAreCoherent(f, ctx);
      DomainActivation.PositivePeak(ds, ds[k]);
      DomainActivation.ShippedPeaksAreSmall(f, ctx);
      PositiveSuperposition(Peaks(ds), ds[k].domain);
    } else {
      forall i | 0 <= i < |ds| ensures Value(ds[i]) == 0.0 {
        assert hits[i] in hits && Mild(hits[i]);
        WorthlessValue(hits[i], ctx);
      }
      WorthlessRisk(ds);
    }
  }

  // For every feature vector, profile and context: the score is above 0 exactly for suspicious
  // features.
  lemma PositiveExactly(f: FeatureVector, profile: string, benign: string -> bool)
    ensures Evaluate(f, profile, benign).risk > 0.0 <==> Suspicious(f)
  {
    if f == FeatureVector(map[], map[]) {
      NothingToScore(f, profile, benign);
    } else {
      hide *;
      HeuristicContext.RiskOfEvaluate(f, profile, benign);
      RiskScores(f, ContextOf(f, profile, benign));
      HitsScore(f);
    }
  }

  lemma NothingToScore(f: FeatureVector, profile: string, benign: string -> bool)
    requires f == FeatureVector(map[], map[])
    ensures Evaluate(f, profile, benign).risk == 0.0 && !Suspicious(f)
  {
    hide AllHits, ClassifyAll, ContextOf, Risk, Peaks, Groups;
  }
}
