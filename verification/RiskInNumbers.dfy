// The risk score with the constants of server/risk/aggregator.py written out: the balance its weights
// keep, what history adds, when a score is capped, which level it means, and what corroborates it.
module RiskInNumbers {
  import opened Reals
  import opened Text
  import opened HeuristicRules
  import opened RiskFusion
  import opened RiskAggregator
  import opened RiskTheorems
  import Heuristics
  import HeuristicTheorems

  // ----- the fused score ----------------------------------------------------------------

  // How much a source's weight is multiplied: 1 up to a score of 40, three times at 100 with full
  // confidence.
  ghost function Conviction(s: real, c: real): real {
    if s < 40.0 then 1.0 else 1.0 + (s - 40.0) * (s - 40.0) * c / 1800.0
  }

  lemma BoostIsConviction(s: real, c: real)
    ensures Boost(s, c) == Conviction(s, c)
  {
    if s >= 40.0 {
      var x := Excess(s);
      assert x * 60.0 == s - 40.0;
      assert (s - 40.0) * (s - 40.0) == 3600.0 * (x * x);
    }
  }

  // The fused score is the point at which the four sources balance, each with its base weight times
  // its conviction.
  lemma RawScoreBalances(scores: Quad, confs: Quad)
    requires InRange(scores, 0.0, 100.0) && InRange(confs, 0.0, 1.0)
    ensures var r := RawScore(scores, confs);
      0.70 * Conviction(scores.ml, confs.ml) * (scores.ml - r) + 0.10 * Conviction(scores.z, confs.z) * (scores.z - r)
      + 0.05 * Conviction(scores.auth, confs.auth) * (scores.auth - r)
      + 0.15 * Conviction(scores.heur, confs.heur) * (scores.heur - r) == 0.0
  {
    var w, r := Weights(scores, confs), RawScore(scores, confs);
    WeightBounds(scores, confs);
    BoostIsConviction(scores.ml, confs.ml);
    BoostIsConviction(scores.z, confs.z);
    BoostIsConviction(scores.auth, confs.auth);
    BoostIsConviction(scores.heur, confs.heur);
    hide Conviction, Boost, RawScore;
    assert r * Total(w) == Dot(scores, w);
    Deviations(scores, w, r);
  }

  lemma Deviations(scores: Quad, w: Quad, r: real)
    ensures w.ml * (scores.ml - r) + w.z * (scores.z - r) + w.auth * (scores.auth - r) + w.heur * (scores.heur - r)
         == Dot(scores, w) - r * Total(w)
  {
  }

  // Below 40 everywhere there is no conviction.
  lemma QuietScoresAreAveraged(scores: Quad, confs: Quad)
    requires forall src: Source :: 0.0 <= scores.At(src) < 40.0
    ensures RawScore(scores, confs) == 0.70 * scores.ml + 0.10 * scores.z + 0.05 * scores.auth + 0.15 * scores.heur
  {
    assert scores.At(MlPipeline) < 40.0 && scores.At(ZScore) < 40.0;
    assert scores.At(AuthBurst) < 40.0 && scores.At(Heuristics) < 40.0;
    assert Weights(scores, confs) == Quad(0.70, 0.10, 0.05, 0.15);
  }

  // ----- history -------------------------------------------------------------------------

  // A corroborated score is 0.85 of the raw one and 0.15 of the largest recent one, where there is any.
  lemma HistoryBlends(e: Evidence, past: Option<real>)
    requires 0.0 <= e.raw <= 100.0 && e.corroborated
    ensures Assess(e, past).score ==
      if past.Some? && past.value > 0.0 then 0.85 * e.raw + 0.15 * (if past.value < 100.0 then past.value else 100.0)
      else e.raw
  {
  }

  lemma HigherHistoryRaises(e: Evidence, p: real, q: real)
    requires 0.0 <= e.raw <= 100.0 && e.corroborated && 0.0 < p <= q <= 100.0
    ensures Assess(e, Some(q)).score - Assess(e, Some(p)).score == 0.15 * (q - p)
  {
    HistoryBlends(e, Some(p));
    HistoryBlends(e, Some(q));
  }

  // An uncorroborated score below 35 is capped by history exactly from this value on, and blended
  // with it up to there.
  lemma HistoryCaps(e: Evidence, p: real)
    requires 0.0 <= e.raw < 35.0 && !e.corroborated && 0.0 < p
    ensures var q := if p < 100.0 then p else 100.0;
      && (Assess(e, Some(p)).capped <==> q >= (700.0 - 17.0 * e.raw) / 3.0)
      && Assess(e, Some(p)).score == if q >= (700.0 - 17.0 * e.raw) / 3.0 then 10.0 else 0.85 * e.raw + 0.15 * q
    ensures !Assess(e, None).capped && Assess(e, None).score == e.raw
  {
  }

  // Without history the cap starts at 35.
  lemma CapStartsAt35(e: Evidence)
    requires 0.0 <= e.raw <= 100.0
    ensures Assess(e, None).score == if e.raw >= 35.0 && !e.corroborated then 10.0 else e.raw
    ensures Assess(e, None).capped <==> e.raw >= 35.0 && !e.corroborated
  {
  }

  lemma LevelsInNumbers(e: Evidence, past: Option<real>)
    ensures var a := Assess(e, past);
      && (a.level == CriticalRisk <==> 85.0 <= a.score)
      && (a.level == HighRisk <==> 60.0 <= a.score < 85.0)
      && (a.level == MediumRisk <==> 35.0 <= a.score < 60.0)
      && (a.level == LowRisk <==> a.score < 35.0)
  {
  }

  // ----- which detector counts as what ---------------------------------------------------------

  lemma ShippedDetectorsFeed()
    ensures SourceOf("advanced_pipeline") == Some(MlPipeline) && SourceOf("zscore") == Some(ZScore)
    ensures SourceOf("auth_burst") == Some(AuthBurst) && SourceOf("tamper_detector") == None
  {
    PipelineFeeds();
    ZScoreFeeds();
    AuthBurstFeeds();
    TamperFeedsNothing();
  }

  lemma LowerStays(s: string)
    requires forall i :: 0 <= i < |s| ==> LowerChar(s[i]) == s[i]
    ensures Lower(s) == s
  {
  }

  // Every name of the pipeline has one of these letters.
  lemma NoPipelineName(s: string)
    requires 'l' !in s && 'f' !in s && 'v' !in s
    ensures !Contains(s, "pipeline") && !Contains(s, "model") && !Contains(s, "random_forest")
    ensures !Contains(s, "isolation_forest") && !Contains(s, "advanced")
  {
    hide Contains;
    Lacks(s, "pipeline", 4);
    Lacks(s, "model", 4);
    Lacks(s, "random_forest", 7);
    Lacks(s, "isolation_forest", 3);
    Lacks(s, "advanced", 2);
  }

  lemma ZScoreFeeds()
    ensures SourceOf("zscore") == Some(ZScore)
  {
    hide Contains;
    LowerStays("zscore");
    NoPipelineName("zscore");
    assert "zscore"[0..6] == "zscore";
    ContainsAt("zscore", "zscore", 0);
  }

  lemma NoZScoreName(s: string)
    requires 'z' !in s
    ensures !Contains(s, "zscore") && !Contains(s, "z_score")
  {
    hide Contains;
    Lacks(s, "zscore", 0);
    Lacks(s, "z_score", 0);
  }

  lemma AuthBurstFeeds()
    ensures SourceOf("auth_burst") == Some(AuthBurst)
  {
    hide Contains;
    LowerStays("auth_burst");
    NoPipelineName("auth_burst");
    NoZScoreName("auth_burst");
    assert "auth_burst"[0..4] == "auth";
    ContainsAt("auth_burst", "auth", 0);
  }

  lemma TamperFeedsNothing()
    ensures SourceOf("tamper_detector") == None
  {
    hide Contains;
    LowerStays("tamper_detector");
    NoPipelineName("tamper_detector");
    NoZScoreName("tamper_detector");
    Lacks("tamper_detector", "auth", 1);
  }

  // Each source ends up with the largest of its initial confidence and those of its detectors.
  lemma {:induction false} ConfidencesAreMaxima(results: seq<DetectorResult>, init: Quad, src: Source)
    ensures init.At(src) <= ConfidencesOf(results, init).At(src)
    ensures forall i :: 0 <= i < |results| && Feeds(results[i], src) ==> results[i].confidence <= ConfidencesOf(results, init).At(src)
    ensures ConfidencesOf(results, init).At(src) == init.At(src)
         || exists i :: 0 <= i < |results| && Feeds(results[i], src) && results[i].confidence == ConfidencesOf(results, init).At(src)
  {
    if results != [] {
      var front, k := results[..|results| - 1], |results| - 1;
      ConfidencesAreMaxima(front, init, src);
      var before, after := ConfidencesOf(front, init).At(src), ConfidencesOf(results, init).At(src);
      assert after == if Feeds(results[k], src) then Max(before, results[k].confidence) else before;
      if before != init.At(src) && after == before {
        var i :| 0 <= i < |front| && Feeds(front[i], src) && front[i].confidence == before;
        assert Feeds(results[i], src) && results[i].confidence == after;
      }
    }
  }

  lemma InitialConfidencesInNumbers(h: Heuristics.HeuristicResult)
    ensures InitialConfidences(h).ml == 0.75 && InitialConfidences(h).z == 0.85 && InitialConfidences(h).auth == 0.80
    ensures h.scenarioCount > 0 ==> InitialConfidences(h).heur == 0.85
    ensures h.scenarioCount == 0 ==> InitialConfidences(h).heur == 0.40
  {
  }

  // ----- what corroborates --------------------------------------------------------------------

  ghost predicate AtLeast(numbers: map<string, Option<real>>, feature: string, n: real) {
    feature in numbers && numbers[feature].Some? && numbers[feature].value >= n
  }

  ghost predicate Removable(numbers: map<string, Option<real>>) {
    || AtLeast(numbers, "usb_connect_count", 100.0) || AtLeast(numbers, "daily_files_to_removable_count", 200.0)
    || AtLeast(numbers, "external_drive_file_copy", 100.0) || AtLeast(numbers, "large_usb_transfer", 50.0)
    || AtLeast(numbers, "usb_file_transfer_count", 100.0)
  }

  ghost predicate Deleting(numbers: map<string, Option<real>>) {
    AtLeast(numbers, "file_delete_count", 500.0) || AtLeast(numbers, "daily_file_delete_count", 500.0)
  }

  ghost predicate Intruding(numbers: map<string, Option<real>>) {
    || AtLeast(numbers, "after_hours_logon", 50.0) || AtLeast(numbers, "daily_failed_login_ratio", 0.75)
    || AtLeast(numbers, "edr_failed_auth_ratio_window", 0.75) || AtLeast(numbers, "edr_auth_burst_score", 75.0)
  }

  ghost predicate Sensitive(numbers: map<string, Option<real>>) {
    AtLeast(numbers, "sensitive_file_access", 100.0) || AtLeast(numbers, "unusual_file_access_ratio", 0.75)
  }

  // The three kill chains, each a pair of things the features say.
  ghost predicate KillChain(numbers: map<string, Option<real>>, groups: seq<string>) {
    || (Removable(numbers) && AtLeast(numbers, "job_search_site_visits", 50.0))
    || (Deleting(numbers) && Intruding(numbers))
    || (AtLeast(numbers, "file_sharing_site_visits", 100.0) && (Sensitive(numbers) || "FILE_EXFIL_GROUP" in groups))
  }

  ghost predicate AnyChainPart(numbers: map<string, Option<real>>) {
    Removable(numbers) || Deleting(numbers) || AtLeast(numbers, "file_sharing_site_visits", 100.0)
  }

  // A feature is anomalous if an anomaly names it, or by its number alone.
  lemma AnomalousExactly(results: seq<DetectorResult>, numbers: map<string, Option<real>>, k: string)
    ensures k in AnomalousFeatures(results, numbers) <==>
      || (exists i :: 0 <= i < |results| && results[i].isAnomaly && k in results[i].contributions)
      || k in AnomalousFeatures([], numbers)
  {
    if r :| r in results && r.isAnomaly && k in r.contributions {
      var i :| 0 <= i < |results| && results[i] == r;
    }
    if i :| 0 <= i < |results| && results[i].isAnomaly && k in results[i].contributions {
      assert results[i] in results;
    }
  }

  // A feature crosses its watermark exactly from that value on.
  lemma CrossesFrom(results: seq<DetectorResult>, numbers: map<string, Option<real>>, k: string, n: real)
    requires forall i :: 0 <= i < |results| ==> !results[i].isAnomaly
    requires k in ATTACK_HIGH_WATERMARKS && ATTACK_HIGH_WATERMARKS[k] == n
    ensures k in AnomalousFeatures(results, numbers) <==> AtLeast(numbers, k, n)
  {
  }

  lemma RemovableFamily(results: seq<DetectorResult>, numbers: map<string, Option<real>>)
    requires forall i :: 0 <= i < |results| ==> !results[i].isAnomaly
    ensures AnomalousFeatures(results, numbers) * DEVICE_FEATURES != {} <==> Removable(numbers)
  {
    var f := AnomalousFeatures(results, numbers);
    CrossesFrom(results, numbers, "usb_connect_count", 100.0);
    CrossesFrom(results, numbers, "daily_files_to_removable_count", 200.0);
    CrossesFrom(results, numbers, "external_drive_file_copy", 100.0);
    CrossesFrom(results, numbers, "large_usb_transfer", 50.0);
    CrossesFrom(results, numbers, "usb_file_transfer_count", 100.0);
    hide AnomalousFeatures, AtLeast;
    Meets(f, DEVICE_FEATURES);
  }

  lemma DeletingFamily(results: seq<DetectorResult>, numbers: map<string, Option<real>>)
    requires forall i :: 0 <= i < |results| ==> !results[i].isAnomaly
    ensures AnomalousFeatures(results, numbers) * DELETE_FEATURES != {} <==> Deleting(numbers)
  {
    CrossesFrom(results, numbers, "file_delete_count", 500.0);
    CrossesFrom(results, numbers, "daily_file_delete_count", 500.0);
    hide AnomalousFeatures, AtLeast;
    Meets(AnomalousFeatures(results, numbers), DELETE_FEATURES);
  }

  lemma IntrudingFamily(results: seq<DetectorResult>, numbers: map<string, Option<real>>)
    requires forall i :: 0 <= i < |results| ==> !results[i].isAnomaly
    ensures AnomalousFeatures(results, numbers) * AUTH_FEATURES != {} <==> Intruding(numbers)
  {
    CrossesFrom(results, numbers, "after_hours_logon", 50.0);
    CrossesFrom(results, numbers, "daily_failed_login_ratio", 0.75);
    CrossesFrom(results, numbers, "edr_failed_auth_ratio_window", 0.75);
    CrossesFrom(results, numbers, "edr_auth_burst_score", 75.0);
    hide AnomalousFeatures, AtLeast;
    Meets(AnomalousFeatures(results, numbers), AUTH_FEATURES);
  }

  lemma SmallFamilies(results: seq<DetectorResult>, numbers: map<string, Option<real>>)
    requires forall i :: 0 <= i < |results| ==> !results[i].isAnomaly
    ensures AnomalousFeatures(results, numbers) * JOB_FEATURES != {} <==> AtLeast(numbers, "job_search_site_visits", 50.0)
    ensures AnomalousFeatures(results, numbers) * SHARING_FEATURES != {} <==> AtLeast(numbers, "file_sharing_site_visits", 100.0)
    ensures AnomalousFeatures(results, numbers) * SENSITIVE_FEATURES != {} <==> Sensitive(numbers)
  {
    CrossesFrom(results, numbers, "job_search_site_visits", 50.0);
    CrossesFrom(results, numbers, "file_sharing_site_visits", 100.0);
    CrossesFrom(results, numbers, "sensitive_file_access", 100.0);
    CrossesFrom(results, numbers, "unusual_file_access_ratio", 0.75);
    hide AnomalousFeatures, AtLeast;
    Meets(AnomalousFeatures(results, numbers), JOB_FEATURES);
    Meets(AnomalousFeatures(results, numbers), SHARING_FEATURES);
    Meets(AnomalousFeatures(results, numbers), SENSITIVE_FEATURES);
  }

  lemma Meets(f: set<string>, family: set<string>)
    ensures f * family != {} <==> exists k :: k in family && k in f
  {
    if k :| k in family && k in f {
      assert k in f * family;
    }
  }

  // A severe scenario is one of the three kill chains, in the numbers of the features alone when no
  // detector calls an anomaly.
  lemma SevereInNumbers(results: seq<DetectorResult>, numbers: map<string, Option<real>>, groups: seq<string>)
    requires forall i :: 0 <= i < |results| ==> !results[i].isAnomaly
    ensures (exists s :: s in Scenarios(AnomalousFeatures(results, numbers), groups) && Severe(s)) <==> KillChain(numbers, groups)
    ensures Scenarios(AnomalousFeatures(results, numbers), groups) != [] <==> AnyChainPart(numbers)
  {
    RemovableFamily(results, numbers);
    DeletingFamily(results, numbers);
    IntrudingFamily(results, numbers);
    SmallFamilies(results, numbers);
    SevereExactly(AnomalousFeatures(results, numbers), groups);
  }

  // A payload is corroborated exactly in these four ways.
  lemma {:induction false} CorroboratedExactly(results: seq<DetectorResult>, numbers: map<string, Option<real>>, h: Heuristics.HeuristicResult)
    requires forall i :: 0 <= i < |results| ==> !results[i].isAnomaly
    ensures var scores, confs := ScoresOf(results, InitialScores(h)), ConfidencesOf(results, InitialConfidences(h));
      EvidenceOf(results, numbers, h).corroborated <==>
        || (scores.ml >= 75.0 && confs.ml >= 0.80 && (scores.heur >= 10.0 || scores.z >= 25.0 || AnyChainPart(numbers)))
        || (h.risk >= 50.0 && |h.activeDomains| >= 2)
        || (scores.ml >= 85.0 && confs.ml >= 0.85)
        || KillChain(numbers, h.activeGroups)
  {
    hide ScoresOf, ConfidencesOf, Scenarios, AnomalousFeatures, KillChain, AnyChainPart, RawScore, Severe;
    SevereInNumbers(results, numbers, h.activeGroups);
    NoDetectorFeedsHeuristics(results, InitialScores(h));
  }

  // With the shipped rules that leaves three.
  lemma {:induction false} CorroboratedInNumbers(results: seq<DetectorResult>, f: FeatureVector, benign: string -> bool)
    requires forall i :: 0 <= i < |results| ==> !results[i].isAnomaly
    ensures var h := Heuristics.Evaluate(f, "", benign);
      var scores, confs := ScoresOf(results, InitialScores(h)), ConfidencesOf(results, InitialConfidences(h));
      EvidenceOf(results, f.numbers, h).corroborated <==>
        || (scores.ml >= 75.0 && confs.ml >= 0.80 && (scores.heur >= 10.0 || scores.z >= 25.0 || AnyChainPart(f.numbers)))
        || (scores.ml >= 85.0 && confs.ml >= 0.85)
        || KillChain(f.numbers, h.activeGroups)
  {
    hide Heuristics.Evaluate, ScoresOf, ConfidencesOf, EvidenceOf, KillChain, AnyChainPart;
    var h := Heuristics.Evaluate(f, "", benign);
    HeuristicTheorems.ShippedRulesStayLow(f, "", benign);
    assert !(h.risk >= 50.0);
    CorroboratedExactly(results, f.numbers, h);
  }
}
