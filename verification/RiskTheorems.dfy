// What the fused score promises over single payloads and over whole histories.
module RiskTheorems {
  import opened Reals
  import opened Text
  import opened HeuristicRules
  import opened RiskFusion
  import opened RiskAggregator
  import DomainActivation
  import Heuristics
  import HeuristicTheorems

  ghost predicate WellScored(results: seq<DetectorResult>) {
    forall i :: 0 <= i < |results| ==> 0.0 <= results[i].score <= 100.0 && 0.0 <= results[i].confidence <= 1.0
  }

  // ----- what the fusion loop computes -------------------------------------------------

  ghost predicate Feeds(r: DetectorResult, src: Source) {
    SourceOf(r.name) == Some(src)
  }

  // Each source ends up with the largest of its initial value and the scores of the
  // detectors that feed it.
  lemma {:induction false} ScoresAreMaxima(results: seq<DetectorResult>, init: Quad, src: Source)
    ensures init.At(src) <= ScoresOf(results, init).At(src)
    ensures forall i :: 0 <= i < |results| && Feeds(results[i], src) ==> results[i].score <= ScoresOf(results, init).At(src)
    ensures ScoresOf(results, init).At(src) == init.At(src)
         || exists i :: 0 <= i < |results| && Feeds(results[i], src) && results[i].score == ScoresOf(results, init).At(src)
  {
    if results != [] {
      var front, k := results[..|results| - 1], |results| - 1;
      ScoresAreMaxima(front, init, src);
      var before, after := ScoresOf(front, init).At(src), ScoresOf(results, init).At(src);
      assert after == if Feeds(results[k], src) then Max(before, results[k].score) else before;
      if before != init.At(src) && after == before {
        var i :| 0 <= i < |front| && Feeds(front[i], src) && front[i].score == before;
        assert Feeds(results[i], src) && results[i].score == after;
      }
    }
  }

  lemma {:induction false} ConfidencesInRange(results: seq<DetectorResult>, init: Quad)
    requires WellScored(results) && InRange(init, 0.0, 1.0)
    ensures InRange(ConfidencesOf(results, init), 0.0, 1.0)
  {
    if results != [] {
      var front, r := results[..|results| - 1], results[|results| - 1];
      ConfidencesInRange(front, init);
      var q := ConfidencesOf(front, init);
      forall src: Source ensures 0.0 <= Feed(q, r.name, r.confidence).At(src) <= 1.0 {
        assert 0.0 <= q.At(src) <= 1.0;
      }
    }
  }

  lemma ScoresInRange(results: seq<DetectorResult>, init: Quad)
    requires WellScored(results) && InRange(init, 0.0, 100.0)
    ensures InRange(ScoresOf(results, init), 0.0, 100.0)
  {
    forall src: Source ensures 0.0 <= ScoresOf(results, init).At(src) <= 100.0 {
      assert 0.0 <= init.At(src) <= 100.0;
      ScoresAreMaxima(results, init, src);
    }
  }

  lemma RawInRange(results: seq<DetectorResult>, numbers: map<string, Option<real>>, h: Heuristics.HeuristicResult)
    requires WellScored(results) && 0.0 <= h.risk <= 100.0
    ensures 0.0 <= EvidenceOf(results, numbers, h).raw <= 100.0
  {
    ScoresInRange(results, InitialScores(h));
    ConfidencesInRange(results, InitialConfidences(h));
    RawScoreBetween(ScoresOf(results, InitialScores(h)), ConfidencesOf(results, InitialConfidences(h)), 0.0, 100.0);
  }

  // ----- one payload -------------------------------------------------------------------

  // Any level above low means that corroboration held; history contributes at most 15
  // beyond 0.85 of the raw score, and takes away at most 0.15 of it.
  lemma AssessmentBounds(e: Evidence, past: Option<real>)
    requires 0.0 <= e.raw <= 100.0
    ensures Assess(e, past).level != LowRisk ==> e.corroborated
    ensures 0.0 <= Assess(e, past).score <= 100.0
    ensures e.corroborated ==> 0.85 * e.raw <= Assess(e, past).score
    ensures past == None || past.value <= 0.0 || Assess(e, past).score <= 0.85 * e.raw + 15.0
    ensures !e.corroborated ==> Assess(e, past).score < 35.0
  {
  }

  // With no less raw evidence, and corroboration not lost, the final score does not fall,
  // except exactly when the stronger payload meets the guard uncorroborated and the weaker one
  // passes below it with more than 10.
  lemma MoreEvidenceNeverHurts(weak: Evidence, strong: Evidence, past: Option<real>)
    requires 0.0 <= weak.raw <= strong.raw <= 100.0
    requires weak.corroborated ==> strong.corroborated
    ensures Assess(weak, past).score <= Assess(strong, past).score <==>
            strong.corroborated || Smooth(strong.raw, past) < 35.0
            || Smooth(weak.raw, past) <= 10.0 || Smooth(weak.raw, past) >= 35.0
  {
    assert Smooth(weak.raw, past) <= Smooth(strong.raw, past);
  }

  // ----- stronger detector outputs -----------------------------------------------------

  ghost predicate Stronger(a: seq<DetectorResult>, b: seq<DetectorResult>) {
    |a| == |b| && forall i :: 0 <= i < |a| ==>
      a[i].name == b[i].name && a[i].confidence == b[i].confidence && a[i].score <= b[i].score
  }

  lemma {:induction false} FusionMonotone(a: seq<DetectorResult>, b: seq<DetectorResult>, init: Quad)
    requires Stronger(a, b)
    ensures AtMost(ScoresOf(a, init), ScoresOf(b, init))
  {
    if a != [] {
      var k := |a| - 1;
      FusionMonotone(a[..k], b[..k], init);
      var p, q := ScoresOf(a[..k], init), ScoresOf(b[..k], init);
      forall src: Source ensures ScoresOf(a, init).At(src) <= ScoresOf(b, init).At(src) {
        assert p.At(src) <= q.At(src);
        assert ScoresOf(a, init).At(src) == if Feeds(a[k], src) then Max(p.At(src), a[k].score) else p.At(src);
        assert ScoresOf(b, init).At(src) == if Feeds(b[k], src) then Max(q.At(src), b[k].score) else q.At(src);
      }
    }
  }

  lemma {:induction false} SameConfidences(a: seq<DetectorResult>, b: seq<DetectorResult>, init: Quad)
    requires Stronger(a, b)
    ensures ConfidencesOf(a, init) == ConfidencesOf(b, init)
  {
    if a != [] {
      SameConfidences(a[..|a| - 1], b[..|b| - 1], init);
    }
  }

  lemma ScenariosMonotone(f: set<string>, g: set<string>, groups: seq<string>)
    requires f <= g
    ensures |Scenarios(f, groups)| <= |Scenarios(g, groups)|
    ensures (exists s :: s in Scenarios(f, groups) && Severe(s)) ==> exists s :: s in Scenarios(g, groups) && Severe(s)
  {
    Intersects(f, g, DEVICE_FEATURES);
    Intersects(f, g, JOB_FEATURES);
    Intersects(f, g, DELETE_FEATURES);
    Intersects(f, g, AUTH_FEATURES);
    Intersects(f, g, SHARING_FEATURES);
    Intersects(f, g, SENSITIVE_FEATURES);
    hide DEVICE_FEATURES, JOB_FEATURES, DELETE_FEATURES, AUTH_FEATURES, SHARING_FEATURES, SENSITIVE_FEATURES;
    SevereExactly(f, groups);
    SevereExactly(g, groups);
  }

  lemma Intersects(f: set<string>, g: set<string>, t: set<string>)
    requires f <= g
    ensures f * t != {} ==> g * t != {}
  {
    if x :| x in f * t {
      assert x in g * t;
    }
  }

  // A severe scenario needs a correlated pair of feature families.
  lemma SevereExactly(f: set<string>, groups: seq<string>)
    ensures (exists s :: s in Scenarios(f, groups) && Severe(s)) <==>
      || (f * DEVICE_FEATURES != {} && f * JOB_FEATURES != {})
      || (f * DELETE_FEATURES != {} && f * AUTH_FEATURES != {})
      || (f * SHARING_FEATURES != {} && (f * SENSITIVE_FEATURES != {} || "FILE_EXFIL_GROUP" in groups))
  {
    hide DEVICE_FEATURES, JOB_FEATURES, DELETE_FEATURES, AUTH_FEATURES, SHARING_FEATURES, SENSITIVE_FEATURES;
    var p, q, r := DeviceScenarios(f), DeleteScenarios(f), SharingScenarios(f, groups);
    assert forall s :: s in Scenarios(f, groups) <==> s in p || s in q || s in r;
    assert S1S2 in p <==> f * DEVICE_FEATURES != {} && f * JOB_FEATURES != {};
    assert S3 in q <==> f * DELETE_FEATURES != {} && f * AUTH_FEATURES != {};
    assert S5Confirmed in r <==>
      f * SHARING_FEATURES != {} && (f * SENSITIVE_FEATURES != {} || "FILE_EXFIL_GROUP" in groups);
  }

  // Raising detector scores and adding anomalous features, with confidences and heuristics
  // fixed, never lowers the raw score and never turns corroboration off.
  lemma StrongerEvidence(a: seq<DetectorResult>, b: seq<DetectorResult>,
                         na: map<string, Option<real>>, nb: map<string, Option<real>>, h: Heuristics.HeuristicResult)
    requires WellScored(a) && WellScored(b) && 0.0 <= h.risk <= 100.0
    requires Stronger(a, b) && AnomalousFeatures(a, na) <= AnomalousFeatures(b, nb)
    ensures EvidenceOf(a, na, h).raw <= EvidenceOf(b, nb, h).raw
    ensures EvidenceOf(a, na, h).corroborated ==> EvidenceOf(b, nb, h).corroborated
  {
    var init, confs := InitialScores(h), ConfidencesOf(a, InitialConfidences(h));
    FusionMonotone(a, b, init);
    SameConfidences(a, b, InitialConfidences(h));
    ScoresInRange(a, init);
    ScoresInRange(b, init);
    ConfidencesInRange(a, InitialConfidences(h));
    RawScoreMonotone(ScoresOf(a, init), ScoresOf(b, init), confs);
    ScenariosMonotone(AnomalousFeatures(a, na), AnomalousFeatures(b, nb), h.activeGroups);
    assert ScoresOf(a, init).At(MlPipeline) <= ScoresOf(b, init).At(MlPipeline);
    assert ScoresOf(a, init).At(ZScore) <= ScoresOf(b, init).At(ZScore);
    assert ScoresOf(a, init).At(Heuristics) <= ScoresOf(b, init).At(Heuristics);
  }

  // So for detector lists and feature sets: raising detector scores and adding anomalous features
  // keeps or raises the final score, except exactly when the stronger payload meets the guard
  // uncorroborated and the weaker one passes below it with more than 10.
  lemma StrongerPayloadNeverHurts(a: seq<DetectorResult>, b: seq<DetectorResult>,
                                  na: map<string, Option<real>>, nb: map<string, Option<real>>,
                                  h: Heuristics.HeuristicResult, past: Option<real>)
    requires WellScored(a) && WellScored(b) && 0.0 <= h.risk <= 100.0
    requires Stronger(a, b) && AnomalousFeatures(a, na) <= AnomalousFeatures(b, nb)
    ensures var weak, strong := EvidenceOf(a, na, h), EvidenceOf(b, nb, h);
      Assess(weak, past).score <= Assess(strong, past).score <==>
        strong.corroborated || Smooth(strong.raw, past) < 35.0
        || Smooth(weak.raw, past) <= 10.0 || Smooth(weak.raw, past) >= 35.0
  {
    hide EvidenceOf, Assess, Smooth, AnomalousFeatures, WellScored, Stronger;
    StrongerEvidence(a, b, na, nb, h);
    RawInRange(a, na, h);
    RawInRange(b, nb, h);
    MoreEvidenceNeverHurts(EvidenceOf(a, na, h), EvidenceOf(b, nb, h), past);
  }

  // ----- the guard ---------------------------------------------------------------------

  // The pipeline's result alone.
  function Pipeline(score: real, c: real): seq<DetectorResult> {
    [DetectorResult("advanced_pipeline", score, c, false, {})]
  }

  // No severe scenario in the features alone.
  ghost predicate Unsevere(f: FeatureVector, benign: string -> bool) {
    forall s :: s in Scenarios(AnomalousFeatures([], f.numbers), Heuristics.Evaluate(f, "", benign).activeGroups) ==> !Severe(s)
  }

  lemma PipelineFuses(score: real, c: real, init: Quad)
    ensures ScoresOf(Pipeline(score, c), init) == init.(ml := Max(init.ml, score))
    ensures ConfidencesOf(Pipeline(score, c), init) == init.(ml := Max(init.ml, c))
    ensures forall numbers :: AnomalousFeatures(Pipeline(score, c), numbers) == AnomalousFeatures([], numbers)
  {
    PipelineFeeds();
    var r := DetectorResult("advanced_pipeline", score, c, false, {});
    assert Pipeline(score, c)[..0] == [];
    assert ScoresOf([r], init) == Feed(ScoresOf([], init), r.name, score);
    assert ConfidencesOf([r], init) == Feed(ConfidencesOf([], init), r.name, c);
  }

  lemma PipelineFeeds()
    ensures SourceOf("advanced_pipeline") == Some(MlPipeline)
  {
    var name := "advanced_pipeline";
    assert |name| == 17 && forall i :: 0 <= i < 17 ==> LowerChar(name[i]) == name[i];
    assert Lower(name) == name && name[..8] == "advanced";
    assert Contains(name, "advanced");
  }

  // With the other detectors silent, a pipeline score of 50 makes at least 35, and one of 40 less.
  lemma RawOfPipeline(heur: real, confs: Quad)
    requires 0.0 <= heur <= 22.5 && InRange(confs, 0.0, 1.0)
    ensures 28.0 <= RawScore(Quad(40.0, 0.0, 0.0, heur), confs) < 35.0
    ensures 35.0 <= RawScore(Quad(50.0, 0.0, 0.0, heur), confs) <= 100.0
  {
    var low, high := Quad(40.0, 0.0, 0.0, heur), Quad(50.0, 0.0, 0.0, heur);
    assert confs.At(MlPipeline) <= 1.0 && 0.0 <= confs.At(MlPipeline);
    assert Excess(40.0) == 0.0 && Excess(heur) < 0.0;
    assert Weights(low, confs) == Quad(0.70, 0.10, 0.05, 0.15);
    WeightBounds(high, confs);
    var w := Weights(high, confs);
    assert w == Quad(w.ml, 0.10, 0.05, 0.15) && w.At(MlPipeline) >= 0.70;
    assert Dot(high, w) == 50.0 * w.ml + 0.15 * heur;
    assert 35.0 * Total(w) <= Dot(high, w) <= 100.0 * Total(w);
    DivideBounds(35.0, Dot(high, w), 100.0, Total(w));
  }

  // The guard is not monotone: whatever the features, short of a severe scenario, and whatever the
  // confidence, a payload with a pipeline score of 50 ends lower than the same with a score of 40.
  lemma GuardIsNotMonotone(f: FeatureVector, benign: string -> bool, c: real, past: Option<real>)
    requires 0.0 <= c <= 1.0 && (past.Some? ==> past.value <= 0.0) && Unsevere(f, benign)
    ensures var h := Heuristics.Evaluate(f, "", benign);
      && WellScored(Pipeline(40.0, c)) && WellScored(Pipeline(50.0, c)) && Stronger(Pipeline(40.0, c), Pipeline(50.0, c))
      && Assess(EvidenceOf(Pipeline(50.0, c), f.numbers, h), past).score == 10.0
      && Assess(EvidenceOf(Pipeline(40.0, c), f.numbers, h), past).score >= 28.0
  {
    hide Heuristics.Evaluate, EvidenceOf, WellScored, Stronger, Pipeline, Assess, RawScore, Scenarios, AnomalousFeatures, Severe;
    HeuristicTheorems.ShippedRulesStayLow(f, "", benign);
    var h := Heuristics.Evaluate(f, "", benign);
    assert Unsevere(f, benign);
    PipelineEvidence(40.0, c, f.numbers, h);
    PipelineEvidence(50.0, c, f.numbers, h);
    RawOfPipeline(h.risk, InitialConfidences(h).(ml := Max(0.75, c)));
    PipelineStronger(40.0, 50.0, c);
    CutExactly(EvidenceOf(Pipeline(40.0, c), f.numbers, h), past);
    CutExactly(EvidenceOf(Pipeline(50.0, c), f.numbers, h), past);
  }

  // Such features exist: any whose numbers all stay below their watermarks.
  lemma QuietIsUnsevere(f: FeatureVector, benign: string -> bool)
    requires forall k :: k in f.numbers ==> !Crosses(k, f.numbers[k])
    ensures Unsevere(f, benign)
  {
    hide Heuristics.Evaluate;
    assert AnomalousFeatures([], f.numbers) == {};
  }

  lemma PipelineStronger(score: real, score': real, c: real)
    requires 0.0 <= c <= 1.0 && 0.0 <= score <= score' <= 100.0
    ensures WellScored(Pipeline(score, c)) && WellScored(Pipeline(score', c)) && Stronger(Pipeline(score, c), Pipeline(score', c))
  {
  }

  lemma CutExactly(e: Evidence, past: Option<real>)
    requires 0.0 <= e.raw <= 100.0 && !e.corroborated && (past.Some? ==> past.value <= 0.0)
    ensures Assess(e, past).score == if e.raw >= 35.0 then 10.0 else e.raw
  {
  }

  lemma PipelineEvidence(score: real, c: real, numbers: map<string, Option<real>>, h: Heuristics.HeuristicResult)
    requires 0.0 <= score <= 50.0 && 0.0 <= c <= 1.0 && 0.0 <= h.risk <= 22.5
    requires forall s :: s in Scenarios(AnomalousFeatures([], numbers), h.activeGroups) ==> !Severe(s)
    ensures var e := EvidenceOf(Pipeline(score, c), numbers, h); var confs := InitialConfidences(h).(ml := Max(0.75, c));
      e.raw == RawScore(Quad(score, 0.0, 0.0, h.risk), confs) && !e.corroborated && InRange(confs, 0.0, 1.0)
  {
    hide RawScore, Scenarios, AnomalousFeatures, ScoresOf, ConfidencesOf, SourceOf, Pipeline;
    PipelineFuses(score, c, InitialScores(h));
    PipelineFuses(score, c, InitialConfidences(h));
  }

  lemma {:induction false} NoDetectorFeedsHeuristics(results: seq<DetectorResult>, init: Quad)
    ensures ScoresOf(results, init).heur == init.heur
  {
    if results != [] {
      NoDetectorFeedsHeuristics(results[..|results| - 1], init);
    }
  }

  // The corroboration condition on heuristics of at least 50 never holds: the shipped rules
  // report at most 22.5, and no detector feeds that source.
  lemma HeuristicConditionNeverFires(results: seq<DetectorResult>, f: FeatureVector, benign: string -> bool)
    ensures ScoresOf(results, InitialScores(Heuristics.Evaluate(f, "", benign))).heur <= 22.5
  {
    hide Heuristics.Evaluate;
    HeuristicTheorems.ShippedRulesStayLow(f, "", benign);
    NoDetectorFeedsHeuristics(results, InitialScores(Heuristics.Evaluate(f, "", benign)));
  }

  // Whatever the features say, a heuristic score above 0 that no detector supports is not a floor
  // of the fused score.
  lemma UnsupportedHeuristicsAreDiluted(f: FeatureVector, benign: string -> bool)
    ensures var h := Heuristics.Evaluate(f, "", benign); h.risk > 0.0 ==> EvidenceOf([], f.numbers, h).raw < h.risk
  {
    hide Heuristics.Evaluate, EvidenceOf;
    HeuristicTheorems.ShippedRulesStayLow(f, "", benign);
    var h := Heuristics.Evaluate(f, "", benign);
    RawWithoutDetectors(f.numbers, h);
    if h.risk > 0.0 {
      AloneIsDiluted(h.risk, InitialConfidences(h));
    }
  }

  lemma RawWithoutDetectors(numbers: map<string, Option<real>>, h: Heuristics.HeuristicResult)
    ensures EvidenceOf([], numbers, h).raw == RawScore(Quad(0.0, 0.0, 0.0, h.risk), InitialConfidences(h))
    ensures InRange(InitialConfidences(h), 0.0, 1.0)
  {
    hide RawScore, Scenarios, AnomalousFeatures, Corroborated;
  }

  // There are features for which that happens.
  lemma HeuristicsAreNoFloor(benign: string -> bool) returns (f: FeatureVector)
    ensures var h := Heuristics.Evaluate(f, "", benign); h.risk > 0.0 && EvidenceOf([], f.numbers, h).raw < h.risk
  {
    hide Heuristics.Evaluate, EvidenceOf;
    f := DomainActivation.Features(0.0);
    DomainActivation.ThirdDomainCanLowerRisk("", benign);
    HeuristicTheorems.ShippedRulesStayLow(DomainActivation.Features(1.0), "", benign);
    UnsupportedHeuristicsAreDiluted(f, benign);
  }
}
