// server/risk/aggregator.py: detector outputs and heuristics are fused into one score, which
// is smoothed against recent history and capped unless it is corroborated.
module RiskAggregator {
  import opened Reals
  import opened Text
  import opened HeuristicRules
  import opened RiskFusion
  import Heuristics

  datatype DetectorResult = DetectorResult(name: string, score: real, confidence: real,
                                           isAnomaly: bool, contributions: set<string>)

  datatype CertScenario = S1S2 | S1S2Partial | S3 | S3Partial | S5Confirmed | S5Precursor

  datatype RiskLevel = CriticalRisk | HighRisk | MediumRisk | LowRisk

  datatype Assessment = Assessment(score: real, level: RiskLevel, capped: bool, scenarios: seq<CertScenario>)

  predicate Severe(s: CertScenario) {
    s == S1S2 || s == S3 || s == S5Confirmed
  }

  const ATTACK_HIGH_WATERMARKS: map<string, real> := map[
    "file_access_count" := 10000.0,
    "sensitive_file_access" := 100.0,
    "unusual_file_access_ratio" := 0.75,
    "file_delete_count" := 500.0,
    "daily_file_delete_count" := 500.0,
    "file_sharing_site_visits" := 100.0,
    "job_search_site_visits" := 50.0,
    "usb_connect_count" := 100.0,
    "daily_files_to_removable_count" := 200.0,
    "external_drive_file_copy" := 100.0,
    "large_usb_transfer" := 50.0,
    "usb_file_transfer_count" := 100.0,
    "after_hours_logon" := 50.0,
    "daily_failed_login_ratio" := 0.75,
    "edr_failed_auth_ratio_window" := 0.75,
    "edr_auth_burst_score" := 75.0]

  const DEVICE_FEATURES: set<string> := {"usb_connect_count", "daily_files_to_removable_count",
    "external_drive_file_copy", "large_usb_transfer", "usb_file_transfer_count"}
  const JOB_FEATURES: set<string> := {"job_search_site_visits"}
  const DELETE_FEATURES: set<string> := {"file_delete_count", "daily_file_delete_count"}
  const AUTH_FEATURES: set<string> := {"after_hours_logon", "daily_failed_login_ratio",
    "edr_failed_auth_ratio_window", "edr_auth_burst_score"}
  const SHARING_FEATURES: set<string> := {"file_sharing_site_visits"}
  const SENSITIVE_FEATURES: set<string> := {"sensitive_file_access", "unusual_file_access_ratio"}

  // ----- specification functions -----------------------------------------------------------

  // Which of the four sources a detector feeds, if any, from its lower-case name.
  function SourceOf(name: string): Option<Source> {
    var n := Lower(name);
    if Contains(n, "pipeline") || Contains(n, "model") || Contains(n, "random_forest")
       || Contains(n, "isolation_forest") || Contains(n, "advanced") then Some(MlPipeline)
    else if Contains(n, "zscore") || Contains(n, "z_score") then Some(ZScore)
    else if Contains(n, "auth") then Some(AuthBurst)
    else None
  }

  function InitialScores(h: Heuristics.HeuristicResult): Quad {
    Quad(0.0, 0.0, 0.0, h.risk)
  }

  function InitialConfidences(h: Heuristics.HeuristicResult): Quad {
    Quad(0.75, 0.85, 0.80, if h.scenarioCount > 0 then 0.85 else 0.40)
  }

  function Feed(q: Quad, name: string, v: real): Quad {
    match SourceOf(name)
    case Some(src) => q.With(src, Max(q.At(src), v))
    case None => q
  }

  function ScoresOf(results: seq<DetectorResult>, init: Quad): Quad {
    if results == [] then init
    else
      var r := results[|results| - 1];
      Feed(ScoresOf(results[..|results| - 1], init), r.name, r.score)
  }

  function ConfidencesOf(results: seq<DetectorResult>, init: Quad): Quad {
    if results == [] then init
    else
      var r := results[|results| - 1];
      Feed(ConfidencesOf(results[..|results| - 1], init), r.name, r.confidence)
  }

  function AnomalousFeatures(results: seq<DetectorResult>, numbers: map<string, Option<real>>): set<string> {
    (set r, f | r in results && r.isAnomaly && f in r.contributions :: f) +
    (set k | k in numbers && Crosses(k, numbers[k]))
  }

  predicate Crosses(feature: string, v: Option<real>) {
    feature in ATTACK_HIGH_WATERMARKS && v.Some? && v.value >= ATTACK_HIGH_WATERMARKS[feature]
  }

  function DeviceScenarios(features: set<string>): seq<CertScenario> {
    if features * DEVICE_FEATURES == {} then []
    else if features * JOB_FEATURES != {} then [S1S2]
    else [S1S2Partial]
  }

  function DeleteScenarios(features: set<string>): seq<CertScenario> {
    if features * DELETE_FEATURES == {} then []
    else if features * AUTH_FEATURES != {} then [S3]
    else [S3Partial]
  }

  function SharingScenarios(features: set<string>, groups: seq<string>): seq<CertScenario> {
    if features * SHARING_FEATURES == {} then []
    else if features * SENSITIVE_FEATURES != {} || "FILE_EXFIL_GROUP" in groups then [S5Confirmed]
    else [S5Precursor]
  }

  function Scenarios(features: set<string>, groups: seq<string>): seq<CertScenario> {
    DeviceScenarios(features) + DeleteScenarios(features) + SharingScenarios(features, groups)
  }

  predicate Corroborated(scores: Quad, confs: Quad, h: Heuristics.HeuristicResult, scenarios: seq<CertScenario>) {
    || (scores.ml >= 75.0 && confs.ml >= 0.80
        && (scores.heur >= 10.0 || scores.z >= 25.0 || |scenarios| >= 1))
    || (scores.heur >= 50.0 && |h.activeDomains| >= 2)
    || (scores.ml >= 85.0 && confs.ml >= 0.85)
    || (exists s :: s in scenarios && Severe(s))
  }

  function Smooth(raw: real, past: Option<real>): real {
    if past.Some? && past.value > 0.0 then 0.85 * raw + 0.15 * Min(100.0, past.value) else raw
  }

  function Guard(score: real, corroborated: bool): real {
    if score >= 35.0 && !corroborated then Min(score, 10.0) else score
  }

  function Clamp(score: real): real {
    Max(0.0, Min(100.0, score))
  }

  function LevelOf(score: real): RiskLevel {
    if score >= 85.0 then CriticalRisk
    else if score >= 60.0 then HighRisk
    else if score >= 35.0 then MediumRisk
    else LowRisk
  }

  // The evidence of one payload, after fusion.
  datatype Evidence = Evidence(raw: real, corroborated: bool, scenarios: seq<CertScenario>)

  function EvidenceOf(results: seq<DetectorResult>, numbers: map<string, Option<real>>,
                      h: Heuristics.HeuristicResult): Evidence {
    var scores := ScoresOf(results, InitialScores(h));
    var confs := ConfidencesOf(results, InitialConfidences(h));
    var scenarios := Scenarios(AnomalousFeatures(results, numbers), h.activeGroups);
    Evidence(RawScore(scores, confs), Corroborated(scores, confs, h, scenarios), scenarios)
  }

  function Assess(e: Evidence, past: Option<real>): Assessment {
    var smoothed := Smooth(e.raw, past);
    var final := Clamp(Guard(smoothed, e.corroborated));
    Assessment(final, LevelOf(final), smoothed >= 35.0 && !e.corroborated, e.scenarios)
  }

  const NO_DETECTORS := Assessment(0.0, LowRisk, false, [])

  // ----- the code ----------------------------------------------------------------------------

  // The corroboration matrix, one condition after the other.
  method VerifyCriticalCorroboration(scores: Quad, confs: Quad, h: Heuristics.HeuristicResult,
                                     scenarios: seq<CertScenario>) returns (ok: bool)
    ensures ok == Corroborated(scores, confs, h, scenarios)
  {
    if scores.ml >= 75.0 && confs.ml >= 0.80 {
      if scores.heur >= 10.0 || scores.z >= 25.0 || |scenarios| >= 1 {
        return true;
      }
    }
    if scores.heur >= 50.0 && |h.activeDomains| >= 2 {
      return true;
    }
    if scores.ml >= 85.0 && confs.ml >= 0.85 {
      return true;
    }
    for i := 0 to |scenarios|
      invariant forall j :: 0 <= j < i ==> !Severe(scenarios[j])
    {
      if Severe(scenarios[i]) {
        return true;
      }
    }
    return false;
  }

  method CollectAnomalousFeatures(results: seq<DetectorResult>, numbers: map<string, Option<real>>)
    returns (features: set<string>)
    ensures features == AnomalousFeatures(results, numbers)
  {
    features := {};
    for i := 0 to |results|
      invariant features == set r, f | r in results[..i] && r.isAnomaly && f in r.contributions :: f
    {
      assert results[..i + 1] == results[..i] + [results[i]];
      if results[i].isAnomaly {
        features := features + results[i].contributions;
      }
    }
    assert results[..|results|] == results;
    var todo := numbers.Keys;
    ghost var flagged := features;
    while todo != {}
      invariant todo <= numbers.Keys
      invariant features == flagged + set k | k in numbers && k !in todo && Crosses(k, numbers[k])
    {
      var k :| k in todo;
      if k in ATTACK_HIGH_WATERMARKS && numbers[k].Some? && numbers[k].value >= ATTACK_HIGH_WATERMARKS[k] {
        features := features + {k};
      }
      todo := todo - {k};
    }
  }

  method MapCertScenarios(results: seq<DetectorResult>, numbers: map<string, Option<real>>, groups: seq<string>)
    returns (scenarios: seq<CertScenario>)
    ensures scenarios == Scenarios(AnomalousFeatures(results, numbers), groups)
  {
    var features := CollectAnomalousFeatures(results, numbers);
    scenarios := [];
    if features * DEVICE_FEATURES != {} && features * JOB_FEATURES != {} {
      scenarios := scenarios + [S1S2];
    } else if features * DEVICE_FEATURES != {} {
      scenarios := scenarios + [S1S2Partial];
    }
    if features * DELETE_FEATURES != {} && features * AUTH_FEATURES != {} {
      scenarios := scenarios + [S3];
    } else if features * DELETE_FEATURES != {} {
      scenarios := scenarios + [S3Partial];
    }
    if features * SHARING_FEATURES != {}
       && (features * SENSITIVE_FEATURES != {} || "FILE_EXFIL_GROUP" in groups) {
      scenarios := scenarios + [S5Confirmed];
    } else if features * SHARING_FEATURES != {} {
      scenarios := scenarios + [S5Precursor];
    }
  }

  method FuseDetectors(results: seq<DetectorResult>, h: Heuristics.HeuristicResult)
    returns (scores: Quad, confs: Quad)
    ensures scores == ScoresOf(results, InitialScores(h))
    ensures confs == ConfidencesOf(results, InitialConfidences(h))
  {
    scores, confs := InitialScores(h), InitialConfidences(h);
    for i := 0 to |results|
      invariant scores == ScoresOf(results[..i], InitialScores(h))
      invariant confs == ConfidencesOf(results[..i], InitialConfidences(h))
    {
      assert results[..i + 1][..i] == results[..i];
      match SourceOf(results[i].name) {
        case Some(src) =>
          scores := scores.With(src, Max(scores.At(src), results[i].score));
          confs := confs.With(src, Max(confs.At(src), results[i].confidence));
        case None =>
      }
    }
    assert results[..|results|] == results;
  }

  // `past` is the maximum stored score in the window, absent when there is no user name or
  // the lookup fails.
  method AggregateDetectors(results: seq<DetectorResult>, past: Option<real>, f: FeatureVector,
                            benign: string -> bool) returns (a: Assessment)
    ensures results == [] && f == FeatureVector(map[], map[]) ==> a == NO_DETECTORS
    ensures !(results == [] && f == FeatureVector(map[], map[])) ==>
      a == Assess(EvidenceOf(results, f.numbers, Heuristics.Evaluate(f, "", benign)), past)
    ensures 0.0 <= a.score <= 100.0
  {
    hide RawScore, ScoresOf, ConfidencesOf, Corroborated, Scenarios, AnomalousFeatures, Heuristics.Evaluate;
    if results == [] && f == FeatureVector(map[], map[]) {
      return NO_DETECTORS;
    }
    var h := Heuristics.DetectInsiderThreat(f, "", benign);
    var scores, confs := FuseDetectors(results, h);
    var raw := RawScore(scores, confs);
    var score := raw;
    if past.Some? && past.value > 0.0 {
      score := 0.85 * raw + 0.15 * Min(100.0, past.value);
    }
    var scenarios := MapCertScenarios(results, f.numbers, h.activeGroups);
    var capped := false;
    if score >= 35.0 {
      var ok := VerifyCriticalCorroboration(scores, confs, h, scenarios);
      if !ok {
        score := Min(score, 10.0);
        capped := true;
      }
    }
    score := Max(0.0, Min(100.0, score));
    a := Assessment(score, LevelOf(score), capped, scenarios);
  }
}
