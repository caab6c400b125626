// The four rule tables of the heuristic engine: heuristics/logon_rules.py, file_rules.py,
// http_rules.py and device_rules.py. A rule whose condition holds reports one detection.
module HeuristicRules {
  import opened Reals
  import opened Text

  // The numeric features hold a number, or None / NaN; the textual ones hold the process,
  // the path and the profile. A key may be absent from either dictionary.
  datatype FeatureVector = FeatureVector(numbers: map<string, Option<real>>, texts: map<string, string>)

  datatype Severity = Critical | High | Medium | Low

  datatype Confidence = VeryHighConfidence | HighConfidence | MediumConfidence | LowConfidence

  datatype RuleHit = RuleHit(scenario: string, severity: Severity, score: real, confidence: Confidence)

  function ConfidenceWeight(c: Confidence): real {
    match c
    case VeryHighConfidence => 0.95
    case HighConfidence => 0.90
    case MediumConfidence => 0.70
    case LowConfidence => 0.40
  }

  function SafeGet(f: FeatureVector, key: string): real {
    if key in f.numbers && f.numbers[key].Some? then f.numbers[key].value else 0.0
  }

  // One row of a rule table: whether its condition holds, and what it then reports.
  datatype Rule = When(fires: bool, hit: RuleHit)

  // What the global bound needs to know of a rule: 20 * 0.90 is the largest product in the
  // tables.
  predicate Mild(hit: RuleHit) {
    0.0 <= hit.score && hit.score * ConfidenceWeight(hit.confidence) <= 18.0
  }

  // The detections of a table, in the order of its rules.
  function Fired(table: seq<Rule>): seq<RuleHit> {
    if table == [] then []
    else Fired(table[..|table| - 1]) +
         if table[|table| - 1].fires then [table[|table| - 1].hit] else []
  }

  method DetectScenarios(table: seq<Rule>) returns (detections: seq<RuleHit>)
    ensures detections == Fired(table)
  {
    detections := [];
    for i := 0 to |table|
      invariant detections == Fired(table[..i])
    {
      if table[i].fires {
        detections := detections + [table[i].hit];
      }
      assert table[..i + 1][..i] == table[..i];
    }
    assert table[..|table|] == table;
  }

  lemma {:induction false} FiredExactly(table: seq<Rule>, hit: RuleHit)
    ensures hit in Fired(table) <==> exists i :: 0 <= i < |table| && table[i].fires && table[i].hit == hit
  {
    if table != [] {
      var front, last := table[..|table| - 1], table[|table| - 1];
      FiredExactly(front, hit);
      if i :| 0 <= i < |table| && table[i].fires && table[i].hit == hit && i != |table| - 1 {
        assert front[i].fires && front[i].hit == hit;
      }
    }
  }

  // ----- heuristics/logon_rules.py -----

  function LogonRules(f: FeatureVector): (table: seq<Rule>)
    ensures forall i :: 0 <= i < |table| ==> Mild(table[i].hit)
  {
    var logon := SafeGet(f, "logon_count");
    var logoff := SafeGet(f, "logoff_count");
    var pcs := SafeGet(f, "unique_pc_count");
    var dailyPcs := SafeGet(f, "daily_unique_pc_count");
    var afterHours := SafeGet(f, "after_hours_logon");
    var ratio := SafeGet(f, "daily_after_hours_logon_ratio");
    var first := SafeGet(f, "first_logon_time");
    var weekend := SafeGet(f, "weekend_logon");
    var entropy := SafeGet(f, "daily_pc_access_entropy");
    [ When(afterHours >= 50.0 && (first <= 2.0 || logon >= 100.0),
           RuleHit("After-Hours Midnight Access", Medium, 10.0, MediumConfidence)),
      When(pcs >= 100.0 || (dailyPcs >= 100.0 && entropy >= 5.5),
           RuleHit("Multi-PC Lateral Movement", High, 20.0, HighConfidence)),
      When(logon <= 50.0 && pcs <= 10.0 && afterHours <= 25.0 && weekend <= 25.0,
           RuleHit("Normal Daily Login", Low, 0.0, HighConfidence)),
      When(logon >= 300.0 && logoff >= 300.0 && Abs(logon - logoff) <= 20.0,
           RuleHit("Short Repeated Sessions", Medium, 10.0, MediumConfidence)),
      When(logon >= 100.0 && pcs >= 50.0 && ratio > 0.95,
           RuleHit("Possible Account Sharing", Medium, 10.0, LowConfidence))
    ]
  }

  // ----- heuristics/file_rules.py -----

  function FileRules(f: FeatureVector): (table: seq<Rule>)
    ensures forall i :: 0 <= i < |table| ==> Mild(table[i].hit)
  {
    var accesses := SafeGet(f, "file_access_count");
    var unique := SafeGet(f, "daily_unique_filename_count");
    var newFiles := SafeGet(f, "daily_new_filename_count");
    var entropy := SafeGet(f, "daily_file_access_entropy");
    var afterHours := SafeGet(f, "after_hours_file_access");
    var weekend := SafeGet(f, "weekend_file_access");
    var repeat := SafeGet(f, "daily_repeat_file_ratio");
    [ When(accesses >= 20000.0 && unique >= 5000.0,
           RuleHit("Bulk File Collection", High, 15.0, HighConfidence)),
      When(accesses > 0.0 && unique > 0.0 && accesses <= 2500.0 && unique <= 2500.0 && afterHours <= 50.0 &&
           weekend <= 50.0,
           RuleHit("Normal Document Editing", Low, 0.0, HighConfidence)),
      When(entropy >= 6.5 && newFiles >= 2500.0 && repeat <= 0.005 && accesses >= 5000.0,
           RuleHit("Anomalous File Access Pattern", Medium, 10.0, MediumConfidence)),
      When(newFiles >= 3000.0 && repeat <= 0.005 && unique >= 3000.0,
           RuleHit("Credential File Hunting", High, 15.0, HighConfidence)),
      When(10.0 <= accesses <= 10000.0 && 10.0 <= unique <= 10000.0 && afterHours <= 50.0 && weekend <= 50.0 &&
           repeat < 0.85,
           RuleHit("Possible New Employee Onboarding", Low, 0.0, LowConfidence)),
      When(afterHours >= 100.0 && accesses >= 5000.0,
           RuleHit("After-Hours File Activity", Medium, 10.0, MediumConfidence)),
      When(weekend >= 100.0 && accesses >= 5000.0,
           RuleHit("Weekend File Collection Activity", Medium, 10.0, MediumConfidence))
    ]
  }

  // ----- heuristics/http_rules.py -----

  function HttpRules(f: FeatureVector): (table: seq<Rule>)
    ensures forall i :: 0 <= i < |table| ==> Mild(table[i].hit)
  {
    var requests := SafeGet(f, "http_count");
    var urls := SafeGet(f, "unique_url_count");
    var suspicious := SafeGet(f, "suspicious_url_count");
    var sharing := SafeGet(f, "file_sharing_site_visits");
    var jobs := SafeGet(f, "job_search_site_visits");
    var afterHours := SafeGet(f, "http_after_hours");
    var external := SafeGet(f, "daily_external_domain_ratio");
    [ When(requests > 0.0 && suspicious <= 5.0 && sharing <= 50.0 && jobs <= 25.0 && afterHours <= 50.0 &&
           urls <= 2000.0,
           RuleHit("Normal Work Browsing", Low, 0.0, HighConfidence)),
      When(sharing >= 200.0 && afterHours >= 50.0,
           RuleHit("Cloud Storage Exfiltration", High, 15.0, HighConfidence)),
      When(suspicious >= 100.0 && urls <= 5.0,
           RuleHit("Research on Dark Web Tools", Medium, 10.0, MediumConfidence)),
      When(sharing >= 300.0 && afterHours >= 50.0 && external >= 0.98,
           RuleHit("Personal Email File Forwarding", High, 15.0, HighConfidence)),
      When(requests >= 5000.0 && urls <= 2.0 && suspicious >= 30.0,
           RuleHit("Malware C2 Communication", High, 20.0, HighConfidence)),
      When(suspicious <= 5.0 && 10.0 <= urls <= 2000.0 && 1.0 <= jobs <= 50.0,
           RuleHit("Online Training Course", Low, 0.0, LowConfidence)),
      When(requests >= 50.0 && suspicious <= 5.0 && sharing <= 50.0,
           RuleHit("Excessive Personal Browsing", Low, 0.0, LowConfidence)),
      When(suspicious >= 100.0 && afterHours >= 50.0,
           RuleHit("Tor Network Access Attempt", Medium, 10.0, MediumConfidence)),
      When(requests <= 5000.0 && suspicious <= 5.0 && sharing <= 50.0 && jobs <= 50.0,
           RuleHit("Social Media During Work Hours", Low, 0.0, LowConfidence)),
      When(suspicious >= 50.0 && urls <= 5.0 && requests <= 50.0,
           RuleHit("Phishing Site Visit", Medium, 10.0, MediumConfidence))
    ]
  }

  // ----- heuristics/device_rules.py -----

  function DeviceRules(f: FeatureVector): (table: seq<Rule>)
    ensures forall i :: 0 <= i < |table| ==> Mild(table[i].hit)
  {
    var connects := SafeGet(f, "usb_connect_count");
    var disconnects := SafeGet(f, "usb_disconnect_count");
    [ When(connects >= 300.0 && disconnects >= 300.0,
           RuleHit("Repeated Short USB Connects", Medium, 10.0, HighConfidence))
    ]
  }
}
