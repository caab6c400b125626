// heuristics/detector.py: contextual discounting, grouping by correlation cluster, decay
// within a group, and the weighted superposition of the domains.
module Heuristics {
  import opened Reals
  import opened Text
  import opened HeuristicRules
  import opened CorrelationDecay

  datatype Domain = FileDomain | DeviceDomain | LogonDomain | HttpDomain

  datatype Detection = Detection(hit: RuleHit, domain: Domain, effective: real, group: string)

  // What the feature vector says about the endpoint: a trusted build process, a path with a
  // benign pattern, and the profile that selects the sensitivities.
  datatype Context = Context(trusted: bool, benignPath: bool, profile: string)

  datatype HeuristicResult = HeuristicResult(risk: real, severity: Severity, scenarioCount: nat,
                                             activeDomains: set<Domain>, activeGroups: seq<string>)

  const EMPTY_RESULT := HeuristicResult(0.0, Low, 0, {}, [])

  const CORRELATION_GROUPS: map<string, string> := map[
    "Bulk File Collection" := "FILE_EXFIL_GROUP",
    "Anomalous File Access" := "FILE_EXFIL_GROUP",
    "Credential File Hunting" := "FILE_EXFIL_GROUP",
    "After-Hours File Activity" := "FILE_EXFIL_GROUP",
    "Weekend File Collection" := "FILE_EXFIL_GROUP",
    "Rapid File Modification" := "FILE_RANSOM_GROUP",
    "Cloud Storage Upload" := "HTTP_EXFIL_GROUP",
    "Restricted Domain Access" := "SUSPICIOUS_HTTP_GROUP",
    "High Network Traffic" := "HTTP_EXFIL_GROUP",
    "After-Hours Browsing" := "SUSPICIOUS_HTTP_GROUP",
    "After-Hours Midnight Access" := "LOGON_TIME_GROUP",
    "Multi-PC Lateral Movement" := "LOGON_ASSET_GROUP",
    "Short Repeated Sessions" := "LOGON_SESSION_GROUP",
    "Possible Account Sharing" := "LOGON_ASSET_GROUP",
    "Weekend Logon Activity" := "LOGON_TIME_GROUP",
    "Failed Authentication Burst" := "LOGON_AUTH_GROUP",
    "USB Storage Device Inserted" := "DEVICE_USB_GROUP",
    "Unapproved USB Device" := "DEVICE_USB_GROUP",
    "Bulk USB File Transfer" := "DEVICE_USB_GROUP"]

  const TRUSTED_BUILD_PROCESSES: set<string> := {
    "git.exe", "cargo.exe", "rustc.exe", "msbuild.exe", "cl.exe", "javac.exe",
    "npm.cmd", "node.exe", "yarn.cmd", "pnpm.cmd", "docker.exe", "dockerd.exe",
    "mvn.cmd", "gradlew.bat", "python.exe", "pytest.exe", "go.exe", "code.exe"}

  function DomainWeight(d: Domain): real {
    match d
    case FileDomain => 0.35
    case DeviceDomain => 0.30
    case LogonDomain => 0.20
    case HttpDomain => 0.15
  }

  function Sensitivity(profile: string, d: Domain): (s: real)
    ensures 0.0 < s <= 1.0
  {
    if profile == "OFFICE_WORKER" then 1.0
    else if profile == "DEVELOPER" then
      match d case FileDomain => 0.35 case HttpDomain => 0.60 case LogonDomain => 0.70 case DeviceDomain => 0.80
    else if profile == "SYSADMIN" then
      match d case FileDomain => 0.60 case HttpDomain => 0.70 case LogonDomain => 0.30 case DeviceDomain => 0.70
    else if profile == "DATA_ENGINEER" then
      match d case FileDomain => 0.40 case HttpDomain => 0.30 case LogonDomain => 0.60 case DeviceDomain => 0.70
    else if profile == "MEDIA_CREATOR" then
      match d case FileDomain => 0.40 case HttpDomain => 0.50 case LogonDomain => 0.80 case DeviceDomain => 0.30
    else 0.80
  }

  function InferDomain(scenario: string): Domain {
    var s := Lower(scenario);
    if Contains(s, "file") || Contains(s, "credential") then FileDomain
    else if Contains(s, "usb") || Contains(s, "device") then DeviceDomain
    else if Contains(s, "logon") || Contains(s, "session") || Contains(s, "pc")
         || Contains(s, "account") || Contains(s, "auth") then LogonDomain
    else if Contains(s, "http") || Contains(s, "cloud") || Contains(s, "domain")
         || Contains(s, "network") || Contains(s, "browsing") then HttpDomain
    else FileDomain
  }

  function OverallSeverity(score: real): Severity {
    if score >= 85.0 then Critical
    else if score >= 60.0 then High
    else if score >= 35.0 then Medium
    else Low
  }

  // ----- discounting -------------------------------------------------------------------

  function Discount(scenario: string, d: Domain, ctx: Context): (f: real)
    ensures 0.0 < f <= 1.0
  {
    var byProcess :=
      if !ctx.trusted then 1.0
      else if d == FileDomain then 0.20
      else if d == HttpDomain && scenario in CORRELATION_GROUPS
              && Contains(CORRELATION_GROUPS[scenario], "HTTP_EXFIL") then 0.50
      else 1.0;
    if ctx.benignPath then byProcess * 0.25 else byProcess
  }

  function GroupId(scenario: string): string {
    if scenario in CORRELATION_GROUPS then CORRELATION_GROUPS[scenario] else "GROUP_" + scenario
  }

  function Classify(hit: RuleHit, ctx: Context): Detection {
    var d := InferDomain(hit.scenario);
    Detection(hit, d, hit.score * Discount(hit.scenario, d, ctx) * Sensitivity(ctx.profile, d),
              GroupId(hit.scenario))
  }

  function ClassifyAll(hits: seq<RuleHit>, ctx: Context): (ds: seq<Detection>)
    ensures |ds| == |hits|
  {
    seq(|hits|, i requires 0 <= i < |hits| => Classify(hits[i], ctx))
  }

  function Value(d: Detection): real {
    d.effective * ConfidenceWeight(d.hit.confidence)
  }

  // ----- grouping ----------------------------------------------------------------------

  function Front<T>(s: seq<T>): seq<T> requires s != [] { s[..|s| - 1] }

  function Last<T>(s: seq<T>): T requires s != [] { s[|s| - 1] }

  function Values(ds: seq<Detection>): (vs: seq<real>)
    ensures |vs| == |ds|
  {
    seq(|ds|, i requires 0 <= i < |ds| => Value(ds[i]))
  }

  function Members(ds: seq<Detection>, g: string): seq<Detection> {
    if ds == [] then []
    else Members(Front(ds), g) + if Last(ds).group == g then [Last(ds)] else []
  }

  // The group names in the order in which they first occur.
  function Groups(ds: seq<Detection>): seq<string> {
    if ds == [] then []
    else
      var gs := Groups(Front(ds));
      if Last(ds).group in gs then gs else gs + [Last(ds).group]
  }

  // sorted(items, key=value, reverse=True), which keeps equal items in their order.
  function InsertByValue(d: Detection, ds: seq<Detection>): (r: seq<Detection>)
    ensures |r| == |ds| + 1
    ensures forall x :: x in r <==> x == d || x in ds
  {
    if ds == [] || Value(ds[0]) <= Value(d) then [d] + ds else [ds[0]] + InsertByValue(d, ds[1..])
  }

  function SortByValue(ds: seq<Detection>): (r: seq<Detection>)
    ensures |r| == |ds|
    ensures forall x :: x in r <==> x in ds
  {
    if ds == [] then [] else InsertByValue(ds[0], SortByValue(ds[1..]))
  }

  function ScoreOf(ds: seq<Detection>, g: string): real {
    GroupScore(Values(Members(ds, g)))
  }

  // The domain of a group is the domain of its primary detection.
  function DomainOf(ds: seq<Detection>, g: string): Domain {
    var sorted := SortByValue(Members(ds, g));
    if sorted == [] then FileDomain else sorted[0].domain
  }

  // ----- superposition -----------------------------------------------------------------

  function PeakAt(peaks: map<Domain, real>, d: Domain): real {
    if d in peaks then peaks[d] else 0.0
  }

  function PeaksOver(groups: seq<string>, ds: seq<Detection>): map<Domain, real> {
    if groups == [] then map[]
    else
      var peaks := PeaksOver(Front(groups), ds);
      var d := DomainOf(ds, Last(groups));
      peaks[d := Max(PeakAt(peaks, d), ScoreOf(ds, Last(groups)))]
  }

  function Peaks(ds: seq<Detection>): map<Domain, real> {
    PeaksOver(Groups(ds), ds)
  }

  function ActiveWeight(peaks: map<Domain, real>, d: Domain): real {
    if d in peaks then DomainWeight(d) else 0.0
  }

  function One(b: bool): nat { if b then 1 else 0 }

  function ActiveCount(peaks: map<Domain, real>): nat {
    One(FileDomain in peaks) + One(DeviceDomain in peaks) + One(LogonDomain in peaks) + One(HttpDomain in peaks)
  }

  function TotalWeight(peaks: map<Domain, real>): real {
    ActiveWeight(peaks, FileDomain) + ActiveWeight(peaks, DeviceDomain)
    + ActiveWeight(peaks, LogonDomain) + ActiveWeight(peaks, HttpDomain)
  }

  function WeightedPeaks(peaks: map<Domain, real>): real {
    PeakAt(peaks, FileDomain) * 0.35 + PeakAt(peaks, DeviceDomain) * 0.30
    + PeakAt(peaks, LogonDomain) * 0.20 + PeakAt(peaks, HttpDomain) * 0.15
  }

  function PeakSum(peaks: map<Domain, real>): real {
    PeakAt(peaks, FileDomain) + PeakAt(peaks, DeviceDomain) + PeakAt(peaks, LogonDomain) + PeakAt(peaks, HttpDomain)
  }

  function BaseRisk(peaks: map<Domain, real>): real {
    WeightedPeaks(peaks) / Max(0.01, TotalWeight(peaks))
  }

  function Bonus(peaks: map<Domain, real>): real {
    if ActiveCount(peaks) >= 3 && BaseRisk(peaks) >= 35.0
    then Min(10.0, (ActiveCount(peaks) - 2) as real * 5.0)
    else 0.0
  }

  function Superpose(peaks: map<Domain, real>): real {
    var risk :=
      if ActiveCount(peaks) == 0 then 0.0
      else if ActiveCount(peaks) == 1 then PeakSum(peaks) * 0.40
      else Min(100.0, BaseRisk(peaks) + Bonus(peaks));
    Max(0.0, Min(100.0, risk))
  }

  function Risk(ds: seq<Detection>): real {
    Superpose(Peaks(ds))
  }

  function AllHits(f: FeatureVector): seq<RuleHit> {
    Fired(LogonRules(f)) + Fired(FileRules(f)) + Fired(HttpRules(f)) + Fired(DeviceRules(f))
  }

  function TextOr(f: FeatureVector, first: string, second: string, default: string): string {
    if first in f.texts && f.texts[first] != "" then f.texts[first]
    else if second in f.texts && f.texts[second] != "" then f.texts[second]
    else default
  }

  function ContextOf(f: FeatureVector, profile: string, benign: string -> bool): Context {
    var path := TextOr(f, "target_path", "file_path", "");
    Context(Lower(TextOr(f, "process_name", "active_process", "")) in TRUSTED_BUILD_PROCESSES,
            path != "" && benign(path),
            Upper(if profile != "" then profile else TextOr(f, "system_profile", "user_role", "DEFAULT")))
  }

  // ----- the loops of detect_insider_threat ---------------------------------------------

  method ClassifyDetections(hits: seq<RuleHit>, ctx: Context) returns (ds: seq<Detection>)
    ensures ds == ClassifyAll(hits, ctx)
  {
    ds := [];
    for i := 0 to |hits|
      invariant ds == ClassifyAll(hits[..i], ctx)
    {
      ds := ds + [Classify(hits[i], ctx)];
    }
    assert hits[..|hits|] == hits;
  }

  method GroupDetections(ds: seq<Detection>) returns (grouped: map<string, seq<Detection>>, order: seq<string>)
    ensures order == Groups(ds)
    ensures forall g :: g in grouped <==> g in order
    ensures forall g :: g in grouped ==> grouped[g] == Members(ds, g)
  {
    grouped, order := map[], [];
    for i := 0 to |ds|
      invariant order == Groups(ds[..i])
      invariant forall g :: g in grouped <==> g in order
      invariant forall g :: g in grouped ==> grouped[g] == Members(ds[..i], g)
      invariant forall g :: g !in grouped ==> Members(ds[..i], g) == []
    {
      var g := ds[i].group;
      assert Front(ds[..i + 1]) == ds[..i];
      if g !in grouped {
        order := order + [g];
      }
      grouped := grouped[g := (if g in grouped then grouped[g] else []) + [ds[i]]];
    }
    assert ds[..|ds|] == ds;
  }

  method ScoreGroup(items: seq<Detection>) returns (score: real, domain: Domain)
    requires items != []
    ensures score == GroupScore(Values(items))
    ensures domain == SortByValue(items)[0].domain
  {
    hide SortByValue, SortDescending, Value;
    var sorted := SortByValue(items);
    SortAgrees(items);
    var supporting := 0.0;
    ghost var rest := Values(sorted)[1..];
    for i := 1 to |sorted|
      invariant supporting + SupportingSum(rest[i - 1..], i) == SupportingSum(rest, 1)
    {
      assert rest[i - 1..][1..] == rest[i..];
      supporting := supporting + Value(sorted[i]) * Pow(0.2, i);
    }
    SupportingSumIsScaledDecay(rest, 1);
    score := Min(100.0, Value(sorted[0]) + supporting);
    domain := sorted[0].domain;
  }

  method PeakDomains(ds: seq<Detection>) returns (peaks: map<Domain, real>, order: seq<string>)
    ensures peaks == Peaks(ds) && order == Groups(ds)
  {
    hide SortByValue, GroupScore, Members, Groups, Values, Max;
    var grouped;
    grouped, order := GroupDetections(ds);
    peaks := map[];
    for i := 0 to |order|
      invariant peaks == PeaksOver(order[..i], ds)
    {
      MembersNonEmpty(ds, order[i]);
      var score, d := ScoreGroup(grouped[order[i]]);
      assert Front(order[..i + 1]) == order[..i];
      peaks := peaks[d := Max(PeakAt(peaks, d), score)];
    }
    assert order[..|order|] == order;
  }

  // What detect_insider_threat reports, as a function of the feature vector.
  function Evaluate(f: FeatureVector, profile: string, benign: string -> bool): HeuristicResult {
    var ds := ClassifyAll(AllHits(f), ContextOf(f, profile, benign));
    if f == FeatureVector(map[], map[]) || ds == [] then EMPTY_RESULT
    else HeuristicResult(Risk(ds), OverallSeverity(Risk(ds)), |ds|, Peaks(ds).Keys, Groups(ds))
  }

  method DetectInsiderThreat(f: FeatureVector, profile: string, benign: string -> bool)
    returns (r: HeuristicResult)
    ensures r == Evaluate(f, profile, benign)
  {
    hide Fired, Peaks, Groups, Classify, ClassifyAll, LogonRules, FileRules, HttpRules, DeviceRules, ContextOf;
    if f == FeatureVector(map[], map[]) {
      return EMPTY_RESULT;
    }
    var logon := DetectScenarios(LogonRules(f));
    var file := DetectScenarios(FileRules(f));
    var http := DetectScenarios(HttpRules(f));
    var device := DetectScenarios(DeviceRules(f));
    var hits := logon + file + http + device;
    if hits == [] {
      return EMPTY_RESULT;
    }
    var ds := ClassifyDetections(hits, ContextOf(f, profile, benign));
    var peaks, order := PeakDomains(ds);
    var risk := Superpose(peaks);
    r := HeuristicResult(risk, OverallSeverity(risk), |ds|, peaks.Keys, order);
  }

  lemma {:induction false} MembersNonEmpty(ds: seq<Detection>, g: string)
    ensures g in Groups(ds) <==> Members(ds, g) != []
  {
    if ds != [] {
      MembersNonEmpty(Front(ds), g);
    }
  }

  lemma {:induction false} InsertAgrees(d: Detection, ds: seq<Detection>)
    ensures Values(InsertByValue(d, ds)) == Insert(Value(d), Values(ds))
  {
    if ds == [] || Value(ds[0]) <= Value(d) {
    } else {
      InsertAgrees(d, ds[1..]);
      assert Values(ds)[1..] == Values(ds[1..]);
    }
  }

  lemma {:induction false} SortAgrees(ds: seq<Detection>)
    ensures Values(SortByValue(ds)) == SortDescending(Values(ds))
  {
    if ds != [] {
      SortAgrees(ds[1..]);
      InsertAgrees(ds[0], SortByValue(ds[1..]));
      assert Values(ds)[1..] == Values(ds[1..]);
    }
  }
}
