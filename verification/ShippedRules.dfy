// The scenarios the shipped rule tables emit, and what their names make of them: every
// correlation group they reach lies in a single domain.
module ShippedRules {
  import opened Text
  import opened HeuristicRules
  import opened Heuristics
  import opened HeuristicTheorems

  // ----- the names --------------------------------------------------------------------------------

  const FILE_NAMES: set<string> := {"Bulk File Collection", "Credential File Hunting", "After-Hours File Activity"}
  const ASSET_NAMES: set<string> := {"Multi-PC Lateral Movement", "Possible Account Sharing"}
  const LONE_NAMES: set<string> := {"After-Hours Midnight Access", "Short Repeated Sessions"}

  // What every emitted name satisfies: it is one of the seven names known to the correlation
  // groups, or not known to them at all.
  predicate Placed(name: string) {
    name in FILE_NAMES || name in ASSET_NAMES || name in LONE_NAMES || name !in CORRELATION_GROUPS
  }

  lemma LogonNamesPlaced(f: FeatureVector)
    ensures forall i :: 0 <= i < |LogonRules(f)| ==> Placed(LogonRules(f)[i].hit.scenario)
  {
  }

  lemma FileNamesPlaced(f: FeatureVector)
    ensures forall i :: 0 <= i < |FileRules(f)| ==> Placed(FileRules(f)[i].hit.scenario)
  {
  }

  lemma HttpNamesPlaced(f: FeatureVector)
    ensures forall i :: 0 <= i < |HttpRules(f)| ==> Placed(HttpRules(f)[i].hit.scenario)
  {
  }

  lemma DeviceNamesPlaced(f: FeatureVector)
    ensures forall i :: 0 <= i < |DeviceRules(f)| ==> Placed(DeviceRules(f)[i].hit.scenario)
  {
  }

  lemma FileNames(name: string)
    requires name in FILE_NAMES
    ensures InferDomain(name) == FileDomain && GroupId(name) == "FILE_EXFIL_GROUP"
  {
    var s := Lower(name);
    if name == "Bulk File Collection" {
      assert s[5..9] == "file";
      ContainsAt(s, "file", 5);
    } else if name == "Credential File Hunting" {
      assert s[11..15] == "file";
      ContainsAt(s, "file", 11);
    } else {
      assert s[12..16] == "file";
      ContainsAt(s, "file", 12);
    }
  }

  const MOVEMENT := "multi-pc lateral movement"
  const SHARING := "possible account sharing"

  lemma MovementLower()
    ensures Lower("Multi-PC Lateral Movement") == MOVEMENT
  {
  }

  lemma SharingLower()
    ensures Lower("Possible Account Sharing") == SHARING
  {
  }

  lemma MovementWords()
    ensures !Contains(MOVEMENT, "file") && !Contains(MOVEMENT, "credential") && !Contains(MOVEMENT, "usb")
    ensures !Contains(MOVEMENT, "device") && Contains(MOVEMENT, "pc")
  {
    hide Contains;
    Lacks(MOVEMENT, "file", 0);
    Lacks(MOVEMENT, "credential", 3);
    Lacks(MOVEMENT, "usb", 1);
    Lacks(MOVEMENT, "device", 0);
    assert MOVEMENT[6..8] == "pc";
    ContainsAt(MOVEMENT, "pc", 6);
  }

  lemma SharingNoUsb()
    ensures !Contains(SHARING, "usb")
  {
    hide Contains;
    assert forall k :: 0 <= k < |SHARING| - 1 && SHARING[k] == 'u' ==> SHARING[k + 1] != 's';
    LacksPair(SHARING, "usb", 0);
  }

  lemma SharingWords()
    ensures !Contains(SHARING, "file") && !Contains(SHARING, "credential") && !Contains(SHARING, "usb")
    ensures !Contains(SHARING, "device") && Contains(SHARING, "account")
  {
    hide Contains;
    Lacks(SHARING, "file", 0);
    Lacks(SHARING, "credential", 3);
    SharingNoUsb();
    Lacks(SHARING, "device", 0);
    assert SHARING[9..16] == "account";
    ContainsAt(SHARING, "account", 9);
  }

  lemma AssetDomains()
    ensures InferDomain("Multi-PC Lateral Movement") == LogonDomain && InferDomain("Possible Account Sharing") == LogonDomain
  {
    hide Contains, Lower, MOVEMENT, SHARING;
    MovementLower();
    MovementWords();
    SharingLower();
    SharingWords();
  }

  lemma AssetNames(name: string)
    requires name in ASSET_NAMES
    ensures InferDomain(name) == LogonDomain && GroupId(name) == "LOGON_ASSET_GROUP"
  {
    hide InferDomain;
    AssetDomains();
  }

  lemma LoneNames(name: string)
    requires name in LONE_NAMES
    ensures GroupId(name) == if name == "After-Hours Midnight Access" then "LOGON_TIME_GROUP" else "LOGON_SESSION_GROUP"
  {
  }

  lemma SingletonGroup(name: string)
    requires name !in CORRELATION_GROUPS
    ensures GroupId(name) == "GROUP_" + name && GroupId(name)[0] == 'G' && GroupId(name)[6..] == name
  {
  }

  lemma KnownGroup(name: string)
    requires name in FILE_NAMES || name in ASSET_NAMES || name in LONE_NAMES
    ensures GroupId(name)[..1] == "F" || GroupId(name)[..1] == "L"
  {
    if name in FILE_NAMES {
      FileNames(name);
    } else if name in ASSET_NAMES {
      AssetNames(name);
    } else {
      LoneNames(name);
    }
  }

  // Two emitted names in one group lie in one domain.
  lemma OneDomainPerGroup(a: string, b: string)
    requires Placed(a) && Placed(b) && GroupId(a) == GroupId(b)
    ensures InferDomain(a) == InferDomain(b)
  {
    hide InferDomain, GroupId;
    if a !in CORRELATION_GROUPS {
      SingletonGroup(a);
    } else {
      KnownGroup(a);
    }
    if b !in CORRELATION_GROUPS {
      SingletonGroup(b);
    } else {
      KnownGroup(b);
    }
    if a in FILE_NAMES { FileNames(a); } else if a in ASSET_NAMES { AssetNames(a); } else if a in LONE_NAMES { LoneNames(a); }
    if b in FILE_NAMES { FileNames(b); } else if b in ASSET_NAMES { AssetNames(b); } else if b in LONE_NAMES { LoneNames(b); }
  }

  lemma {:induction false} FiredPlaced(table: seq<Rule>)
    requires forall i :: 0 <= i < |table| ==> Placed(table[i].hit.scenario)
    ensures forall hit :: hit in Fired(table) ==> Placed(hit.scenario)
  {
    forall hit | hit in Fired(table) ensures Placed(hit.scenario) {
      FiredExactly(table, hit);
    }
  }

  lemma AllPlaced(f: FeatureVector)
    ensures forall hit :: hit in AllHits(f) ==> Placed(hit.scenario)
  {
    hide Placed, LogonRules, FileRules, HttpRules, DeviceRules;
    LogonNamesPlaced(f);
    FileNamesPlaced(f);
    HttpNamesPlaced(f);
    DeviceNamesPlaced(f);
    FiredPlaced(LogonRules(f));
    FiredPlaced(FileRules(f));
    FiredPlaced(HttpRules(f));
    FiredPlaced(DeviceRules(f));
  }

  // Whatever the shipped rules detect, the detections of a group share one domain.
  lemma ShippedDetectionsAreCoherent(f: FeatureVector, ctx: Context)
    ensures Coherent(ClassifyAll(AllHits(f), ctx))
    ensures NonNegativeValues(ClassifyAll(AllHits(f), ctx))
  {
    hide AllHits, Placed, Classify, InferDomain, GroupId;
    var hits := AllHits(f);
    var ds := ClassifyAll(hits, ctx);
    AllPlaced(f);
    AllHitsAreMild(f);
    forall i | 0 <= i < |ds| ensures ds[i].group == GroupId(hits[i].scenario) && ds[i].domain == InferDomain(hits[i].scenario) {
      ClassifiedNames(hits[i], ctx);
    }
    forall i, j | 0 <= i < |ds| && 0 <= j < |ds| && ds[i].group == ds[j].group ensures ds[i].domain == ds[j].domain {
      assert hits[i] in hits && hits[j] in hits;
      OneDomainPerGroup(hits[i].scenario, hits[j].scenario);
    }
    forall i | 0 <= i < |ds| ensures 0.0 <= Value(ds[i]) {
      ClassifiedValue(hits[i], ctx);
    }
  }

  lemma ClassifiedNames(hit: RuleHit, ctx: Context)
    ensures Classify(hit, ctx).group == GroupId(hit.scenario) && Classify(hit, ctx).domain == InferDomain(hit.scenario)
  {
  }

  // Of what the shipped rules detect, leaving one detection out never raises the score, as long
  // as the active domains stay the same.
  lemma ShippedDetectionsOnlyAdd(f: FeatureVector, ctx: Context, k: nat)
    ensures var ds := ClassifyAll(AllHits(f), ctx);
      k < |ds| && Peaks(ds[..k] + ds[k + 1..]).Keys == Peaks(ds).Keys ==> Risk(ds[..k] + ds[k + 1..]) <= Risk(ds)
  {
    hide AllHits, Classify, Peaks, Risk, ClassifyAll;
    var ds := ClassifyAll(AllHits(f), ctx);
    ShippedDetectionsAreCoherent(f, ctx);
    if k < |ds| && Peaks(ds[..k] + ds[k + 1..]).Keys == Peaks(ds).Keys {
      assert ds == ds[..k] + [ds[k]] + ds[k + 1..];
      MoreDetectionsNeverLowerRisk(ds[..k], ds[k], ds[k + 1..]);
    }
  }
}
