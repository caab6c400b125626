// What the heuristic score promises: more detections never lower it, and what the shipped
// rules can reach at most.
module HeuristicTheorems {
  import opened Reals
  import opened Text
  import opened HeuristicRules
  import opened CorrelationDecay
  import opened Heuristics

  // The detections of one correlation group agree on their domain.
  ghost predicate Coherent(ds: seq<Detection>) {
    forall i, j :: 0 <= i < |ds| && 0 <= j < |ds| && ds[i].group == ds[j].group ==> ds[i].domain == ds[j].domain
  }

  ghost predicate NonNegativeValues(ds: seq<Detection>) {
    forall i :: 0 <= i < |ds| ==> 0.0 <= Value(ds[i])
  }

  // ----- groups ------------------------------------------------------------------------

  lemma {:induction false} MembersAppend(a: seq<Detection>, b: seq<Detection>, g: string)
    ensures Members(a + b, g) == Members(a, g) + Members(b, g)
  {
    if b == [] {
      assert a + b == a;
    } else {
      assert Front(a + b) == a + Front(b);
      MembersAppend(a, Front(b), g);
    }
  }

  lemma {:induction false} MembersOf(ds: seq<Detection>, g: string)
    ensures forall d :: d in Members(ds, g) <==> d in ds && d.group == g
  {
    if ds != [] {
      MembersOf(Front(ds), g);
      assert ds == Front(ds) + [Last(ds)];
    }
  }

  lemma GroupsOf(ds: seq<Detection>, g: string)
    ensures g in Groups(ds) <==> exists d :: d in ds && d.group == g
  {
    MembersNonEmpty(ds, g);
    MembersOf(ds, g);
    if Members(ds, g) != [] {
      assert Members(ds, g)[0] in Members(ds, g);
    }
  }

  lemma ValuesAppend(a: seq<Detection>, b: seq<Detection>)
    ensures Values(a + b) == Values(a) + Values(b)
  {
  }

  lemma DomainOfCoherent(ds: seq<Detection>, d: Detection)
    requires Coherent(ds) && d in ds
    ensures DomainOf(ds, d.group) == d.domain
  {
    MembersOf(ds, d.group);
    var members := Members(ds, d.group);
    assert d in members;
    var primary := SortByValue(members)[0];
    assert primary in SortByValue(members);
    assert primary in members && primary in ds && primary.group == d.group;
  }

  lemma ScoreNonNegative(ds: seq<Detection>, g: string)
    requires NonNegativeValues(ds)
    ensures 0.0 <= ScoreOf(ds, g)
  {
    MembersOf(ds, g);
    var vs := Values(Members(ds, g));
    forall i | 0 <= i < |vs| ensures 0.0 <= vs[i] {
      assert Members(ds, g)[i] in Members(ds, g);
    }
    SortCorrect(vs);
    SameElements(vs, SortDescending(vs));
    forall i | 0 <= i < |vs| ensures 0.0 <= SortDescending(vs)[i] {
      assert SortDescending(vs)[i] in SortDescending(vs);
    }
    DecaySumNonNegative(SortDescending(vs));
  }

  // ----- peaks: the largest group score of each domain that has a group at all ----------

  lemma {:induction false} PeaksAreMaxima(groups: seq<string>, ds: seq<Detection>, d: Domain)
    requires forall g :: g in groups ==> 0.0 <= ScoreOf(ds, g)
    ensures d in PeaksOver(groups, ds) <==> exists g :: g in groups && DomainOf(ds, g) == d
    ensures forall g :: g in groups && DomainOf(ds, g) == d ==> ScoreOf(ds, g) <= PeakAt(PeaksOver(groups, ds), d)
    ensures d in PeaksOver(groups, ds) ==>
      exists g :: g in groups && DomainOf(ds, g) == d && ScoreOf(ds, g) == PeaksOver(groups, ds)[d]
  {
    if groups != [] {
      PeaksAreMaxima(Front(groups), ds, d);
      var last := Last(groups);
      assert groups == Front(groups) + [last];
      assert last in groups;
      if d in PeaksOver(Front(groups), ds) {
        var g :| g in Front(groups) && DomainOf(ds, g) == d && ScoreOf(ds, g) == PeaksOver(Front(groups), ds)[d];
        assert g in groups;
      }
    }
  }

  // ds' has every group of ds with at least its score, and in the same domain.
  ghost predicate Dominates(ds: seq<Detection>, ds': seq<Detection>) {
    forall g :: g in Groups(ds) ==>
      g in Groups(ds') && ScoreOf(ds, g) <= ScoreOf(ds', g) && DomainOf(ds, g) == DomainOf(ds', g)
  }

  lemma PeaksRise(ds: seq<Detection>, ds': seq<Detection>, d: Domain)
    requires NonNegativeValues(ds) && NonNegativeValues(ds') && Dominates(ds, ds')
    requires d in Peaks(ds)
    ensures d in Peaks(ds') && 0.0 <= Peaks(ds)[d] <= Peaks(ds')[d]
  {
    forall g ensures 0.0 <= ScoreOf(ds, g) && 0.0 <= ScoreOf(ds', g) {
      ScoreNonNegative(ds, g);
      ScoreNonNegative(ds', g);
    }
    PeaksAreMaxima(Groups(ds), ds, d);
    PeaksAreMaxima(Groups(ds'), ds', d);
    var g :| g in Groups(ds) && DomainOf(ds, g) == d && ScoreOf(ds, g) == Peaks(ds)[d];
  }

  // ----- superposition -----------------------------------------------------------------

  lemma DivideMonotone(n: real, n': real, d: real)
    requires n <= n' && 0.0 < d
    ensures n / d <= n' / d
  {
    var q, q' := n / d, n' / d;
    assert (q' - q) * d == n' - n;
  }

  lemma SuperposeMonotone(p: map<Domain, real>, q: map<Domain, real>)
    requires p.Keys == q.Keys && forall d :: d in p ==> 0.0 <= p[d] <= q[d]
    ensures Superpose(p) <= Superpose(q)
  {
    assert forall d :: d in p <==> d in q;
    assert forall d :: PeakAt(p, d) <= PeakAt(q, d);
    assert TotalWeight(p) == TotalWeight(q);
    assert WeightedPeaks(p) <= WeightedPeaks(q);
    DivideMonotone(WeightedPeaks(p), WeightedPeaks(q), Max(0.01, TotalWeight(p)));
    assert BaseRisk(p) <= BaseRisk(q);
  }

  lemma RiskMonotone(ds: seq<Detection>, ds': seq<Detection>)
    requires NonNegativeValues(ds) && NonNegativeValues(ds') && Dominates(ds, ds')
    requires Peaks(ds).Keys == Peaks(ds').Keys
    ensures Risk(ds) <= Risk(ds')
  {
    forall d | d in Peaks(ds) ensures 0.0 <= Peaks(ds)[d] <= Peaks(ds')[d] {
      PeaksRise(ds, ds', d);
    }
    SuperposeMonotone(Peaks(ds), Peaks(ds'));
  }

  // ----- one more, or one stronger, detection -------------------------------------------

  lemma {:induction false} SubCoherent(ds: seq<Detection>, ds': seq<Detection>, g: string)
    requires Coherent(ds) && Coherent(ds') && g in Groups(ds)
    requires forall d :: d in ds ==> exists e :: e in ds' && e.group == d.group && e.domain == d.domain
    ensures g in Groups(ds') && DomainOf(ds, g) == DomainOf(ds', g)
  {
    GroupsOf(ds, g);
    var d :| d in ds && d.group == g;
    var e :| e in ds' && e.group == d.group && e.domain == d.domain;
    GroupsOf(ds', g);
    DomainOfCoherent(ds, d);
    DomainOfCoherent(ds', e);
  }

  lemma CoherentSubset(ds: seq<Detection>, ds': seq<Detection>)
    requires Coherent(ds') && forall d :: d in ds ==> d in ds'
    ensures Coherent(ds)
  {
    forall i, j | 0 <= i < |ds| && 0 <= j < |ds| && ds[i].group == ds[j].group
      ensures ds[i].domain == ds[j].domain
    {
      assert ds[i] in ds' && ds[j] in ds';
    }
  }

  lemma NonNegativeSubset(ds: seq<Detection>, ds': seq<Detection>)
    requires NonNegativeValues(ds') && forall d :: d in ds ==> d in ds'
    ensures NonNegativeValues(ds)
  {
    forall i | 0 <= i < |ds| ensures 0.0 <= Value(ds[i]) {
      assert ds[i] in ds';
    }
  }

  // Inserting a detection anywhere never lowers the overall score, as long as the groups
  // agree on their domains and no domain becomes active.
  lemma MoreDetectionsNeverLowerRisk(before: seq<Detection>, d: Detection, after: seq<Detection>)
    requires Coherent(before + [d] + after) && NonNegativeValues(before + [d] + after)
    requires Peaks(before + after).Keys == Peaks(before + [d] + after).Keys
    ensures Risk(before + after) <= Risk(before + [d] + after)
  {
    hide Risk, Peaks, ScoreOf, DomainOf, Value, Coherent, Groups;
    var ds, ds' := before + after, before + [d] + after;
    assert forall e :: e in ds ==> e in before || e in after;
    assert forall e :: e in ds ==> e in ds';
    CoherentSubset(ds, ds');
    NonNegativeSubset(ds, ds');
    assert d == ds'[|before|];
    forall g | g in Groups(ds)
      ensures g in Groups(ds') && ScoreOf(ds, g) <= ScoreOf(ds', g) && DomainOf(ds, g) == DomainOf(ds', g)
    {
      SubCoherent(ds, ds', g);
      InsertScore(before, d, after, g);
    }
    RiskMonotone(ds, ds');
  }

  lemma InsertScore(before: seq<Detection>, d: Detection, after: seq<Detection>, g: string)
    requires 0.0 <= Value(d)
    ensures ScoreOf(before + after, g) <= ScoreOf(before + [d] + after, g)
  {
    var b, a := Members(before, g), Members(after, g);
    MembersAppend(before, after, g);
    ValuesAppend(b, a);
    MembersWith(before, d, after, g);
    if d.group == g {
      GroupScoreInsert(Values(b), Value(d), Values(a));
    }
  }

  // Raising a detection, in its group and domain, never lowers the overall score.
  lemma RaisedDetectionNeverLowersRisk(before: seq<Detection>, d: Detection, d': Detection, after: seq<Detection>)
    requires d.group == d'.group && d.domain == d'.domain && Value(d) <= Value(d')
    requires Coherent(before + [d] + after) && NonNegativeValues(before + [d] + after)
    ensures Risk(before + [d] + after) <= Risk(before + [d'] + after)
  {
    var ds, ds' := before + [d] + after, before + [d'] + after;
    var k := |before|;
    assert ds' == ds[k := d'];
    assert ds == ds'[k := d];
    assert NonNegativeValues(ds') && Coherent(ds') by {
      assert ds[k] == d && ds'[k] == d';
      assert forall i :: 0 <= i < |ds| && i != k ==> ds'[i] == ds[i];
    }
    Counterparts(ds, ds', k);
    Counterparts(ds', ds, k);
    forall g | g in Groups(ds)
      ensures g in Groups(ds') && ScoreOf(ds, g) <= ScoreOf(ds', g) && DomainOf(ds, g) == DomainOf(ds', g)
    {
      SubCoherent(ds, ds', g);
      RaiseScore(before, d, d', after, g);
    }
    forall g | g in Groups(ds') ensures g in Groups(ds) && DomainOf(ds', g) == DomainOf(ds, g) {
      SubCoherent(ds', ds, g);
    }
    SameActiveDomains(ds, ds');
    RiskMonotone(ds, ds');
  }

  lemma Counterparts(ds: seq<Detection>, ds': seq<Detection>, k: nat)
    requires |ds| == |ds'| && k < |ds| && ds' == ds[k := ds'[k]]
    requires ds[k].group == ds'[k].group && ds[k].domain == ds'[k].domain
    ensures forall d :: d in ds ==> exists e :: e in ds' && e.group == d.group && e.domain == d.domain
  {
    forall d | d in ds ensures exists e :: e in ds' && e.group == d.group && e.domain == d.domain {
      var i :| 0 <= i < |ds| && ds[i] == d;
      assert ds'[i] in ds';
    }
  }

  lemma {:induction false} SameActiveDomains(ds: seq<Detection>, ds': seq<Detection>)
    requires NonNegativeValues(ds) && NonNegativeValues(ds')
    requires forall g :: g in Groups(ds) <==> g in Groups(ds')
    requires forall g :: g in Groups(ds) ==> DomainOf(ds, g) == DomainOf(ds', g)
    ensures Peaks(ds).Keys == Peaks(ds').Keys
  {
    forall g ensures 0.0 <= ScoreOf(ds, g) && 0.0 <= ScoreOf(ds', g) {
      ScoreNonNegative(ds, g);
      ScoreNonNegative(ds', g);
    }
    forall d: Domain ensures d in Peaks(ds) <==> d in Peaks(ds') {
      PeaksAreMaxima(Groups(ds), ds, d);
      PeaksAreMaxima(Groups(ds'), ds', d);
    }
  }

  lemma RaiseScore(before: seq<Detection>, d: Detection, d': Detection, after: seq<Detection>, g: string)
    requires d.group == d'.group && Value(d) <= Value(d')
    ensures ScoreOf(before + [d] + after, g) <= ScoreOf(before + [d'] + after, g)
  {
    var b, a := Members(before, g), Members(after, g);
    MembersWith(before, d, after, g);
    MembersWith(before, d', after, g);
    if d.group == g {
      GroupScoreRaise(Values(b), Value(d), Value(d'), Values(a));
    }
  }

  lemma MembersWith(before: seq<Detection>, d: Detection, after: seq<Detection>, g: string)
    ensures var b, a := Members(before, g), Members(after, g);
            Values(Members(before + [d] + after, g))
              == if d.group == g then Values(b) + [Value(d)] + Values(a) else Values(b) + Values(a)
  {
    var b, a := Members(before, g), Members(after, g);
    var one := if d.group == g then [d] else [];
    MembersAppend(before + [d], after, g);
    MembersAppend(before, [d], g);
    assert Front([d]) == [];
    assert Members([d], g) == one;
    ValuesAppend(b + one, a);
    ValuesAppend(b, one);
    assert Values(one) == if d.group == g then [Value(d)] else [];
  }

  // ----- activating a domain -------------------------------------------------------------

  // Without the hypothesis on the active domains the score can fall: a weak detection in a
  // new domain dilutes the mean, exactly when the new peak is below the old mean. DomainActivation
  // takes this to the returned score.
  lemma NewDomainLowersBaseIff(p: map<Domain, real>, d: Domain, x: real)
    requires p != map[] && d !in p
    ensures BaseRisk(p[d := x]) < BaseRisk(p) <==> x < BaseRisk(p)
  {
    hide WeightedPeaks, TotalWeight;
    ActivateDomain(p, d, x);
    MeanWithOneMore(WeightedPeaks(p), TotalWeight(p), x, DomainWeight(d));
  }

  lemma ActivateDomain(p: map<Domain, real>, d: Domain, x: real)
    requires p != map[] && d !in p
    ensures TotalWeight(p) >= 0.15 && TotalWeight(p[d := x]) == TotalWeight(p) + DomainWeight(d)
    ensures WeightedPeaks(p[d := x]) == WeightedPeaks(p) + x * DomainWeight(d)
  {
    var k :| k in p;
    assert ActiveWeight(p, k) >= 0.15;
    match d
    case FileDomain => assert PeakAt(p[d := x], d) * 0.35 == x * 0.35;
    case DeviceDomain => assert PeakAt(p[d := x], d) * 0.30 == x * 0.30;
    case LogonDomain => assert PeakAt(p[d := x], d) * 0.20 == x * 0.20;
    case HttpDomain => assert PeakAt(p[d := x], d) * 0.15 == x * 0.15;
  }

  lemma MeanWithOneMore(n: real, t: real, x: real, w: real)
    requires 0.0 < t && 0.0 < w
    ensures (n + x * w) / (t + w) < n / t <==> x < n / t
  {
    var m, m' := n / t, (n + x * w) / (t + w);
    assert m * t == n && m' * (t + w) == n + x * w;
    assert (m' - m) * (t + w) == (x - m) * w;
    SameSign(m' - m, t + w, x - m, w);
  }

  lemma SameSign(a: real, s: real, b: real, t: real)
    requires 0.0 < s && 0.0 < t && a * s == b * t
    ensures a < 0.0 <==> b < 0.0
  {
  }

  // ----- the shipped rules ----------------------------------------------------------------

  lemma ClassifiedValue(hit: RuleHit, ctx: Context)
    requires Mild(hit)
    ensures 0.0 <= Value(Classify(hit, ctx)) <= 18.0
  {
    hide InferDomain, Discount, Sensitivity, GroupId;
    var d := InferDomain(hit.scenario);
    var f, s, w := Discount(hit.scenario, d, ctx), Sensitivity(ctx.profile, d), ConfidenceWeight(hit.confidence);
    ShrinkProduct(hit.score, f, s, w, 18.0);
    assert Value(Classify(hit, ctx)) == hit.score * f * s * w;
  }

  lemma ShrinkProduct(x: real, f: real, s: real, w: real, bound: real)
    requires 0.0 <= x && 0.0 < f <= 1.0 && 0.0 < s <= 1.0 && 0.0 <= w && x * w <= bound
    ensures 0.0 <= x * f * s * w <= bound
  {
    assert 0.0 <= x * f <= x;
    assert 0.0 <= (x * f) * s <= x * f;
    assert 0.0 <= ((x * f) * s) * w <= x * w;
  }

  lemma {:induction false} FiredAreMild(table: seq<Rule>)
    requires forall i :: 0 <= i < |table| ==> Mild(table[i].hit)
    ensures forall i :: 0 <= i < |Fired(table)| ==> Mild(Fired(table)[i])
  {
    if table != [] {
      FiredAreMild(table[..|table| - 1]);
    }
  }

  lemma AllHitsAreMild(f: FeatureVector)
    ensures forall i :: 0 <= i < |AllHits(f)| ==> Mild(AllHits(f)[i])
  {
    FiredAreMild(LogonRules(f));
    FiredAreMild(FileRules(f));
    FiredAreMild(HttpRules(f));
    FiredAreMild(DeviceRules(f));
  }

  lemma GroupBound(ds: seq<Detection>, g: string)
    requires forall i :: 0 <= i < |ds| ==> 0.0 <= Value(ds[i]) <= 18.0
    ensures 0.0 <= ScoreOf(ds, g) <= 22.5
  {
    ScoreNonNegative(ds, g);
    MembersOf(ds, g);
    var vs := Values(Members(ds, g));
    forall i | 0 <= i < |vs| ensures vs[i] <= 18.0 {
      assert Members(ds, g)[i] in Members(ds, g);
    }
    SortCorrect(vs);
    SameElements(vs, SortDescending(vs));
    forall i | 0 <= i < |vs| ensures SortDescending(vs)[i] <= 18.0 {
      assert SortDescending(vs)[i] in SortDescending(vs);
    }
    DecaySumBound(SortDescending(vs), 18.0);
  }

  lemma SuperposeBound(p: map<Domain, real>, m: real)
    requires forall d :: d in p ==> 0.0 <= p[d] <= m
    requires 0.0 <= m < 35.0
    ensures Superpose(p) <= m && Bonus(p) == 0.0
  {
    WeightedAtMost(p, m);
    hide WeightedPeaks, TotalWeight;
    assert m * TotalWeight(p) <= m * Max(0.01, TotalWeight(p));
    DivideAtMost(WeightedPeaks(p), m, Max(0.01, TotalWeight(p)));
    assert forall d: Domain :: 0.0 <= PeakAt(p, d) <= m;
    OnePeak(p, m);
  }

  lemma OnePeak(p: map<Domain, real>, m: real)
    requires 0.0 <= m && forall d :: d in p ==> 0.0 <= p[d] <= m
    ensures ActiveCount(p) == 1 ==> PeakSum(p) <= m
  {
  }

  lemma WeightedAtMost(p: map<Domain, real>, m: real)
    requires forall d :: d in p ==> p[d] <= m
    ensures WeightedPeaks(p) <= m * TotalWeight(p)
  {
    forall d: Domain ensures PeakAt(p, d) * DomainWeight(d) <= m * ActiveWeight(p, d) {
      if d in p {
        assert (m - p[d]) * DomainWeight(d) >= 0.0;
      }
    }
    assert PeakAt(p, FileDomain) * DomainWeight(FileDomain) <= m * ActiveWeight(p, FileDomain);
    assert PeakAt(p, DeviceDomain) * DomainWeight(DeviceDomain) <= m * ActiveWeight(p, DeviceDomain);
    assert PeakAt(p, LogonDomain) * DomainWeight(LogonDomain) <= m * ActiveWeight(p, LogonDomain);
    assert PeakAt(p, HttpDomain) * DomainWeight(HttpDomain) <= m * ActiveWeight(p, HttpDomain);
    Distribute(m, ActiveWeight(p, FileDomain), ActiveWeight(p, DeviceDomain),
               ActiveWeight(p, LogonDomain), ActiveWeight(p, HttpDomain));
  }

  lemma Distribute(m: real, a: real, b: real, c: real, d: real)
    ensures m * (a + b + c + d) == m * a + m * b + m * c + m * d
  {
  }

  lemma DivideAtMost(n: real, m: real, d: real)
    requires 0.0 < d && n <= m * d
    ensures n / d <= m
  {
    var q := n / d;
    assert (m - q) * d >= 0.0;
  }

  // Over every feature vector, context and profile: every group of the shipped rules scores
  // at most 22.5, the bonus for diversity is never added, and the severity is always low.
  lemma ShippedRulesStayLow(f: FeatureVector, profile: string, benign: string -> bool)
    ensures var ds := ClassifyAll(AllHits(f), ContextOf(f, profile, benign));
            (forall g :: 0.0 <= ScoreOf(ds, g) <= 22.5) && Bonus(Peaks(ds)) == 0.0
    ensures 0.0 <= Evaluate(f, profile, benign).risk <= 22.5
    ensures Evaluate(f, profile, benign).severity == Low
  {
    hide ScoreOf, Value, AllHits, ContextOf, Groups, DomainOf;
    var ctx := ContextOf(f, profile, benign);
    var ds := ClassifyAll(AllHits(f), ctx);
    AllHitsAreMild(f);
    forall i | 0 <= i < |ds| ensures 0.0 <= Value(ds[i]) <= 18.0 {
      ClassifiedValue(AllHits(f)[i], ctx);
    }
    forall g ensures 0.0 <= ScoreOf(ds, g) <= 22.5 {
      GroupBound(ds, g);
    }
    forall d | d in Peaks(ds) ensures 0.0 <= Peaks(ds)[d] <= 22.5 {
      PeaksAreMaxima(Groups(ds), ds, d);
    }
    SuperposeBound(Peaks(ds), 22.5);
  }
}
