// The certainty-gated weighted mean of server/risk/aggregator.py: every detector's weight
// grows with its own score, and the weights are then normalised by their sum.
module RiskFusion {
  import opened Reals

  datatype Source = MlPipeline | ZScore | AuthBurst | Heuristics

  // One number per source: the `scores` and the `confidences` dictionaries, whose key sets
  // are fixed in the source.
  datatype Quad = Quad(ml: real, z: real, auth: real, heur: real) {
    function At(src: Source): real {
      match src
      case MlPipeline => ml
      case ZScore => z
      case AuthBurst => auth
      case Heuristics => heur
    }

    function With(src: Source, v: real): Quad {
      match src
      case MlPipeline => this.(ml := v)
      case ZScore => this.(z := v)
      case AuthBurst => this.(auth := v)
      case Heuristics => this.(heur := v)
    }
  }

  ghost predicate InRange(q: Quad, lo: real, hi: real) {
    forall src: Source :: lo <= q.At(src) <= hi
  }

  ghost predicate AtMost(a: Quad, b: Quad) {
    forall src: Source :: a.At(src) <= b.At(src)
  }

  // ----- the formula -------------------------------------------------------------------

  function BaseWeight(src: Source): real {
    match src
    case MlPipeline => 0.70
    case ZScore => 0.10
    case AuthBurst => 0.05
    case Heuristics => 0.15
  }

  // How far a score reaches above 40, as a fraction of the range up to 100.
  function Excess(s: real): real {
    (s - 40.0) / 60.0
  }

  function Lift(x: real, c: real): real {
    1.0 + 2.0 * (x * x) * c
  }

  function Boost(s: real, c: real): real {
    if s >= 40.0 then Lift(Excess(s), c) else 1.0
  }

  function Weight(src: Source, s: real, c: real): real {
    BaseWeight(src) * Boost(s, c)
  }

  function Weights(scores: Quad, confs: Quad): Quad {
    Quad(Weight(MlPipeline, scores.ml, confs.ml), Weight(ZScore, scores.z, confs.z),
         Weight(AuthBurst, scores.auth, confs.auth), Weight(Heuristics, scores.heur, confs.heur))
  }

  function Total(w: Quad): real {
    w.ml + w.z + w.auth + w.heur
  }

  function Dot(scores: Quad, w: Quad): real {
    scores.ml * w.ml + scores.z * w.z + scores.auth * w.auth + scores.heur * w.heur
  }

  function RawScore(scores: Quad, confs: Quad): real {
    var w := Weights(scores, confs);
    Dot(scores, w) / Max(0.001, Total(w))
  }

  // ----- products of reals -------------------------------------------------------------

  lemma Scale(a: real, b: real, k: real)
    requires a <= b && 0.0 <= k
    ensures a * k <= b * k && k * a <= k * b
  {
  }

  lemma NonNegativeProduct(x: real, k: real)
    requires 0.0 <= x && 0.0 <= k
    ensures 0.0 <= x * k
  {
  }

  lemma PositiveFactor(x: real, k: real)
    requires 0.0 < k && 0.0 <= x * k
    ensures 0.0 <= x
  {
  }

  lemma ScaleUp(a: real, b: real, u: real, v: real)
    requires 0.0 <= a <= b && 0.0 <= u <= v
    ensures 0.0 <= a * u <= b * v
  {
    Scale(0.0, a, u);
    Scale(a, b, u);
    Scale(u, v, b);
  }

  // ----- a single weight ---------------------------------------------------------------

  lemma ExcessBounds(s: real, t: real)
    requires 40.0 <= s <= t <= 100.0
    ensures 0.0 <= Excess(s) <= Excess(t) <= 1.0
    ensures 100.0 - s == 60.0 * (1.0 - Excess(s))
  {
  }

  lemma LiftMonotone(x: real, y: real, c: real)
    requires 0.0 <= x <= y <= 1.0 && 0.0 <= c <= 1.0
    ensures 1.0 <= Lift(x, c) <= Lift(y, c) <= 3.0
  {
    ScaleUp(x, y, x, y);
    ScaleUp(y, 1.0, y, 1.0);
    ScaleUp(x * x, y * y, c, c);
    ScaleUp(y * y, 1.0, c, 1.0);
    assert Lift(x, c) == 1.0 + 2.0 * ((x * x) * c);
    assert Lift(y, c) == 1.0 + 2.0 * ((y * y) * c);
  }

  lemma BoostMonotone(s: real, t: real, c: real)
    requires s <= t <= 100.0 && 0.0 <= c <= 1.0
    ensures 1.0 <= Boost(s, c) <= Boost(t, c) <= 3.0
  {
    if s >= 40.0 {
      ExcessBounds(s, t);
      LiftMonotone(Excess(s), Excess(t), c);
    } else if t >= 40.0 {
      ExcessBounds(t, t);
      LiftMonotone(Excess(t), Excess(t), c);
    }
  }

  lemma SquareNonNegative(x: real)
    ensures x * x >= 0.0
  {
  }

  // The slope of (1 - x)(1 + 2cx^2) between x and y is 2c * SlopePart - 1.
  function SlopePart(x: real, y: real): real {
    (x + y) - (x * x + x * y + y * y)
  }

  lemma SlopePartAtMostThird(x: real, y: real)
    ensures SlopePart(x, y) <= 1.0 / 3.0
  {
    var p, q, r := x + y - 2.0 / 3.0, x - 1.0 / 3.0, y - 1.0 / 3.0;
    SquareNonNegative(p);
    SquareNonNegative(q);
    SquareNonNegative(r);
    assert SlopePart(x, y) == 1.0 / 3.0 - (p * p + q * q + r * r) / 2.0;
  }

  lemma ResidualDifference(x: real, y: real, c: real)
    ensures (1.0 - x) * Lift(x, c) - (1.0 - y) * Lift(y, c)
         == (y - x) * (1.0 - 2.0 * (c * SlopePart(x, y)))
  {
    var x2, y2 := x * x, y * y;
    assert (1.0 - x) * Lift(x, c) == 1.0 - x + 2.0 * c * (x2 - x2 * x);
    assert (1.0 - y) * Lift(y, c) == 1.0 - y + 2.0 * c * (y2 - y2 * y);
    assert (y - x) * SlopePart(x, y) == (y2 - y2 * y) - (x2 - x2 * x);
    var d := (y2 - y2 * y) - (x2 - x2 * x);
    assert (y - x) * (2.0 * (c * SlopePart(x, y))) == 2.0 * c * ((y - x) * SlopePart(x, y)) == 2.0 * c * d;
  }

  lemma ThirdBound(k: real, c: real)
    requires k <= 1.0 / 3.0 && 0.0 <= c <= 1.0
    ensures 0.0 <= 1.0 - 2.0 * (c * k)
  {
    Scale(k, 1.0 / 3.0, c);
  }

  lemma ResidualOnUnit(x: real, y: real, c: real)
    requires 0.0 <= x <= y <= 1.0 && 0.0 <= c <= 1.0
    ensures (1.0 - x) * Lift(x, c) >= (1.0 - y) * Lift(y, c)
  {
    hide SlopePart, Lift;
    SlopePartAtMostThird(x, y);
    ThirdBound(SlopePart(x, y), c);
    ResidualDifference(x, y, c);
    NonNegativeProduct(y - x, 1.0 - 2.0 * (c * SlopePart(x, y)));
  }

  // The key fact behind monotonicity: (100 - s) * w(s) never rises on [0, 100].
  lemma ResidualNonIncreasing(s: real, t: real, c: real)
    requires 0.0 <= s <= t <= 100.0 && 0.0 <= c <= 1.0
    ensures (100.0 - s) * Boost(s, c) >= (100.0 - t) * Boost(t, c)
  {
    if s >= 40.0 {
      ResidualAboveForty(s, t, c);
    } else if t >= 40.0 {
      ResidualAboveForty(40.0, t, c);
      assert Excess(40.0) == 0.0;
    }
  }

  lemma ResidualAboveForty(s: real, t: real, c: real)
    requires 40.0 <= s <= t <= 100.0 && 0.0 <= c <= 1.0
    ensures (100.0 - s) * Boost(s, c) >= (100.0 - t) * Boost(t, c)
  {
    var x, y := Excess(s), Excess(t);
    ExcessBounds(s, t);
    ExcessBounds(t, t);
    ResidualOnUnit(x, y, c);
    hide Excess, Lift;
    Rescale(100.0 - s, 1.0 - x, Lift(x, c));
    Rescale(100.0 - t, 1.0 - y, Lift(y, c));
  }

  lemma Rescale(a: real, u: real, b: real)
    requires a == 60.0 * u
    ensures a * b == 60.0 * (u * b)
  {
  }

  // ----- the mean ----------------------------------------------------------------------

  lemma RaiseOneNumerators(a: real, b: real, s: real, t: real, ws: real, wt: real)
    ensures (a + t * wt) * (b + ws) - (a + s * ws) * (b + wt)
         == (100.0 * b - a) * (wt - ws) + b * ((100.0 - s) * ws - (100.0 - t) * wt)
          + (ws * wt) * (t - s)
  {
  }

  // Raising one score from s to t while the other sources contribute `a` to the numerator
  // and `b` to the denominator.
  lemma RaiseOneGap(a: real, b: real, s: real, t: real, ws: real, wt: real)
    requires 0.0 <= b && a <= 100.0 * b
    requires s <= t && 0.0 < ws <= wt
    requires (100.0 - s) * ws >= (100.0 - t) * wt
    ensures (a + s * ws) * (b + wt) <= (a + t * wt) * (b + ws)
  {
    var g1, g2, g3 := 100.0 * b - a, (100.0 - s) * ws - (100.0 - t) * wt, ws * wt;
    assert 0.0 <= g1 * (wt - ws) by { NonNegativeProduct(g1, wt - ws); }
    assert 0.0 <= b * g2 by { NonNegativeProduct(b, g2); }
    assert 0.0 <= g3 * (t - s) by {
      NonNegativeProduct(ws, wt);
      NonNegativeProduct(g3, t - s);
    }
    RaiseOneNumerators(a, b, s, t, ws, wt);
  }

  lemma RaiseOne(a: real, b: real, s: real, t: real, ws: real, wt: real)
    requires 0.0 <= b && a <= 100.0 * b
    requires s <= t && 0.0 < ws <= wt
    requires (100.0 - s) * ws >= (100.0 - t) * wt
    ensures (a + s * ws) / (b + ws) <= (a + t * wt) / (b + wt)
  {
    RaiseOneGap(a, b, s, t, ws, wt);
    CrossMultiply(a + s * ws, b + ws, a + t * wt, b + wt);
  }

  lemma CrossMultiply(n: real, d: real, n': real, d': real)
    requires d > 0.0 && d' > 0.0 && n * d' <= n' * d
    ensures n / d <= n' / d'
  {
    var q, q' := n / d, n' / d';
    CrossDifference(q, d, q', d');
    NonNegativeProduct(d, d');
    PositiveFactor(q' - q, d * d');
  }

  lemma CrossDifference(q: real, d: real, q': real, d': real)
    ensures (q' - q) * (d * d') == (q' * d') * d - (q * d) * d'
  {
  }

  lemma WeightBounds(scores: Quad, confs: Quad)
    requires InRange(scores, 0.0, 100.0) && InRange(confs, 0.0, 1.0)
    ensures forall src: Source :: Weights(scores, confs).At(src) >= BaseWeight(src)
    ensures Total(Weights(scores, confs)) >= 1.0
    ensures RawScore(scores, confs) == Dot(scores, Weights(scores, confs)) / Total(Weights(scores, confs))
  {
    var w := Weights(scores, confs);
    forall src: Source ensures w.At(src) >= BaseWeight(src) {
      assert scores.At(src) <= 100.0 && 0.0 <= confs.At(src) <= 1.0;
      BoostMonotone(scores.At(src), scores.At(src), confs.At(src));
      Scale(1.0, Boost(scores.At(src), confs.At(src)), BaseWeight(src));
    }
    assert w.At(MlPipeline) >= 0.70 && w.At(ZScore) >= 0.10;
    assert w.At(AuthBurst) >= 0.05 && w.At(Heuristics) >= 0.15;
  }

  lemma DivideBounds(lo: real, n: real, hi: real, d: real)
    requires d > 0.0 && lo * d <= n <= hi * d
    ensures lo <= n / d <= hi
  {
    var q := n / d;
    assert (q - lo) * d == q * d - lo * d;
    assert (hi - q) * d == hi * d - q * d;
    PositiveFactor(q - lo, d);
    PositiveFactor(hi - q, d);
  }

  lemma DotBetween(scores: Quad, w: Quad, lo: real, hi: real)
    requires InRange(scores, lo, hi) && forall src: Source :: 0.0 <= w.At(src)
    ensures lo * Total(w) <= Dot(scores, w) <= hi * Total(w)
  {
    assert lo <= scores.At(MlPipeline) <= hi && 0.0 <= w.At(MlPipeline);
    assert lo <= scores.At(ZScore) <= hi && 0.0 <= w.At(ZScore);
    assert lo <= scores.At(AuthBurst) <= hi && 0.0 <= w.At(AuthBurst);
    assert lo <= scores.At(Heuristics) <= hi && 0.0 <= w.At(Heuristics);
    FourTerms(lo, scores.ml, w.ml, scores.z, w.z, scores.auth, w.auth, scores.heur, w.heur);
    FourTerms(-hi, -scores.ml, w.ml, -scores.z, w.z, -scores.auth, w.auth, -scores.heur, w.heur);
  }

  lemma FourTerms(k: real, a: real, p: real, b: real, q: real, c: real, r: real, d: real, s: real)
    requires k <= a && k <= b && k <= c && k <= d
    requires 0.0 <= p && 0.0 <= q && 0.0 <= r && 0.0 <= s
    ensures k * (p + q + r + s) <= a * p + b * q + c * r + d * s
  {
    Scale(k, a, p);
    Scale(k, b, q);
    Scale(k, c, r);
    Scale(k, d, s);
  }

  // The fused score lies between any bounds that hold for all four detector scores, so
  // between the smallest and the largest of them.
  lemma RawScoreBetween(scores: Quad, confs: Quad, lo: real, hi: real)
    requires InRange(scores, 0.0, 100.0) && InRange(confs, 0.0, 1.0)
    requires InRange(scores, lo, hi)
    ensures lo <= RawScore(scores, confs) <= hi
  {
    hide Weights, Dot, Total, RawScore;
    WeightBounds(scores, confs);
    DotBetween(scores, Weights(scores, confs), lo, hi);
    DivideBounds(lo, Dot(scores, Weights(scores, confs)), hi, Total(Weights(scores, confs)));
  }

  lemma ScaleResidual(k: real, p: real, q: real, u: real, v: real)
    requires 0.0 < k && 0.0 < p <= q && v * q <= u * p
    ensures 0.0 < k * p <= k * q
    ensures v * (k * q) <= u * (k * p)
  {
    Scale(p, q, k);
    Scale(v * q, u * p, k);
  }

  lemma WeightResidual(src: Source, s: real, t: real, c: real)
    requires 0.0 <= s <= t <= 100.0 && 0.0 <= c <= 1.0
    ensures 0.0 < Weight(src, s, c) <= Weight(src, t, c)
    ensures (100.0 - s) * Weight(src, s, c) >= (100.0 - t) * Weight(src, t, c)
  {
    hide Boost;
    BoostMonotone(s, t, c);
    ResidualNonIncreasing(s, t, c);
    ScaleResidual(BaseWeight(src), Boost(s, c), Boost(t, c), 100.0 - s, 100.0 - t);
  }

  lemma SplitOff(scores: Quad, w: Quad, src: Source, t: real, w': real)
    ensures Total(w.With(src, w')) == Total(w.With(src, 0.0)) + w'
    ensures Dot(scores.With(src, t), w.With(src, w')) == Dot(scores, w.With(src, 0.0)) + t * w'
  {
  }

  lemma OthersPositive(w: Quad, src: Source)
    requires forall o: Source :: 0.0 < w.At(o)
    ensures forall o: Source :: 0.0 <= w.With(src, 0.0).At(o)
    ensures 0.0 <= Total(w.With(src, 0.0))
  {
    var others := w.With(src, 0.0);
    assert forall o: Source :: others.At(o) == if o == src then 0.0 else w.At(o);
    assert 0.0 <= others.At(MlPipeline) && 0.0 <= others.At(ZScore);
    assert 0.0 <= others.At(AuthBurst) && 0.0 <= others.At(Heuristics);
  }

  // A mean whose weight w(src) changes to w' together with the score it multiplies.
  lemma MeanRises(scores: Quad, w: Quad, src: Source, t: real, w': real)
    requires InRange(scores, 0.0, 100.0) && forall o: Source :: 0.0 < w.At(o)
    requires scores.At(src) <= t && w.At(src) <= w'
    requires (100.0 - scores.At(src)) * w.At(src) >= (100.0 - t) * w'
    ensures 0.0 < Total(w) && 0.0 < Total(w.With(src, w'))
    ensures Dot(scores, w) / Total(w) <= Dot(scores.With(src, t), w.With(src, w')) / Total(w.With(src, w'))
  {
    hide Dot, Total;
    OthersPositive(w, src);
    DotBetween(scores, w.With(src, 0.0), 0.0, 100.0);
    assert scores.With(src, scores.At(src)) == scores && w.With(src, w.At(src)) == w;
    SplitOff(scores, w, src, scores.At(src), w.At(src));
    SplitOff(scores, w, src, t, w');
    RaiseOne(Dot(scores, w.With(src, 0.0)), Total(w.With(src, 0.0)), scores.At(src), t, w.At(src), w');
  }

  // Raising the score of one source, whichever it is, to t.
  lemma RawScoreMonotoneInOne(scores: Quad, confs: Quad, src: Source, t: real)
    requires InRange(scores, 0.0, 100.0) && InRange(confs, 0.0, 1.0)
    requires scores.At(src) <= t <= 100.0
    ensures InRange(scores.With(src, t), 0.0, 100.0)
    ensures RawScore(scores, confs) <= RawScore(scores.With(src, t), confs)
  {
    hide Weight, Dot, Total, RawScore;
    assert 0.0 <= scores.At(src) && 0.0 <= confs.At(src) <= 1.0;
    var scores' := scores.With(src, t);
    assert forall o: Source :: scores'.At(o) == if o == src then t else scores.At(o);
    WeightBounds(scores, confs);
    WeightBounds(scores', confs);
    WeightResidual(src, scores.At(src), t, confs.At(src));
    MeanRises(scores, Weights(scores, confs), src, t, Weight(src, t, confs.At(src)));
    assert Weights(scores', confs) == Weights(scores, confs).With(src, Weight(src, t, confs.At(src)));
  }

  // More evidence from any set of detectors never lowers the fused score.
  lemma RawScoreMonotone(scores: Quad, scores': Quad, confs: Quad)
    requires InRange(scores, 0.0, 100.0) && InRange(scores', 0.0, 100.0)
    requires InRange(confs, 0.0, 1.0)
    requires AtMost(scores, scores')
    ensures RawScore(scores, confs) <= RawScore(scores', confs)
  {
    assert scores.At(MlPipeline) <= scores'.At(MlPipeline) <= 100.0;
    assert scores.At(ZScore) <= scores'.At(ZScore) <= 100.0;
    assert scores.At(AuthBurst) <= scores'.At(AuthBurst) <= 100.0;
    assert scores.At(Heuristics) <= scores'.At(Heuristics) <= 100.0;
    RawScoreMonotoneInOne(scores, confs, MlPipeline, scores'.ml);
    var s1 := scores.With(MlPipeline, scores'.ml);
    RawScoreMonotoneInOne(s1, confs, ZScore, scores'.z);
    var s2 := s1.With(ZScore, scores'.z);
    RawScoreMonotoneInOne(s2, confs, AuthBurst, scores'.auth);
    var s3 := s2.With(AuthBurst, scores'.auth);
    RawScoreMonotoneInOne(s3, confs, Heuristics, scores'.heur);
    assert s3.With(Heuristics, scores'.heur) == scores';
  }

  // How much the other sources pull the mean away from the heuristic score.
  function PullOnHeuristics(scores: Quad, w: Quad): real {
    w.ml * (scores.ml - scores.heur) + w.z * (scores.z - scores.heur) + w.auth * (scores.auth - scores.heur)
  }

  lemma DotFrom(scores: Quad, w: Quad)
    ensures Dot(scores, w) == scores.heur * Total(w) + PullOnHeuristics(scores, w)
  {
  }

  lemma QuotientAtLeast(n: real, d: real, h: real, x: real)
    requires 1.0 <= d && n == h * d + x
    ensures n / d >= h <==> x >= 0.0
  {
    var q := n / d;
    assert q * d == n && (q - h) * d == x;
    if q >= h {
      NonNegativeProduct(q - h, d);
    }
    if x >= 0.0 {
      PositiveFactor(q - h, d);
    }
  }

  // The guide to the pipeline calls the heuristic score a floor of the composite. The code averages
  // it: the composite is at least the heuristic score if and only if the other sources, each with
  // its weight, lie above it on balance.
  lemma HeuristicFloorIff(scores: Quad, confs: Quad)
    requires InRange(scores, 0.0, 100.0) && InRange(confs, 0.0, 1.0)
    ensures RawScore(scores, confs) >= scores.heur <==> PullOnHeuristics(scores, Weights(scores, confs)) >= 0.0
  {
    hide Dot, Total, Weights, PullOnHeuristics;
    var w := Weights(scores, confs);
    WeightBounds(scores, confs);
    DotFrom(scores, w);
    QuotientAtLeast(Dot(scores, w), Total(w), scores.heur, PullOnHeuristics(scores, w));
  }

  // Alone, with every other source silent, a heuristic score above 0 is never reached.
  lemma AloneIsDiluted(heur: real, confs: Quad)
    requires 0.0 < heur <= 100.0 && InRange(confs, 0.0, 1.0)
    ensures RawScore(Quad(0.0, 0.0, 0.0, heur), confs) < heur
  {
    var scores := Quad(0.0, 0.0, 0.0, heur);
    assert forall src: Source :: 0.0 <= scores.At(src) <= 100.0;
    HeuristicFloorIff(scores, confs);
    var w := Weights(scores, confs);
    assert Excess(0.0) < 0.0 && w.ml == 0.70 && w.z == 0.10 && w.auth == 0.05;
    assert PullOnHeuristics(scores, w) == -0.85 * heur;
  }
}
