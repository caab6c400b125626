// ZScoreDetector.detect of server/detectors/zscore_detector.py: upward spikes against a profile.
module ZScore {
  import opened Reals
  import opened Text
  import opened Baseline
  import BaselineTheorems

  // `peak` is the largest spike found, 0 if none is positive; `top` its feature.
  datatype Result = Result(score: real, confidence: real, isAnomaly: bool, contributions: map<string, real>, peak: real, top: string)

  const NO_BASELINE := Result(0.0, 0.0, false, map[], 0.0, "")

  function EffectiveStd(p: Profile, f: string): (r: real)
    ensures r >= 10.0
  {
    Max(Max(Value(p.stds, f, 10.0), 10.0), Abs(Value(p.means, f, 0.0)) * 0.25)
  }

  function Z(p: Profile, f: string, value: real): real {
    (value - Value(p.means, f, 0.0)) / EffectiveStd(p, f)
  }

  predicate IsMeasure(f: string) {
    !EndsWith(f, "_status") && !EndsWith(f, "_flag")
  }

  predicate Spikes(p: Profile, features: map<string, real>, threshold: real, f: string) {
    f in features && IsMeasure(f) && Z(p, f, features[f]) > threshold
  }

  ghost predicate IsPeak(contributions: map<string, real>, peak: real) {
    && peak >= 0.0
    && (forall f :: f in contributions ==> contributions[f] <= peak)
    && (peak > 0.0 ==> exists f :: f in contributions && contributions[f] == peak)
  }

  class ZScoreDetector {
    const threshold: real

    constructor (calibration: real, sensitivity: real)
      ensures threshold == calibration * sensitivity
    {
      threshold := calibration * sensitivity;
    }

    method Detect(features: map<string, real>, baseline: Option<Profile>) returns (r: Result)
      ensures baseline == None ==> r == NO_BASELINE
      ensures baseline.Some? ==> forall f :: f in r.contributions <==> Spikes(baseline.value, features, threshold, f)
      ensures baseline.Some? ==>
        forall f :: f in r.contributions && f in features ==> r.contributions[f] == Z(baseline.value, f, features[f])
      ensures IsPeak(r.contributions, r.peak)
      ensures r.peak > 0.0 ==> r.top in r.contributions && r.contributions[r.top] == r.peak
      ensures baseline.Some? ==> (r.isAnomaly <==> r.peak > threshold)
      ensures r.score == if !r.isAnomaly then 0.0 else if r.peak * 5.0 < 100.0 then r.peak * 5.0 else 100.0
      ensures baseline.Some? ==> 0.0 < r.confidence <= 1.0
      ensures baseline.Some? && 0 < baseline.value.samples < 14 ==> r.confidence * 14.0 == baseline.value.samples as real
    {
      if baseline == None {
        return NO_BASELINE;
      }
      var p := baseline.value;
      var confidence := Confidence(p.samples);
      var contributions: map<string, real>, peak, top := map[], 0.0, "";
      var rest := features.Keys;
      while rest != {}
        invariant rest <= features.Keys
        invariant forall f :: f in contributions <==> f !in rest && Spikes(p, features, threshold, f)
        invariant forall f :: f in contributions ==> contributions[f] == Z(p, f, features[f])
        invariant IsPeak(contributions, peak)
        invariant peak > 0.0 ==> top in contributions && contributions[top] == peak
        decreases rest
      {
        SomeKey(rest);
        var f :| f in rest;
        rest := rest - {f};
        if EndsWith(f, "_status") || EndsWith(f, "_flag") {
          continue;
        }
        var z := ZOf(p, f, features[f]);
        if z > threshold {
          PeakAfter(contributions, peak, f, z);
          contributions := contributions[f := z];
          if z > peak {
            peak, top := z, f;
          }
        }
      }
      var isAnomaly := peak > threshold;
      var score := if !isAnomaly then 0.0 else if peak * 5.0 < 100.0 then peak * 5.0 else 100.0;
      r := Result(score, confidence, isAnomaly, contributions, peak, top);
    }

    method ZOf(p: Profile, f: string, value: real) returns (z: real)
      ensures z == Z(p, f, value)
    {
      var mean := if f in p.means then p.means[f] else 0.0;
      var std := Max(Max(if f in p.stds then p.stds[f] else 10.0, 10.0), Abs(mean) * 0.25);
      z := (value - mean) / std;
    }
  }

  function Confidence(samples: nat): (r: real)
    ensures 0.0 < r <= 1.0
    ensures 0 < samples < 14 ==> r * 14.0 == samples as real
    ensures samples >= 14 ==> r == 1.0
  {
    if samples == 0 then 0.1 else if samples < 14 then samples as real / 14.0 else 1.0
  }

  lemma PeakAfter(contributions: map<string, real>, peak: real, f: string, z: real)
    requires IsPeak(contributions, peak) && f !in contributions
    ensures IsPeak(contributions[f := z], if z > peak then z else peak)
  {
    var more := contributions[f := z];
    assert f in more && more[f] == z;
    if !(z > peak) && peak > 0.0 {
      var g :| g in contributions && contributions[g] == peak;
      assert g in more && more[g] == peak;
    }
  }

  // ----- what the verdict means ---------------------------------------------------------------------

  // A detection on this profile, as far as the verdict goes.
  ghost predicate Verdict(p: Profile, features: map<string, real>, threshold: real, r: Result) {
    && (forall f :: f in r.contributions <==> Spikes(p, features, threshold, f))
    && (forall f :: f in r.contributions ==> r.contributions[f] == Z(p, f, features[f]))
    && IsPeak(r.contributions, r.peak)
    && (r.isAnomaly <==> r.peak > threshold)
    && r.score == if !r.isAnomaly then 0.0 else if r.peak * 5.0 < 100.0 then r.peak * 5.0 else 100.0
  }

  // With a threshold of at least 0 a payload is anomalous exactly if some feature spikes; below 0
  // every payload is anomalous, whatever it holds.
  lemma AnomalousExactly(p: Profile, features: map<string, real>, threshold: real, r: Result)
    requires Verdict(p, features, threshold, r)
    ensures threshold >= 0.0 ==> (r.isAnomaly <==> exists f :: Spikes(p, features, threshold, f))
    ensures threshold < 0.0 ==> r.isAnomaly
    ensures 0.0 <= r.score <= 100.0
  {
    hide Spikes, Z;
    if threshold >= 0.0 && r.isAnomaly {
      var f :| f in r.contributions && r.contributions[f] == r.peak;
      assert Spikes(p, features, threshold, f);
    }
    if f :| threshold >= 0.0 && Spikes(p, features, threshold, f) {
      assert f in r.contributions;
      SpikeIsAbove(p, features, threshold, f);
    }
  }

  lemma SpikeIsAbove(p: Profile, features: map<string, real>, threshold: real, f: string)
    requires Spikes(p, features, threshold, f)
    ensures Z(p, f, features[f]) > threshold
  {
  }

  lemma ZMonotone(p: Profile, f: string, low: real, high: real)
    requires low <= high
    ensures Z(p, f, low) <= Z(p, f, high)
  {
    var d := EffectiveStd(p, f);
    var a, b := low - Value(p.means, f, 0.0), high - Value(p.means, f, 0.0);
    Quotients(a, b, d);
  }

  lemma Quotients(a: real, b: real, d: real)
    requires a <= b && d >= 10.0
    ensures a / d <= b / d
  {
    assert b / d - a / d == (b - a) / d;
  }

  // Raising feature values, or reporting more features, never lowers the score.
  lemma HigherValuesScoreHigher(p: Profile, low: map<string, real>, high: map<string, real>, threshold: real, r: Result, q: Result)
    requires Verdict(p, low, threshold, r) && Verdict(p, high, threshold, q)
    requires forall f :: f in low ==> f in high && low[f] <= high[f]
    ensures r.score <= q.score && (r.isAnomaly ==> q.isAnomaly)
  {
    hide Z;
    if r.peak > 0.0 {
      var f :| f in r.contributions && r.contributions[f] == r.peak;
      assert Spikes(p, low, threshold, f);
      ZMonotone(p, f, low[f], high[f]);
      assert Spikes(p, high, threshold, f);
      assert f in q.contributions;
    }
  }

  // For every profile the baseline engine can have stored, the detector's own floor changes nothing.
  lemma FloorIsAlreadyThere(run: seq<Update>, decay: real, e: string, f: string)
    requires f in Load(History(run, decay), e).means
    ensures var p := Load(History(run, decay), e); f in p.stds && EffectiveStd(p, f) == p.stds[f]
  {
    hide History, Load, Abs;
    BaselineTheorems.StdsAndCounts(run, decay, e, f);
  }

  // For such profiles a learned feature counts its distance in learned deviations, which are at least
  // 10, and one that was never learned a tenth of its value.
  lemma ZInNumbers(run: seq<Update>, decay: real, e: string, f: string, value: real)
    ensures var p := Load(History(run, decay), e);
      Z(p, f, value) == if f in p.means && f in p.stds && p.stds[f] >= 10.0 then (value - p.means[f]) / p.stds[f] else value / 10.0
  {
    hide History, Load, Abs;
    var p := Load(History(run, decay), e);
    BaselineTheorems.StdsAndCounts(run, decay, e, f);
    if f in p.means {
      FloorIsAlreadyThere(run, decay, e, f);
    } else {
      assert Value(p.means, f, 0.0) == 0.0 && Abs(0.0) == 0.0;
    }
  }

  // Status and flag features never spike.
  lemma FlagsNeverSpike(p: Profile, features: map<string, real>, threshold: real, f: string)
    ensures !Spikes(p, features, threshold, f + "_status") && !Spikes(p, features, threshold, f + "_flag")
  {
    assert (f + "_status")[|f|..] == "_status" && (f + "_flag")[|f|..] == "_flag";
  }
}
