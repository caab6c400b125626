// server/model_bridge.py, process_payload: aggregate the detector results, feed the baseline
// unless the payload looks malicious, save the risk event. Saved events are the history that
// later payloads of the same user are smoothed against.
module ModelBridge {
  import opened Reals
  import opened Text
  import opened HeuristicRules
  import opened RiskFusion
  import opened RiskAggregator
  import opened RiskTheorems
  import Heuristics
  import HeuristicTheorems

  datatype Event = Event(user: string, time: int, score: real, level: RiskLevel)

  // A payload without activity is only recorded; `saved` says whether storing its risk event
  // succeeded, since a failure there is swallowed.
  datatype Payload =
    | Idle(user: string, time: int, saved: bool)
    | Active(user: string, time: int, results: seq<DetectorResult>, features: FeatureVector, saved: bool)

  const WINDOW_SECONDS := 4 * 3600

  // SELECT MAX(risk_score) over the events of a user since a point in time; 0 if there are none.
  function WindowMax(events: seq<Event>, user: string, since: int): real {
    if events == [] then 0.0
    else
      var e := events[|events| - 1];
      var m := WindowMax(events[..|events| - 1], user, since);
      if e.user == user && e.time >= since then Max(m, e.score) else m
  }

  function Past(events: seq<Event>, user: string, now: int): Option<real> {
    if user == "" then None else Some(WindowMax(events, user, now - WINDOW_SECONDS))
  }

  function EvidenceFor(p: Payload, benign: string -> bool): Evidence
    requires p.Active?
  {
    if p.results == [] && p.features == FeatureVector(map[], map[]) then Evidence(0.0, false, [])
    else EvidenceOf(p.results, p.features.numbers, Heuristics.Evaluate(p.features, "", benign))
  }

  function Outcome(events: seq<Event>, p: Payload, benign: string -> bool): Assessment
    requires p.Active?
  {
    if p.results == [] && p.features == FeatureVector(map[], map[]) then NO_DETECTORS
    else Assess(EvidenceFor(p, benign), Past(events, p.user, p.time))
  }

  function EventOf(events: seq<Event>, p: Payload, benign: string -> bool): Event {
    match p
    case Idle(user, time, _) => Event(user, time, 0.0, LowRisk)
    case Active(user, time, _, _, _) =>
      var a := Outcome(events, p, benign);
      Event(user, time, a.score, a.level)
  }

  // The history after a run from empty storage.
  function History(ps: seq<Payload>, benign: string -> bool): seq<Event> {
    if ps == [] then []
    else
      var before, p := History(ps[..|ps| - 1], benign), ps[|ps| - 1];
      if p.saved then before + [EventOf(before, p, benign)] else before
  }

  // What the baseline may learn from a payload: the model's columns it really supplied.
  function Supplied(mapped: map<string, Option<real>>, columns: set<string>): map<string, real> {
    map k | k in columns && k in mapped && mapped[k].Some? :: mapped[k].value
  }

  class Bridge {
    const benign: string -> bool
    const columns: set<string>
    // The table of alternative feature names, applied to one payload's features.
    const canonical: map<string, Option<real>> -> map<string, Option<real>>
    var events: seq<Event>
    // The features handed to the baseline engine, with their owners.
    var learned: seq<(string, map<string, real>)>

    constructor (benign: string -> bool, columns: set<string>, canonical: map<string, Option<real>> -> map<string, Option<real>>)
      ensures this.benign == benign && this.columns == columns && this.canonical == canonical && events == [] && learned == []
    {
      this.benign, this.columns, this.canonical := benign, columns, canonical;
      events, learned := [], [];
    }

    // Every column gets a number; the ones the payload does not supply are 0 and listed.
    method OrderedFeatures(mapped: map<string, Option<real>>) returns (ordered: map<string, real>, missing: set<string>)
      ensures ordered.Keys == columns && missing == columns - Supplied(mapped, columns).Keys
      ensures forall k :: k in columns ==> ordered[k] == if k in missing then 0.0 else Supplied(mapped, columns)[k]
    {
      missing := set k | k in columns && (k !in mapped || mapped[k].None?);
      ordered := map k | k in columns :: if k in missing then 0.0 else mapped[k].value;
    }

    method ProcessPayload(p: Payload) returns (score: real)
      modifies this
      ensures events == old(events) + if p.saved then [EventOf(old(events), p, benign)] else []
      ensures score == EventOf(old(events), p, benign).score
      ensures learned == old(learned) +
        if p.Active? && EventOf(old(events), p, benign).level !in {CriticalRisk, HighRisk} then
          [(p.user, Supplied(canonical(p.features.numbers), columns))]
        else []
    {
      hide Assess, EvidenceOf, Heuristics.Evaluate, Past;
      match p {
        case Idle(user, time, saved) =>
          score := 0.0;
          if saved {
            events := events + [Event(user, time, 0.0, LowRisk)];
          }
        case Active(user, time, results, features, saved) =>
          var a := AggregateDetectors(results, Past(events, user, time), features, benign);
          score := a.score;
          if a.level != CriticalRisk && a.level != HighRisk {
            var ordered, missing := OrderedFeatures(canonical(features.numbers));
            learned := learned + [(user, map k | k in ordered && k !in missing :: ordered[k])];
            assert (map k | k in ordered && k !in missing :: ordered[k]) == Supplied(canonical(features.numbers), columns);
          }
          if saved && a.score >= 0.0 {
            events := events + [Event(user, time, a.score, a.level)];
          }
      }
    }
  }

  // ----- runs of any length ------------------------------------------------------------

  ghost predicate Bounded(p: Payload, benign: string -> bool, b: real) {
    p.Active? ==> WellScored(p.results) && EvidenceFor(p, benign).raw <= b
  }

  lemma {:induction false} WindowMaxBounds(events: seq<Event>, user: string, since: int, b: real)
    requires 0.0 <= b && forall i :: 0 <= i < |events| ==> events[i].score <= b
    ensures 0.0 <= WindowMax(events, user, since) <= b
  {
    if events != [] {
      WindowMaxBounds(events[..|events| - 1], user, since, b);
    }
  }

  // It is the largest score of the user's events from then on, or 0 if there is none above it.
  lemma {:induction false} WindowMaxExactly(events: seq<Event>, user: string, since: int)
    ensures 0.0 <= WindowMax(events, user, since)
    ensures forall i :: 0 <= i < |events| && events[i].user == user && since <= events[i].time ==>
      events[i].score <= WindowMax(events, user, since)
    ensures WindowMax(events, user, since) > 0.0 ==>
      exists i :: 0 <= i < |events| && events[i].user == user && since <= events[i].time
               && events[i].score == WindowMax(events, user, since)
  {
    if events != [] {
      WindowMaxExactly(events[..|events| - 1], user, since);
    }
  }

  // The history a payload meets: the largest score its user had within four hours.
  lemma PastInNumbers(events: seq<Event>, user: string, now: int)
    ensures Past(events, "", now) == None
    ensures user != "" ==> Past(events, user, now) == Some(WindowMax(events, user, now - 14400))
  {
  }

  lemma EvidenceInRange(p: Payload, benign: string -> bool)
    requires p.Active? && WellScored(p.results)
    ensures 0.0 <= EvidenceFor(p, benign).raw <= 100.0
  {
    hide Heuristics.Evaluate, EvidenceOf;
    HeuristicTheorems.ShippedRulesStayLow(p.features, "", benign);
    RawInRange(p.results, p.features.numbers, Heuristics.Evaluate(p.features, "", benign));
  }

  lemma SmoothingBounded(e: Evidence, past: Option<real>, b: real)
    requires 0.0 <= e.raw <= b && (past.Some? ==> past.value <= b)
    ensures 0.0 <= Assess(e, past).score <= b
  {
  }

  lemma OneStepBounded(events: seq<Event>, p: Payload, benign: string -> bool, b: real)
    requires 0.0 <= b && Bounded(p, benign, b)
    requires forall i :: 0 <= i < |events| ==> events[i].score <= b
    ensures 0.0 <= EventOf(events, p, benign).score <= b
  {
    if p.Active? {
      hide EvidenceFor, Assess;
      EvidenceInRange(p, benign);
      WindowMaxBounds(events, p.user, p.time - WINDOW_SECONDS, b);
      SmoothingBounded(EvidenceFor(p, benign), Past(events, p.user, p.time), b);
    }
  }

  // Feedback never amplifies: if every raw score of a run is at most b, so is every score
  // that is ever saved.
  lemma {:induction false} FeedbackNeverAmplifies(ps: seq<Payload>, benign: string -> bool, b: real)
    requires 0.0 <= b && forall i :: 0 <= i < |ps| ==> Bounded(ps[i], benign, b)
    ensures forall i :: 0 <= i < |History(ps, benign)| ==> 0.0 <= History(ps, benign)[i].score <= b
  {
    if ps != [] {
      FeedbackNeverAmplifies(ps[..|ps| - 1], benign, b);
      OneStepBounded(History(ps[..|ps| - 1], benign), ps[|ps| - 1], benign, b);
    }
  }

  ghost predicate Explains(p: Payload, e: Event, benign: string -> bool) {
    p.Active? && p.user == e.user && p.time == e.time && EvidenceFor(p, benign).corroborated
  }

  lemma AlarmExplained(events: seq<Event>, p: Payload, benign: string -> bool)
    ensures EventOf(events, p, benign).level != LowRisk ==> Explains(p, EventOf(events, p, benign), benign)
  {
    hide EvidenceFor;
  }

  // Every saved level above low goes back to a payload that was corroborated by itself,
  // whatever the history.
  lemma {:induction false} AlarmsAreCorroborated(ps: seq<Payload>, benign: string -> bool)
    ensures forall i :: 0 <= i < |History(ps, benign)| && History(ps, benign)[i].level != LowRisk ==>
      exists k :: 0 <= k < |ps| && Explains(ps[k], History(ps, benign)[i], benign)
  {
    hide EventOf, Explains;
    if ps != [] {
      var front, p := ps[..|ps| - 1], ps[|ps| - 1];
      var before, all := History(front, benign), History(ps, benign);
      AlarmsAreCorroborated(front, benign);
      AlarmExplained(before, p, benign);
      forall i | 0 <= i < |all| && all[i].level != LowRisk
        ensures exists k :: 0 <= k < |ps| && Explains(ps[k], all[i], benign)
      {
        if i < |before| {
          var k :| 0 <= k < |front| && Explains(front[k], before[i], benign);
          assert ps[k] == front[k];
        } else {
          assert Explains(ps[|ps| - 1], all[i], benign);
        }
      }
    }
  }
}
