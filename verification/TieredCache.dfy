// TieredCache and Redis7CacheProvider of server/api/cache.py: every replica keeps its own
// in-process dictionary in front of one shared Redis, and copies Redis hits back into it for
// up to three seconds.
module TieredCache {
  import opened Reals
  import opened Text
  import opened LruCache

  const NAMESPACE := "insiedr:cache:"

  // The name under which Redis stores a key.
  function Stored(key: string): string {
    if NAMESPACE <= key then key else NAMESPACE + key
  }

  // Whole seconds, at least one.
  function Lifetime(ttl: real): (seconds: real)
    ensures seconds >= 1.0
    ensures ttl - 1.0 < seconds && (ttl >= 1.0 ==> seconds <= ttl)
  {
    if ttl.Floor > 1 then ttl.Floor as real else 1.0
  }

  function BackfillTtl(defaultTtl: real): real {
    if defaultTtl < 3.0 then defaultTtl else 3.0
  }

  datatype Held<V> = Held(value: V, expiry: real)

  function Remote<V>(l2: map<string, Held<V>>, key: string, now: real): Option<V> {
    if Stored(key) in l2 && now <= l2[Stored(key)].expiry then Some(l2[Stored(key)].value) else None
  }

  function RemoteSet<V>(l2: map<string, Held<V>>, key: string, value: V, ttl: real, now: real): map<string, Held<V>> {
    l2[Stored(key) := Held(value, now + Lifetime(ttl))]
  }

  function LocalSet<V(!new)>(store: seq<Entry<V>>, key: string, value: V, ttl: real, now: real, maxItems: int): seq<Entry<V>> {
    Step(store, Op.Set(key, value, now + ttl), maxItems)
  }

  // Two keys share a Redis entry exactly when one is the other with the namespace spelled out.
  lemma StoredCollides(a: string, b: string)
    ensures Stored(a) == Stored(b) <==>
      a == b || (a == NAMESPACE + b && !(NAMESPACE <= b)) || (b == NAMESPACE + a && !(NAMESPACE <= a))
  {
    if !(NAMESPACE <= a) && !(NAMESPACE <= b) && Stored(a) == Stored(b) {
      assert a == Stored(a)[|NAMESPACE|..] == Stored(b)[|NAMESPACE|..] == b;
    }
  }

  // ----- one replica's calls ------------------------------------------------------------------

  class Redis7CacheProvider<V(==, !new)> {
    const defaultTtl: real
    const connected: bool
    var store: map<string, Held<V>>

    constructor (defaultTtl: real, connected: bool)
      ensures this.defaultTtl == defaultTtl && this.connected == connected && store == map[]
    {
      this.defaultTtl, this.connected := defaultTtl, connected;
      store := map[];
    }

    // `answers`: the command reached Redis and came back.
    method Get(key: string, now: real, answers: bool) returns (value: Option<V>)
      ensures value == if connected && answers then Remote(store, key, now) else None
    {
      if !connected || !answers {
        return None;
      }
      var name := Stored(key);
      if name in store && now <= store[name].expiry {
        return Some(store[name].value);
      }
      value := None;
    }

    method Set(key: string, value: V, ttl: Option<real>, now: real, answers: bool)
      modifies this
      ensures store == if connected && answers
        then RemoteSet(old(store), key, value, if ttl.Some? then ttl.value else defaultTtl, now) else old(store)
    {
      if !connected || !answers {
        return;
      }
      var seconds := (if ttl.Some? then ttl.value else defaultTtl).Floor;
      if seconds < 1 {
        seconds := 1;
      }
      store := store[Stored(key) := Held(value, now + seconds as real)];
    }

    method Invalidate(key: string, answers: bool)
      modifies this
      ensures store == if connected && answers then old(store) - {Stored(key)} else old(store)
    {
      if connected && answers {
        store := store - {Stored(key)};
      }
    }
  }

  class TieredCache<V(==, !new)> {
    const defaultTtl: real
    const l1: InMemoryCacheProvider<V>
    const l2: Redis7CacheProvider?<V>

    constructor (l2: Redis7CacheProvider?<V>, defaultTtl: real, maxItems: int)
      ensures this.l2 == l2 && this.defaultTtl == defaultTtl && fresh(l1)
      ensures l1.store == [] && l1.maxItems == maxItems && l1.defaultTtl == defaultTtl
    {
      this.l2, this.defaultTtl := l2, defaultTtl;
      this.l1 := new InMemoryCacheProvider(defaultTtl, maxItems);
    }

    // What Redis answers, if it is there, alive, and reached.
    ghost function Shared(key: string, now: real, alive: bool, answers: bool): Option<V>
      reads l2
    {
      if l2 != null && l2.connected && alive && answers then Remote(l2.store, key, now) else None
    }

    // `alive`: the ping in front of the Redis command succeeded; `later`: the clock when a hit
    // is copied into the local dictionary.
    method Get(key: string, now: real, later: real, alive: bool, answers: bool) returns (value: Option<V>, raised: bool)
      modifies l1
      ensures var local := Step(old(l1.store), Op<V>.Get(key, now), l1.maxItems);
        if Answer(old(l1.store), key, now).Some? then
          value == Answer(old(l1.store), key, now) && !raised && l1.store == local
        else if Shared(key, now, alive, answers) == None then
          value == None && !raised && l1.store == local
        else
          var copied := Shared(key, now, alive, answers).value;
          && l1.store == LocalSet(local, key, copied, BackfillTtl(defaultTtl), later, l1.maxItems)
          && (!raised ==> value == Some(copied)) && (l1.maxItems > 0 ==> !raised)
          && (!raised ==> l1.store != [] && CopiedFor(l1.store[|l1.store| - 1], key, copied, later, defaultTtl))
    {
      raised := false;
      value := l1.Get(key, now);
      if value.Some? {
        return;
      }
      if l2 != null && alive {
        value := l2.Get(key, now, answers);
        if value.Some? {
          var short := if defaultTtl < 3.0 then defaultTtl else 3.0;
          raised := l1.Set(key, value.value, Some(short), later);
        }
      }
    }

    method Set(key: string, value: V, ttl: Option<real>, now: real, later: real, alive: bool, answers: bool)
      returns (raised: bool)
      modifies l1, l2
      ensures var actual := if ttl.Some? then ttl.value else defaultTtl;
        && l1.store == LocalSet(old(l1.store), key, value, actual, now, l1.maxItems)
        && (l2 != null ==>
              l2.store == if !raised && l2.connected && alive && answers
                then RemoteSet(old(l2.store), key, value, actual, later) else old(l2.store))
      ensures raised <==> old(l1.store) == [] && l1.maxItems <= 0
    {
      var actual := if ttl.Some? then ttl.value else defaultTtl;
      raised := l1.Set(key, value, Some(actual), now);
      if raised {
        return;
      }
      if l2 != null && alive {
        l2.Set(key, value, Some(actual), later, answers);
      }
    }

    method Invalidate(key: string, alive: bool, answers: bool)
      modifies l1, l2
      ensures l1.store == Step(old(l1.store), Op<V>.Invalidate(key), l1.maxItems)
      ensures l2 != null ==>
        l2.store == if l2.connected && alive && answers then old(l2.store) - {Stored(key)} else old(l2.store)
    {
      l1.Invalidate(key);
      if l2 != null && alive {
        l2.Invalidate(key, answers);
      }
    }
  }

  // A copy lives for three seconds, or for the default lifetime where that is shorter.
  ghost predicate CopiedFor<V(!new)>(e: Entry<V>, key: string, value: V, at: real, defaultTtl: real) {
    && e.key == key && e.value == value
    && e.expiry <= at + 3.0 && e.expiry <= at + defaultTtl
    && (e.expiry == at + 3.0 || e.expiry == at + defaultTtl)
  }

  // ----- many replicas, every tier access a step of its own -------------------------------------

  // A get that has read Redis and not yet copied the value into its replica.
  datatype Flight<V> = Flight(replica: nat, key: string, value: V, readAt: real)

  datatype Event<!V> =
    | L1Set(replica: nat, key: string, value: V, ttl: real, start: real, at: real)
    | L2Set(key: string, value: V, ttl: real, start: real, at: real)
    | L1Op(replica: nat, op: Op<V>, at: real)
    | L2Get(replica: nat, key: string, at: real)
    | Backfill(flight: Flight<V>, at: real)
    | L2Delete(names: set<string>, at: real)

  // `delay`: the longest a get may take from its Redis read to its return; `setDelay`: the
  // longest a set may take from its call to its write of either tier.
  datatype Config = Config(defaultTtl: real, maxItems: int, delay: real, setDelay: real)

  datatype State<V(==)> = State(l1: map<nat, seq<Entry<V>>>, l2: map<string, Held<V>>, flights: set<Flight<V>>, clock: real)

  ghost function Store<V(!new)>(s: State<V>, replica: nat): seq<Entry<V>> {
    if replica in s.l1 then s.l1[replica] else []
  }

  ghost predicate Enabled<V(!new)>(s: State<V>, ev: Event<V>, c: Config) {
    && s.clock <= ev.at
    && (ev.L1Set? || ev.L2Set? ==> ev.start <= ev.at <= ev.start + c.setDelay)
    && (ev.L1Op? ==> !ev.op.Set? && (ev.op.Get? ==> ev.op.now == ev.at))
    && (ev.Backfill? ==> ev.flight in s.flights && ev.at <= ev.flight.readAt + c.delay)
  }

  ghost function Next<V(!new)>(s: State<V>, ev: Event<V>, c: Config): State<V> {
    var t := s.(clock := ev.at);
    match ev
    case L1Set(r, key, value, ttl, _, at) => t.(l1 := s.l1[r := LocalSet(Store(s, r), key, value, ttl, at, c.maxItems)])
    case L2Set(key, value, ttl, _, at) => t.(l2 := RemoteSet(s.l2, key, value, ttl, at))
    case L1Op(r, op, at) => t.(l1 := s.l1[r := Step(Store(s, r), op, c.maxItems)])
    case L2Get(r, key, at) =>
      var hit := Remote(s.l2, key, at);
      if hit.Some? then t.(flights := s.flights + {Flight(r, key, hit.value, at)}) else t
    case Backfill(f, at) =>
      t.(l1 := s.l1[f.replica := LocalSet(Store(s, f.replica), f.key, f.value, BackfillTtl(c.defaultTtl), at, c.maxItems)],
         flights := s.flights - {f})
    case L2Delete(names, at) => t.(l2 := s.l2 - names)
  }

  // What a step hands to the caller of get: a local hit, or the Redis value just copied.
  ghost function Returned<V(!new)>(s: State<V>, ev: Event<V>): Option<(string, V)> {
    if ev.L1Op? && ev.op.Get? && Answer(Store(s, ev.replica), ev.op.key, ev.op.now).Some? then
      Some((ev.op.key, Answer(Store(s, ev.replica), ev.op.key, ev.op.now).value))
    else if ev.Backfill? then Some((ev.flight.key, ev.flight.value))
    else None
  }

  ghost function After<V(!new)>(trace: seq<Event<V>>, c: Config): State<V> {
    if trace == [] then State(map[], map[], {}, 0.0) else Next(After(trace[..|trace| - 1], c), trace[|trace| - 1], c)
  }

  ghost predicate Runs<V(!new)>(trace: seq<Event<V>>, c: Config) {
    trace != [] ==>
      && Runs(trace[..|trace| - 1], c)
      && Enabled(After(trace[..|trace| - 1], c), trace[|trace| - 1], c)
  }

  // ----- bounded staleness ------------------------------------------------------------------------

  function CopyTime(c: Config): real {
    Max(BackfillTtl(c.defaultTtl), 0.0) + c.delay
  }

  // How long after the call that set it a value can still be returned by any replica.
  function Staleness(ttl: real, c: Config): real {
    Max(ttl, Lifetime(ttl) + CopyTime(c)) + c.setDelay
  }

  // The same two with their constants.
  function CopySeconds(c: Config): real {
    Max(Min(c.defaultTtl, 3.0), 0.0) + c.delay
  }

  function StaleSeconds(ttl: real, c: Config): real {
    Max(ttl, Max(1.0, ttl.Floor as real) + CopySeconds(c)) + c.setDelay
  }

  lemma InSeconds(ttl: real, c: Config)
    ensures CopyTime(c) == CopySeconds(c) && Staleness(ttl, c) == StaleSeconds(ttl, c)
    ensures Lifetime(ttl) == Max(1.0, ttl.Floor as real)
  {
  }

  ghost predicate Writes<V(!new)>(ev: Event<V>, key: string, value: V) {
    (ev.L1Set? || ev.L2Set?) && Stored(ev.key) == Stored(key) && ev.value == value
  }

  // Some set of this key wrote this value, and `until` is within the allowance of that call.
  ghost predicate Fresh<V(!new)>(trace: seq<Event<V>>, c: Config, key: string, value: V, until: real) {
    exists i :: 0 <= i < |trace| && Writes(trace[i], key, value) && until <= trace[i].start + Staleness(trace[i].ttl, c)
  }

  // Some set wrote it to Redis, where it is kept at least up to `until`.
  ghost predicate Kept<V(!new)>(trace: seq<Event<V>>, c: Config, name: string, value: V, until: real) {
    exists i :: 0 <= i < |trace| && trace[i].L2Set? && Stored(trace[i].key) == name && trace[i].value == value
      && until <= trace[i].start + c.setDelay + Lifetime(trace[i].ttl)
  }

  ghost predicate L1Fresh<V(!new)>(trace: seq<Event<V>>, c: Config, l1: map<nat, seq<Entry<V>>>) {
    forall r, e :: r in l1 && e in l1[r] ==> Fresh(trace, c, e.key, e.value, e.expiry)
  }

  ghost predicate L2Kept<V(!new)>(trace: seq<Event<V>>, c: Config, l2: map<string, Held<V>>) {
    forall n :: n in l2 ==> Kept(trace, c, n, l2[n].value, l2[n].expiry)
  }

  ghost predicate FlightsKept<V(!new)>(trace: seq<Event<V>>, c: Config, flights: set<Flight<V>>) {
    forall f :: f in flights ==> Kept(trace, c, Stored(f.key), f.value, f.readAt)
  }

  lemma StepOrigin<V(!new)>(store: seq<Entry<V>>, op: Op<V>, maxItems: int)
    ensures forall e :: e in Step(store, op, maxItems) ==> e in store || (op.Set? && e == Entry(op.key, op.expiry, op.value))
  {
    match op
    case Get(key, now) => LookupMeans(store, key);
    case _ =>
  }

  lemma FreshGrows<V(!new)>(trace: seq<Event<V>>, ev: Event<V>, c: Config, key: string, value: V, until: real)
    requires Fresh(trace, c, key, value, until)
    ensures Fresh(trace + [ev], c, key, value, until)
  {
    var i :| 0 <= i < |trace| && Writes(trace[i], key, value) && until <= trace[i].start + Staleness(trace[i].ttl, c);
    assert (trace + [ev])[i] == trace[i];
  }

  lemma KeptGrows<V(!new)>(trace: seq<Event<V>>, ev: Event<V>, c: Config, name: string, value: V, until: real)
    requires Kept(trace, c, name, value, until)
    ensures Kept(trace + [ev], c, name, value, until)
  {
    var i :| 0 <= i < |trace| && trace[i].L2Set? && Stored(trace[i].key) == name && trace[i].value == value
      && until <= trace[i].start + c.setDelay + Lifetime(trace[i].ttl);
    assert (trace + [ev])[i] == trace[i];
  }

  lemma KeptIsFresh<V(!new)>(trace: seq<Event<V>>, c: Config, key: string, value: V, readAt: real, until: real)
    requires Kept(trace, c, Stored(key), value, readAt) && until <= readAt + CopyTime(c)
    ensures Fresh(trace, c, key, value, until)
  {
    var i :| 0 <= i < |trace| && trace[i].L2Set? && Stored(trace[i].key) == Stored(key) && trace[i].value == value
      && readAt <= trace[i].start + c.setDelay + Lifetime(trace[i].ttl);
    assert Writes(trace[i], key, value);
  }

  // The entry a step may add to a local dictionary is within its allowance.
  lemma NewEntryFresh<V(!new)>(trace: seq<Event<V>>, c: Config, s: State<V>, ev: Event<V>)
    requires Enabled(s, ev, c) && FlightsKept(trace, c, s.flights)
    ensures ev.L1Set? ==> Fresh(trace + [ev], c, ev.key, ev.value, ev.at + ev.ttl)
    ensures ev.Backfill? ==> Fresh(trace + [ev], c, ev.flight.key, ev.flight.value, ev.at + BackfillTtl(c.defaultTtl))
  {
    if ev.L1Set? {
      assert (trace + [ev])[|trace|] == ev && Writes(ev, ev.key, ev.value);
    } else if ev.Backfill? {
      KeptIsFresh(trace, c, ev.flight.key, ev.flight.value, ev.flight.readAt, ev.at + BackfillTtl(c.defaultTtl));
      FreshGrows(trace, ev, c, ev.flight.key, ev.flight.value, ev.at + BackfillTtl(c.defaultTtl));
    }
  }

  lemma NextL1Fresh<V(!new)>(trace: seq<Event<V>>, c: Config, s: State<V>, ev: Event<V>)
    requires Enabled(s, ev, c) && FlightsKept(trace, c, s.flights) && L1Fresh(trace, c, s.l1)
    ensures L1Fresh(trace + [ev], c, Next(s, ev, c).l1)
  {
    hide Fresh, Kept, Step;
    NewEntryFresh(trace, c, s, ev);
    var l1 := Next(s, ev, c).l1;
    forall r: nat, e: Entry<V> | r in l1 && e in l1[r] ensures Fresh(trace + [ev], c, e.key, e.value, e.expiry) {
      if e in Store(s, r) {
        FreshGrows(trace, ev, c, e.key, e.value, e.expiry);
      } else {
        match ev
        case L1Set(_, key, value, ttl, _, at) => StepOrigin(Store(s, r), Op.Set(key, value, at + ttl), c.maxItems);
        case L1Op(_, op, _) => StepOrigin(Store(s, r), op, c.maxItems);
        case Backfill(f, at) => StepOrigin(Store(s, r), Op.Set(f.key, f.value, at + BackfillTtl(c.defaultTtl)), c.maxItems);
        case _ =>
      }
    }
  }

  lemma NextL2Kept<V(!new)>(trace: seq<Event<V>>, c: Config, s: State<V>, ev: Event<V>)
    requires Enabled(s, ev, c) && L2Kept(trace, c, s.l2)
    ensures L2Kept(trace + [ev], c, Next(s, ev, c).l2)
  {
    var l2 := Next(s, ev, c).l2;
    forall n | n in l2 ensures Kept(trace + [ev], c, n, l2[n].value, l2[n].expiry) {
      if n in s.l2 && l2[n] == s.l2[n] {
        KeptGrows(trace, ev, c, n, l2[n].value, l2[n].expiry);
      } else {
        assert (trace + [ev])[|trace|] == ev;
      }
    }
  }

  lemma NextFlightsKept<V(!new)>(trace: seq<Event<V>>, c: Config, s: State<V>, ev: Event<V>)
    requires L2Kept(trace, c, s.l2) && FlightsKept(trace, c, s.flights)
    ensures FlightsKept(trace + [ev], c, Next(s, ev, c).flights)
  {
    forall f | f in Next(s, ev, c).flights ensures Kept(trace + [ev], c, Stored(f.key), f.value, f.readAt) {
      assert Kept(trace, c, Stored(f.key), f.value, f.readAt);
      KeptGrows(trace, ev, c, Stored(f.key), f.value, f.readAt);
    }
  }

  lemma {:induction false} RunKeepsFresh<V(!new)>(trace: seq<Event<V>>, c: Config)
    requires Runs(trace, c)
    ensures L1Fresh(trace, c, After<V>(trace, c).l1) && L2Kept(trace, c, After<V>(trace, c).l2)
    ensures FlightsKept(trace, c, After<V>(trace, c).flights)
  {
    if trace != [] {
      var front, ev := trace[..|trace| - 1], trace[|trace| - 1];
      RunKeepsFresh(front, c);
      assert trace == front + [ev];
      NextL1Fresh(front, c, After(front, c), ev);
      NextL2Kept(front, c, After(front, c), ev);
      NextFlightsKept(front, c, After(front, c), ev);
    }
  }

  // Whatever a replica returns at time t was written by a set called at some time s,
  // with t <= s + max(ttl, max(1, floor(ttl)) + min(default, 3) + delay) + setDelay.
  lemma BoundedStaleness<V(!new)>(trace: seq<Event<V>>, c: Config, ev: Event<V>)
    requires Runs(trace, c) && Enabled(After(trace, c), ev, c)
    requires Returned(After(trace, c), ev).Some?
    ensures var (key, value) := Returned(After(trace, c), ev).value; Fresh(trace, c, key, value, ev.at)
    ensures var (key, value) := Returned(After(trace, c), ev).value;
      exists i :: 0 <= i < |trace| && Writes(trace[i], key, value) && ev.at <= trace[i].start + StaleSeconds(trace[i].ttl, c)
  {
    forall i | 0 <= i < |trace| && (trace[i].L1Set? || trace[i].L2Set?)
      ensures Staleness(trace[i].ttl, c) == StaleSeconds(trace[i].ttl, c)
    {
      InSeconds(trace[i].ttl, c);
    }
    var s := After<V>(trace, c);
    RunKeepsFresh(trace, c);
    var (key, value) := Returned(s, ev).value;
    if ev.Backfill? {
      KeptIsFresh(trace, c, key, value, ev.flight.readAt, ev.at);
    } else {
      LookupMeans(Store(s, ev.replica), key);
      var e := Lookup(Store(s, ev.replica), key).value;
      var i :| 0 <= i < |trace| && Writes(trace[i], e.key, e.value) && e.expiry <= trace[i].start + Staleness(trace[i].ttl, c);
      assert Writes(trace[i], key, value) && ev.at <= trace[i].start + Staleness(trace[i].ttl, c);
    }
  }

  // The allowance is used up to the last instant by one slow set, one read of Redis by another
  // replica just before the expiry there, and a local hit just before the copy expires.
  lemma StalenessIsReached<V(!new)>(value: V, ttl: real, c: Config) returns (trace: seq<Event<V>>, ev: Event<V>)
    requires c.maxItems > 0 && c.defaultTtl >= 0.0 && c.delay >= 0.0 && c.setDelay >= 0.0
    ensures Runs(trace, c) && Enabled(After(trace, c), ev, c)
    ensures Returned(After(trace, c), ev) == Some(("k", value))
    ensures forall i :: 0 <= i < |trace| && Writes(trace[i], "k", value) ==>
      trace[i].ttl == ttl && ev.at == trace[i].start + Max(1.0, ttl.Floor as real) + CopySeconds(c) + c.setDelay
  {
    InSeconds(ttl, c);
    var read := c.setDelay + Lifetime(ttl);
    var set0: Event<V>, get0: Event<V> := L2Set("k", value, ttl, 0.0, c.setDelay), L2Get(1, "k", read);
    var fill: Event<V> := Backfill(Flight(1, "k", value, read), read + c.delay);
    ev := L1Op(1, Op<V>.Get("k", read + CopyTime(c)), read + CopyTime(c));
    trace := [set0, get0, fill];
    assert trace[..2] == [set0, get0] && [set0, get0][..1] == [set0] && [set0][..0] == [];
    assert After([set0], c) == State(map[], map[Stored("k") := Held(value, read)], {}, c.setDelay);
    assert After([set0, get0], c) == State(map[], map[Stored("k") := Held(value, read)], {Flight(1, "k", value, read)}, read);
    assert Runs<V>([], c) && Runs([set0], c) && Runs([set0, get0], c);
    assert Store(After([set0, get0], c), 1) == [];
    assert Store(After(trace, c), 1) == [Entry("k", read + c.delay + BackfillTtl(c.defaultTtl), value)];
  }

  // ----- invalidation -------------------------------------------------------------------------------

  ghost predicate TtlsUpTo<V(!new)>(trace: seq<Event<V>>, longest: real) {
    forall i :: 0 <= i < |trace| && trace[i].L1Set? ==> trace[i].ttl <= longest
  }

  ghost predicate NeverSets<V(!new)>(trace: seq<Event<V>>, name: string) {
    forall i :: 0 <= i < |trace| && (trace[i].L1Set? || trace[i].L2Set?) ==> Stored(trace[i].key) != name
  }

  ghost predicate SetsIt<V(!new)>(ev: Event<V>, name: string) {
    (ev.L1Set? || ev.L2Set?) && Stored(ev.key) == name
  }

  // The calls that still write this name were begun by `at`, with a ttl of at most `longest`.
  ghost predicate NoneBegun<V(!new)>(trace: seq<Event<V>>, name: string, at: real, longest: real) {
    forall i :: 0 <= i < |trace| && SetsIt(trace[i], name) ==> trace[i].start <= at && trace[i].ttl <= longest
  }

  // None of them reaches Redis.
  ghost predicate OnlyLocally<V(!new)>(trace: seq<Event<V>>, name: string) {
    forall i :: 0 <= i < |trace| && trace[i].L2Set? ==> Stored(trace[i].key) != name
  }

  // Every local entry under this name is gone by `until`, and every get in flight read by `read`.
  ghost predicate Ends<V(!new)>(s: State<V>, name: string, until: real, read: real) {
    && (forall r, e :: r in s.l1 && e in s.l1[r] && Stored(e.key) == name ==> e.expiry <= until)
    && (forall f :: f in s.flights && Stored(f.key) == name ==> f.readAt <= read)
  }

  lemma NextEnds<V(!new)>(s: State<V>, ev: Event<V>, c: Config, name: string, until: real, read: real)
    requires Enabled(s, ev, c) && Ends(s, name, until, read)
    requires ev.L1Set? && Stored(ev.key) == name ==> ev.at + ev.ttl <= until
    requires ev.Backfill? && Stored(ev.flight.key) == name ==> ev.at + BackfillTtl(c.defaultTtl) <= until
    requires ev.L2Get? && Stored(ev.key) == name && Remote(s.l2, ev.key, ev.at).Some? ==> ev.at <= read
    ensures Ends(Next(s, ev, c), name, until, read)
  {
    hide Step, Lifetime, BackfillTtl;
    var l1 := Next(s, ev, c).l1;
    forall r: nat, e: Entry<V> | r in l1 && e in l1[r] && Stored(e.key) == name ensures e.expiry <= until {
      if e !in Store(s, r) {
        match ev
        case L1Set(_, key, value, ttl, _, at) => StepOrigin(Store(s, r), Op.Set(key, value, at + ttl), c.maxItems);
        case L1Op(_, op, _) => StepOrigin(Store(s, r), op, c.maxItems);
        case Backfill(f, at) => StepOrigin(Store(s, r), Op.Set(f.key, f.value, at + BackfillTtl(c.defaultTtl)), c.maxItems);
        case _ =>
      }
    }
  }

  // While sets go on, nothing local outlives the clock by more than the longest lifetime used.
  lemma {:induction false} LocalHorizon<V(!new)>(trace: seq<Event<V>>, c: Config, name: string, longest: real)
    requires Runs(trace, c) && TtlsUpTo(trace, longest)
    ensures Ends(After(trace, c), name, After<V>(trace, c).clock + Max(longest, BackfillTtl(c.defaultTtl)), After<V>(trace, c).clock)
  {
    if trace != [] {
      var front, ev := trace[..|trace| - 1], trace[|trace| - 1];
      LocalHorizon(front, c, name, longest);
      var s := After<V>(front, c);
      var horizon := ev.at + Max(longest, BackfillTtl(c.defaultTtl));
      assert Ends(s, name, horizon, ev.at);
      NextEnds(s, ev, c, name, horizon, ev.at);
    }
  }

  function Gone(at: real, longest: real, c: Config): real {
    at + Max(longest, CopyTime(c))
  }

  lemma DeleteEnds<V(!new)>(before: seq<Event<V>>, delete: Event<V>, c: Config, name: string, longest: real)
    requires Runs(before, c) && TtlsUpTo(before, longest) && c.delay >= 0.0
    requires delete.L2Delete? && Enabled(After(before, c), delete, c)
    ensures Ends(Next(After(before, c), delete, c), name, Gone(delete.at, longest, c), delete.at)
  {
    LocalHorizon(before, c, name, longest);
    assert Ends(After(before, c), name, Gone(delete.at, longest, c), delete.at);
    NextEnds(After(before, c), delete, c, name, Gone(delete.at, longest, c), delete.at);
  }

  // How late a call begun before can still write the local tier.
  ghost function Late<V(!new)>(later: seq<Event<V>>, name: string, c: Config): real {
    if NeverSets(later, name) then 0.0 else Max(c.setDelay, 0.0)
  }

  lemma StillEnds<V(!new)>(s: State<V>, ev: Event<V>, c: Config, name: string, at: real, longest: real, late: real)
    requires Enabled(s, ev, c) && c.delay >= 0.0 && late >= 0.0
    requires name !in s.l2 && Ends(s, name, Gone(at, longest + late, c), at)
    requires ev.L2Set? ==> Stored(ev.key) != name
    requires SetsIt(ev, name) ==> ev.at <= at + late && ev.ttl <= longest
    ensures Ends(Next(s, ev, c), name, Gone(at, longest + late, c), at) && name !in Next(s, ev, c).l2
  {
    NextEnds(s, ev, c, name, Gone(at, longest + late, c), at);
  }

  lemma {:induction false} AfterDelete<V(!new)>(before: seq<Event<V>>, names: set<string>, at: real, later: seq<Event<V>>,
                                               c: Config, name: string, longest: real, late: real)
    requires Runs(before + [Event<V>.L2Delete(names, at)] + later, c) && name in names && c.delay >= 0.0
    requires TtlsUpTo(before, longest) && NoneBegun(later, name, at, longest) && OnlyLocally(later, name)
    requires late >= 0.0 && (NeverSets(later, name) || late >= c.setDelay)
    ensures var s := After<V>(before + [Event<V>.L2Delete(names, at)] + later, c);
      Ends(s, name, Gone(at, longest + late, c), at) && name !in s.l2
    decreases |later|
  {
    hide Ends, TtlsUpTo, Enabled, Gone, NoneBegun, OnlyLocally, NeverSets, SetsIt;
    var delete: Event<V> := Event<V>.L2Delete(names, at);
    var trace := before + [delete] + later;
    if later == [] {
      assert trace[..|trace| - 1] == before && trace[|trace| - 1] == delete;
      DeleteEnds(before, delete, c, name, longest);
      EndsLater(After(trace, c), name, at, longest, late, c);
    } else {
      var front, ev := later[..|later| - 1], later[|later| - 1];
      assert trace[..|trace| - 1] == before + [delete] + front && trace[|trace| - 1] == ev;
      assert later == front + [ev];
      LastOfLater(front, ev, name, at, longest);
      AfterDelete(before, names, at, front, c, name, longest, late);
      LateBy(After(before + [delete] + front, c), ev, c, name, at, late);
      StillEnds(After(before + [delete] + front, c), ev, c, name, at, longest, late);
    }
  }

  lemma EndsLater<V(!new)>(s: State<V>, name: string, at: real, longest: real, late: real, c: Config)
    requires Ends(s, name, Gone(at, longest, c), at) && late >= 0.0
    ensures Ends(s, name, Gone(at, longest + late, c), at)
  {
  }

  lemma LastOfLater<V(!new)>(front: seq<Event<V>>, ev: Event<V>, name: string, at: real, longest: real)
    requires NoneBegun(front + [ev], name, at, longest) && OnlyLocally(front + [ev], name)
    ensures NoneBegun(front, name, at, longest) && OnlyLocally(front, name)
    ensures SetsIt(ev, name) ==> ev.start <= at && ev.ttl <= longest
    ensures ev.L2Set? ==> Stored(ev.key) != name
    ensures NeverSets(front + [ev], name) ==> NeverSets(front, name) && !SetsIt(ev, name)
  {
    hide Stored;
    var later := front + [ev];
    assert later[|front|] == ev && forall i :: 0 <= i < |front| ==> later[i] == front[i];
  }

  lemma LateBy<V(!new)>(s: State<V>, ev: Event<V>, c: Config, name: string, at: real, late: real)
    requires Enabled(s, ev, c) && (SetsIt(ev, name) ==> ev.start <= at && late >= c.setDelay)
    ensures SetsIt(ev, name) ==> ev.at <= at + late
  {
  }

  // After an invalidate that reaches Redis, with no set of the key begun later and none begun before
  // reaching Redis later, no replica returns anything for it once
  // max(longest ttl used, min(default, 3) + delay) has passed; sets that still write the local tier
  // add their duration to the ttl.
  lemma InvalidateTakesEffect<V(!new)>(before: seq<Event<V>>, names: set<string>, at: real, later: seq<Event<V>>, ev: Event<V>,
                                       c: Config, key: string, longest: real)
    requires Runs(before + [Event<V>.L2Delete(names, at)] + later, c) && Stored(key) in names && c.delay >= 0.0
    requires Enabled(After(before + [Event<V>.L2Delete(names, at)] + later, c), ev, c)
    requires TtlsUpTo(before, longest) && NoneBegun(later, Stored(key), at, longest) && OnlyLocally(later, Stored(key))
    requires ev.at > at + Max(longest + if NeverSets(later, Stored(key)) then 0.0 else Max(c.setDelay, 0.0), CopySeconds(c))
    ensures var s := After<V>(before + [Event<V>.L2Delete(names, at)] + later, c);
      Returned(s, ev).Some? ==> Returned(s, ev).value.0 != key
    ensures Remote(After(before + [Event<V>.L2Delete(names, at)] + later, c).l2, key, ev.at) == None
  {
    InSeconds(longest, c);
    AfterDelete(before, names, at, later, c, Stored(key), longest, Late(later, Stored(key), c));
    var s := After<V>(before + [Event<V>.L2Delete(names, at)] + later, c);
    if ev.L1Op? && ev.op.Get? && ev.op.key == key {
      LookupMeans(Store(s, ev.replica), key);
    }
  }

  // A set begun before the invalidate may write Redis after it, and bring its value back. Whatever
  // the order of the two, once no set of the key has begun since, every replica misses when the
  // allowance of the longest has passed ...
  lemma LateWritesExpire<V(!new)>(trace: seq<Event<V>>, ev: Event<V>, c: Config, key: string, at: real, longest: real)
    requires Runs(trace, c) && Enabled(After(trace, c), ev, c)
    requires NoneBegun(trace, Stored(key), at, longest) && ev.at > at + StaleSeconds(longest, c)
    ensures Returned(After(trace, c), ev).Some? ==> Returned(After(trace, c), ev).value.0 != key
  {
    hide Fresh;
    InSeconds(longest, c);
    var back := Returned(After<V>(trace, c), ev);
    if back.Some? && back.value.0 == key {
      BoundedStaleness(trace, c, ev);
      OldestFresh(trace, c, key, back.value.1, ev.at, at, longest);
    }
  }

  lemma OldestFresh<V(!new)>(trace: seq<Event<V>>, c: Config, key: string, value: V, until: real, at: real, longest: real)
    requires Fresh(trace, c, key, value, until) && NoneBegun(trace, Stored(key), at, longest)
    ensures until <= at + Staleness(longest, c)
  {
    var i :| 0 <= i < |trace| && Writes(trace[i], key, value) && until <= trace[i].start + Staleness(trace[i].ttl, c);
    assert SetsIt(trace[i], Stored(key));
    StalenessGrows(trace[i].ttl, longest, c);
  }

  lemma StalenessGrows(ttl: real, longest: real, c: Config)
    requires ttl <= longest
    ensures Staleness(ttl, c) <= Staleness(longest, c)
  {
    assert ttl.Floor <= longest.Floor;
  }

  // ... and not earlier: a set begun at the instant of the invalidate writes Redis after it, and its
  // value is returned up to that moment.
  lemma LateWriteSurvives<V(!new)>(value: V, ttl: real, c: Config) returns (trace: seq<Event<V>>, ev: Event<V>)
    requires c.maxItems > 0 && c.defaultTtl >= 0.0 && c.delay >= 0.0 && c.setDelay >= 0.0
    ensures Runs(trace, c) && Enabled(After(trace, c), ev, c)
    ensures trace != [] && trace[0] == Event<V>.L2Delete({Stored("k")}, 0.0)
    ensures NoneBegun(trace, Stored("k"), 0.0, ttl)
    ensures Returned(After(trace, c), ev) == Some(("k", value))
    ensures ev.at == Max(1.0, ttl.Floor as real) + CopySeconds(c) + c.setDelay
  {
    InSeconds(ttl, c);
    var read := c.setDelay + Lifetime(ttl);
    var delete: Event<V>, set0: Event<V> := L2Delete({Stored("k")}, 0.0), L2Set("k", value, ttl, 0.0, c.setDelay);
    var get0: Event<V>, fill: Event<V> := L2Get(1, "k", read), Backfill(Flight(1, "k", value, read), read + c.delay);
    ev := L1Op(1, Op<V>.Get("k", read + CopyTime(c)), read + CopyTime(c));
    trace := [delete, set0, get0, fill];
    assert trace[0] == delete;
    assert trace[..3] == [delete, set0, get0] && [delete, set0, get0][..2] == [delete, set0];
    assert [delete, set0][..1] == [delete] && [delete][..0] == [];
    assert After([delete], c) == State(map[], map[], {}, 0.0);
    assert After([delete, set0], c) == State(map[], map[Stored("k") := Held(value, read)], {}, c.setDelay);
    assert After([delete, set0, get0], c) ==
      State(map[], map[Stored("k") := Held(value, read)], {Flight(1, "k", value, read)}, read);
    assert Runs<V>([], c) && Runs([delete], c) && Runs([delete, set0], c) && Runs([delete, set0, get0], c);
    assert Store(After([delete, set0, get0], c), 1) == [];
    assert Store(After(trace, c), 1) == [Entry("k", read + c.delay + BackfillTtl(c.defaultTtl), value)];
  }
}
