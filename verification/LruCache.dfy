// InMemoryCacheProvider of server/api/cache.py: an ordered dictionary with a lifetime per
// entry, bounded by evicting the least recently used one.
module LruCache {
  import opened Text

  datatype Entry<V> = Entry(key: string, expiry: real, value: V)

  // One call of the provider, with the clock reading it acts on.
  datatype Op<!V> =
    | Get(key: string, now: real)
    | Set(key: string, value: V, expiry: real)
    | Invalidate(key: string)
    | Clear
    | ClearPattern(matches: string -> bool)

  // ----- the ordered dictionary, oldest entry first --------------------------------------

  function Lookup<V(!new)>(store: seq<Entry<V>>, key: string): Option<Entry<V>> {
    if store == [] then None
    else if store[0].key == key then Some(store[0])
    else Lookup(store[1..], key)
  }

  function Without<V(!new)>(store: seq<Entry<V>>, key: string): (r: seq<Entry<V>>)
    ensures forall e :: e in r <==> e in store && e.key != key
  {
    if store == [] then []
    else if store[0].key == key then Without(store[1..], key)
    else [store[0]] + Without(store[1..], key)
  }

  function Unmatched<V(!new)>(store: seq<Entry<V>>, matches: string -> bool): (r: seq<Entry<V>>)
    ensures forall e :: e in r <==> e in store && !matches(e.key)
  {
    if store == [] then []
    else if matches(store[0].key) then Unmatched(store[1..], matches)
    else [store[0]] + Unmatched(store[1..], matches)
  }

  // What one call does to the dictionary. A set into an empty dictionary that may hold nothing
  // raises and changes nothing.
  function Step<V(!new)>(store: seq<Entry<V>>, op: Op<V>, maxItems: int): seq<Entry<V>> {
    match op
    case Get(key, now) =>
      var hit := Lookup(store, key);
      if hit == None then store
      else if now > hit.value.expiry then Without(store, key)
      else Without(store, key) + [hit.value]
    case Set(key, value, expiry) =>
      if Lookup(store, key).Some? then Without(store, key) + [Entry(key, expiry, value)]
      else if |store| < maxItems then store + [Entry(key, expiry, value)]
      else if store == [] then store
      else store[1..] + [Entry(key, expiry, value)]
    case Invalidate(key) => Without(store, key)
    case Clear => []
    case ClearPattern(matches) => Unmatched(store, matches)
  }

  function Answer<V(!new)>(store: seq<Entry<V>>, key: string, now: real): Option<V> {
    var hit := Lookup(store, key);
    if hit.Some? && now <= hit.value.expiry then Some(hit.value.value) else None
  }

  function Run<V(!new)>(ops: seq<Op<V>>, maxItems: int): seq<Entry<V>> {
    if ops == [] then [] else Step(Run(ops[..|ops| - 1], maxItems), ops[|ops| - 1], maxItems)
  }

  class InMemoryCacheProvider<V(==,!new)> {
    const defaultTtl: real
    const maxItems: int
    var store: seq<Entry<V>>

    constructor (defaultTtl: real, maxItems: int)
      ensures this.defaultTtl == defaultTtl && this.maxItems == maxItems && store == []
    {
      this.defaultTtl, this.maxItems := defaultTtl, maxItems;
      store := [];
    }

    method Get(key: string, now: real) returns (value: Option<V>)
      modifies this
      ensures store == Step(old(store), Op<V>.Get(key, now), maxItems)
      ensures value == Answer(old(store), key, now)
    {
      var hit := Lookup(store, key);
      if hit == None {
        return None;
      }
      if now > hit.value.expiry {
        store := Without(store, key);
        return None;
      }
      store := Without(store, key) + [hit.value];
      value := Some(hit.value.value);
    }

    method Set(key: string, value: V, ttl: Option<real>, now: real) returns (raised: bool)
      modifies this
      ensures store == Step(old(store), Op<V>.Set(key, value, now + (if ttl.Some? then ttl.value else defaultTtl)), maxItems)
      ensures raised <==> old(store) == [] && maxItems <= 0
    {
      var expiry := now + if ttl.Some? then ttl.value else defaultTtl;
      if Lookup(store, key).Some? {
        store := Without(store, key);
      } else if |store| >= maxItems {
        if store == [] {
          return true;
        }
        store := store[1..];
      }
      store := store + [Entry(key, expiry, value)];
      raised := false;
    }

    method Invalidate(key: string)
      modifies this
      ensures store == Step(old(store), Op<V>.Invalidate(key), maxItems)
    {
      store := Without(store, key);
    }

    method Clear()
      modifies this
      ensures store == Step(old(store), Op<V>.Clear, maxItems)
    {
      store := [];
    }

    method ClearPattern(matches: string -> bool) returns (count: int)
      modifies this
      ensures store == Step(old(store), Op<V>.ClearPattern(matches), maxItems)
      ensures count == |old(store)| - |store|
    {
      var size := |store|;
      store := Unmatched(store, matches);
      count := size - |store|;
    }
  }

  // ----- the reference: an unbounded timed map --------------------------------------------

  function IdealStep<V(!new)>(m: map<string, (real, V)>, op: Op<V>): map<string, (real, V)> {
    match op
    case Get(_, _) => m
    case Set(key, value, expiry) => m[key := (expiry, value)]
    case Invalidate(key) => m - {key}
    case Clear => map[]
    case ClearPattern(matches) => map k | k in m && !matches(k) :: m[k]
  }

  // The last value set for each key and not invalidated since, with its expiry.
  function Ideal<V(!new)>(ops: seq<Op<V>>): map<string, (real, V)> {
    if ops == [] then map[] else IdealStep(Ideal(ops[..|ops| - 1]), ops[|ops| - 1])
  }

  function ClockStep<V(!new)>(clock: real, op: Op<V>): real {
    if op.Get? then op.now else clock
  }

  // The latest clock reading of a get.
  function Clock<V(!new)>(ops: seq<Op<V>>, start: real): real {
    if ops == [] then start else ClockStep(Clock(ops[..|ops| - 1], start), ops[|ops| - 1])
  }

  // The clock readings of the gets never go back.
  ghost predicate Timed<V(!new)>(ops: seq<Op<V>>, start: real) {
    ops != [] ==>
      && Timed(ops[..|ops| - 1], start)
      && Clock(ops[..|ops| - 1], start) <= Clock(ops, start)
  }

  // A get that hits and a set touch their key.
  predicate Touches<V(!new)>(store: seq<Entry<V>>, op: Op<V>, key: string) {
    match op
    case Get(k, now) => k == key && Answer(store, k, now).Some?
    case Set(k, _, _) => k == key
    case _ => false
  }

  ghost function SinceStep<V(!new)>(since: set<string>, store: seq<Entry<V>>, op: Op<V>, key: string): set<string> {
    if Touches(store, op, key) then {}
    else if (op.Get? || op.Set?) && Touches(store, op, op.key) then since + {op.key}
    else since
  }

  // The other keys touched since `key` itself was last touched.
  ghost function TouchedSince<V(!new)>(ops: seq<Op<V>>, maxItems: int, key: string): set<string> {
    if ops == [] then {}
    else SinceStep(TouchedSince(ops[..|ops| - 1], maxItems, key), Run(ops[..|ops| - 1], maxItems), ops[|ops| - 1], key)
  }

  // ----- the dictionary --------------------------------------------------------------------

  ghost function Keys<V(!new)>(store: seq<Entry<V>>): set<string> {
    set e | e in store :: e.key
  }

  ghost predicate Distinct<V(!new)>(store: seq<Entry<V>>) {
    forall i, j :: 0 <= i < j < |store| ==> store[i].key != store[j].key
  }

  // The keys behind `key` in the eviction order.
  ghost function Behind<V(!new)>(store: seq<Entry<V>>, key: string): set<string> {
    if store == [] then {}
    else if store[0].key == key then Keys(store[1..])
    else Behind(store[1..], key)
  }

  lemma {:induction false} LookupMeans<V(!new)>(store: seq<Entry<V>>, key: string)
    ensures Lookup(store, key).Some? <==> key in Keys(store)
    ensures Lookup(store, key).Some? ==> Lookup(store, key).value in store && Lookup(store, key).value.key == key
  {
    if store != [] {
      LookupMeans(store[1..], key);
      assert Keys(store) == {store[0].key} + Keys(store[1..]);
    }
  }

  lemma {:induction false} LookupUnique<V(!new)>(store: seq<Entry<V>>, e: Entry<V>)
    requires Distinct(store) && e in store
    ensures Lookup(store, e.key) == Some(e)
  {
    if store[0] != e {
      assert e in store[1..];
      LookupUnique(store[1..], e);
    }
  }

  lemma {:induction false} WithoutMeans<V(!new)>(store: seq<Entry<V>>, key: string)
    requires Distinct(store)
    ensures Distinct(Without(store, key))
    ensures forall e :: e in Without(store, key) <==> e in store && e.key != key
    ensures Keys(Without(store, key)) == Keys(store) - {key}
    ensures |Without(store, key)| == |store| - if key in Keys(store) then 1 else 0
    ensures forall k :: k != key ==> Behind(Without(store, key), k) == Behind(store, k) - {key}
  {
    if store != [] {
      var rest := Without(store[1..], key);
      WithoutMeans(store[1..], key);
      assert Keys(store) == {store[0].key} + Keys(store[1..]);
      assert Keys(rest) == Keys(store[1..]) - {key};
      if store[0].key == key {
        assert key !in Keys(store[1..]);
        forall k | k != key ensures Behind(rest, k) == Behind(store, k) - {key} {
          assert Behind(store, k) == Behind(store[1..], k);
        }
      } else {
        assert ([store[0]] + rest)[1..] == rest;
      }
    }
  }

  lemma {:induction false} UnmatchedMeans<V(!new)>(store: seq<Entry<V>>, matches: string -> bool)
    requires Distinct(store)
    ensures Distinct(Unmatched(store, matches))
    ensures forall e :: e in Unmatched(store, matches) <==> e in store && !matches(e.key)
    ensures |Unmatched(store, matches)| <= |store|
    ensures forall k :: !matches(k) ==> Behind(Unmatched(store, matches), k) <= Behind(store, k)
  {
    if store != [] {
      var rest := Unmatched(store[1..], matches);
      UnmatchedMeans(store[1..], matches);
      assert Keys(rest) <= Keys(store[1..]);
      if !matches(store[0].key) {
        assert ([store[0]] + rest)[1..] == rest;
      }
    }
  }

  lemma {:induction false} AppendMeans<V(!new)>(store: seq<Entry<V>>, e: Entry<V>)
    requires Distinct(store) && e.key !in Keys(store)
    ensures Distinct(store + [e]) && Keys(store + [e]) == Keys(store) + {e.key}
    ensures Behind(store + [e], e.key) == {}
    ensures forall k :: k in Keys(store) ==> Behind(store + [e], k) == Behind(store, k) + {e.key}
  {
    if store == [] {
      assert (store + [e])[1..] == [];
    } else {
      assert Keys(store) == {store[0].key} + Keys(store[1..]);
      AppendMeans(store[1..], e);
      assert (store + [e])[1..] == store[1..] + [e];
    }
  }

  lemma {:induction false} KeysSize<V(!new)>(store: seq<Entry<V>>)
    requires Distinct(store)
    ensures |Keys(store)| == |store|
  {
    if store != [] {
      KeysSize(store[1..]);
      assert Keys(store) == {store[0].key} + Keys(store[1..]);
      assert store[0].key !in Keys(store[1..]);
    }
  }

  // ----- the invariant of a run --------------------------------------------------------------

  // Why `key` is where it is: present with only recently touched keys behind it, pushed out by
  // enough other keys, or already seen to be expired.
  ghost predicate Accounted<V(!new)>(store: seq<Entry<V>>, since: set<string>, key: string, expiry: real, clock: real, maxItems: int) {
    || (key in Keys(store) && Behind(store, key) <= since)
    || |since| >= maxItems
    || expiry < clock
  }

  ghost predicate Agrees<V(!new)>(store: seq<Entry<V>>, ideal: map<string, (real, V)>) {
    forall e :: e in store ==> e.key in ideal && ideal[e.key] == (e.expiry, e.value)
  }

  lemma {:induction false} RunAgrees<V(!new)>(ops: seq<Op<V>>, maxItems: int)
    ensures Distinct(Run(ops, maxItems)) && Agrees(Run(ops, maxItems), Ideal(ops))
    ensures |Run(ops, maxItems)| <= if maxItems > 0 then maxItems else 0
  {
    if ops != [] {
      var front, op := ops[..|ops| - 1], ops[|ops| - 1];
      RunAgrees(front, maxItems);
      StepAgrees(Run(front, maxItems), Ideal(front), op, maxItems);
    }
  }

  lemma AgreesSubset<V(!new)>(store: seq<Entry<V>>, rest: seq<Entry<V>>, ideal: map<string, (real, V)>, ideal': map<string, (real, V)>)
    requires Agrees(store, ideal) && forall e :: e in rest ==> e in store
    requires forall e :: e in rest && e.key in ideal ==> e.key in ideal' && ideal'[e.key] == ideal[e.key]
    ensures Agrees(rest, ideal')
  {
    forall e | e in rest ensures e.key in ideal' && ideal'[e.key] == (e.expiry, e.value) {
      assert e in store;
    }
  }

  lemma TailMeans<V(!new)>(store: seq<Entry<V>>)
    requires store != [] && Distinct(store)
    ensures Distinct(store[1..]) && forall e :: e in store[1..] ==> e in store
    ensures Keys(store) == {store[0].key} + Keys(store[1..])
  {
  }

  lemma AgreesAppend<V(!new)>(store: seq<Entry<V>>, ideal: map<string, (real, V)>, e: Entry<V>)
    requires Distinct(store) && Agrees(store, ideal) && e.key !in Keys(store)
    ensures Distinct(store + [e]) && Agrees(store + [e], ideal[e.key := (e.expiry, e.value)])
  {
    AppendMeans(store, e);
    forall x | x in store + [e]
      ensures x.key in ideal[e.key := (e.expiry, e.value)] && ideal[e.key := (e.expiry, e.value)][x.key] == (x.expiry, x.value)
    {
      assert x in store || x == e;
      assert x in store ==> x.key in Keys(store);
    }
  }

  lemma SetAgrees<V(!new)>(store: seq<Entry<V>>, ideal: map<string, (real, V)>, e: Entry<V>, maxItems: int)
    requires Distinct(store) && Agrees(store, ideal) && |store| <= if maxItems > 0 then maxItems else 0
    ensures var store' := Step(store, Op.Set(e.key, e.value, e.expiry), maxItems);
      Distinct(store') && Agrees(store', ideal[e.key := (e.expiry, e.value)]) && |store'| <= if maxItems > 0 then maxItems else 0
  {
    LookupMeans(store, e.key);
    WithoutMeans(store, e.key);
    if e.key in Keys(store) {
      AgreesAppend(Without(store, e.key), ideal, e);
    } else if |store| < maxItems {
      AgreesAppend(store, ideal, e);
    } else if store != [] {
      TailMeans(store);
      AgreesSubset(store, store[1..], ideal, ideal);
      AgreesAppend(store[1..], ideal, e);
    }
  }

  lemma StepAgrees<V(!new)>(store: seq<Entry<V>>, ideal: map<string, (real, V)>, op: Op<V>, maxItems: int)
    requires Distinct(store) && Agrees(store, ideal) && |store| <= if maxItems > 0 then maxItems else 0
    ensures var store' := Step(store, op, maxItems);
      Distinct(store') && Agrees(store', IdealStep(ideal, op)) && |store'| <= if maxItems > 0 then maxItems else 0
  {
    match op
    case Get(key, now) =>
      LookupMeans(store, key);
      WithoutMeans(store, key);
      AgreesSubset(store, Without(store, key), ideal, ideal);
      if key in Keys(store) {
        var e := Lookup(store, key).value;
        AgreesAppend(Without(store, key), ideal, e);
        assert ideal[e.key := (e.expiry, e.value)] == ideal;
      }
    case Set(key, value, expiry) =>
      SetAgrees(store, ideal, Entry(key, expiry, value), maxItems);
    case Invalidate(key) =>
      WithoutMeans(store, key);
      AgreesSubset(store, Without(store, key), ideal, ideal - {key});
    case Clear =>
    case ClearPattern(matches) =>
      UnmatchedMeans(store, matches);
      AgreesSubset(store, Unmatched(store, matches), ideal, IdealStep(ideal, op));
  }

  // A hit is the last value set for the key, unexpired and not invalidated since.
  lemma HitIsLatest<V(!new)>(ops: seq<Op<V>>, maxItems: int, key: string, now: real)
    requires Answer(Run(ops, maxItems), key, now).Some?
    ensures key in Ideal(ops) && now <= Ideal(ops)[key].0
    ensures Answer(Run(ops, maxItems), key, now) == Some(Ideal(ops)[key].1)
  {
    RunAgrees(ops, maxItems);
    LookupMeans(Run(ops, maxItems), key);
  }

  // ----- the converse: recently touched keys stay ------------------------------------------------

  // Moving `e` to the young end, whether or not its key was present.
  lemma RefreshAccounted<V(!new)>(store: seq<Entry<V>>, e: Entry<V>, since: set<string>, key: string,
                            expiry: real, clock: real, maxItems: int)
    requires Distinct(store) && key != e.key && Accounted(store, since, key, expiry, clock, maxItems)
    ensures Accounted(Without(store, e.key) + [e], since + {e.key}, key, expiry, clock, maxItems)
  {
    WithoutMeans(store, e.key);
    var rest := Without(store, e.key);
    assert e.key !in Keys(rest);
    AppendMeans(rest, e);
    Larger(since, e.key);
    if key in Keys(store) && Behind(store, key) <= since {
      var x :| x in store && x.key == key;
      assert x in rest && key in Keys(rest);
    }
  }

  lemma Larger(since: set<string>, key: string)
    ensures |since + {key}| >= |since|
  {
    if key in since {
      assert since + {key} == since;
    }
  }

  lemma SubsetSize(a: set<string>, b: set<string>)
    requires a <= b
    ensures |a| <= |b|
  {
    assert b == a + (b - a);
    assert |a + (b - a)| == |a| + |b - a|;
  }

  // A new key pushes out the oldest entry.
  lemma EvictAccounted<V(!new)>(store: seq<Entry<V>>, e: Entry<V>, since: set<string>, key: string,
                          expiry: real, clock: real, maxItems: int)
    requires Distinct(store) && store != [] && |store| == maxItems && e.key !in Keys(store)
    requires key != e.key && Accounted(store, since, key, expiry, clock, maxItems)
    ensures Accounted(store[1..] + [e], since + {e.key}, key, expiry, clock, maxItems)
  {
    assert Keys(store) == {store[0].key} + Keys(store[1..]);
    AppendMeans(store[1..], e);
    Larger(since, e.key);
    KeysSize(store[1..]);
    if key in Keys(store) && Behind(store, key) <= since && key == store[0].key {
      SubsetSize(Keys(store[1..]) + {e.key}, since + {e.key});
    }
  }

  lemma LaterAccounted<V(!new)>(store: seq<Entry<V>>, since: set<string>, key: string, expiry: real, clock: real,
                                now: real, maxItems: int)
    requires Accounted(store, since, key, expiry, clock, maxItems) && clock <= now
    ensures Accounted(store, since, key, expiry, now, maxItems)
  {
  }

  lemma YoungestAccounted<V(!new)>(rest: seq<Entry<V>>, e: Entry<V>, expiry: real, clock: real, maxItems: int)
    requires Distinct(rest) && e.key !in Keys(rest)
    ensures Accounted(rest + [e], {}, e.key, expiry, clock, maxItems)
  {
    AppendMeans(rest, e);
  }

  lemma GetAccounted<V(!new)>(store: seq<Entry<V>>, ideal: map<string, (real, V)>, since: set<string>, key: string,
                              clock: real, k: string, now: real, maxItems: int)
    requires Distinct(store) && Agrees(store, ideal) && clock <= now
    requires key in ideal && Accounted(store, since, key, ideal[key].0, clock, maxItems)
    ensures Accounted(Step(store, Op.Get(k, now), maxItems), SinceStep(since, store, Op.Get(k, now), key), key,
                      ideal[key].0, now, maxItems)
  {
    hide Without, Behind, Distinct, Lookup, Accounted, Agrees;
    LookupMeans(store, k);
    if Lookup(store, k).Some? {
      var e := Lookup(store, k).value;
      WithoutMeans(store, k);
      if now > e.expiry {
        ExpireAccounted(store, e, since, key, ideal, clock, now, maxItems);
      } else if k == key {
        YoungestAccounted(Without(store, k), e, ideal[key].0, now, maxItems);
      } else {
        RefreshAccounted(store, e, since, key, ideal[key].0, clock, maxItems);
        LaterAccounted(Without(store, k) + [e], since + {k}, key, ideal[key].0, clock, now, maxItems);
      }
    } else {
      LaterAccounted(store, since, key, ideal[key].0, clock, now, maxItems);
    }
  }

  lemma StepAccounted<V(!new)>(store: seq<Entry<V>>, ideal: map<string, (real, V)>, since: set<string>, key: string,
                         clock: real, op: Op<V>, maxItems: int)
    requires Distinct(store) && Agrees(store, ideal) && |store| <= if maxItems > 0 then maxItems else 0
    requires key in ideal ==> Accounted(store, since, key, ideal[key].0, clock, maxItems)
    requires clock <= ClockStep(clock, op)
    requires key in IdealStep(ideal, op)
    ensures Accounted(Step(store, op, maxItems), SinceStep(since, store, op, key), key,
                      IdealStep(ideal, op)[key].0, ClockStep(clock, op), maxItems)
  {
    match op
    case Get(k, now) =>
      GetAccounted(store, ideal, since, key, clock, k, now, maxItems);
    case Set(k, value, expiry) =>
      SetAccounted(store, ideal, since, key, clock, k, value, expiry, maxItems);
    case Invalidate(k) =>
      WithoutMeans(store, k);
      RemovalAccounted(store, Without(store, k), since, key, ideal[key].0, clock, maxItems);
    case Clear =>
    case ClearPattern(matches) =>
      UnmatchedMeans(store, matches);
      RemovalAccounted(store, Unmatched(store, matches), since, key, ideal[key].0, clock, maxItems);
  }

  // Removing other entries keeps what is known of this one.
  lemma {:induction false} RemovalAccounted<V(!new)>(store: seq<Entry<V>>, rest: seq<Entry<V>>, since: set<string>, key: string,
                            expiry: real, clock: real, maxItems: int)
    requires Accounted(store, since, key, expiry, clock, maxItems)
    requires forall e :: e in store && e.key == key ==> e in rest
    requires Behind(rest, key) <= Behind(store, key)
    ensures Accounted(rest, since, key, expiry, clock, maxItems)
  {
    if key in Keys(store) {
      var e :| e in store && e.key == key;
      assert e in rest && key in Keys(rest);
    }
  }

  lemma {:induction false} ExpireAccounted<V(!new)>(store: seq<Entry<V>>, e: Entry<V>, since: set<string>, key: string,
                           ideal: map<string, (real, V)>, clock: real, now: real, maxItems: int)
    requires Distinct(store) && Agrees(store, ideal) && e in store && e.expiry < now && clock <= now
    requires key in ideal && Accounted(store, since, key, ideal[key].0, clock, maxItems)
    ensures Accounted(Without(store, e.key), since, key, ideal[key].0, now, maxItems)
  {
    WithoutMeans(store, e.key);
    if key != e.key {
      assert Accounted(store, since, key, ideal[key].0, now, maxItems);
      RemovalAccounted(store, Without(store, e.key), since, key, ideal[key].0, now, maxItems);
    }
  }

  lemma SetAccounted<V(!new)>(store: seq<Entry<V>>, ideal: map<string, (real, V)>, since: set<string>, key: string,
                        clock: real, k: string, value: V, expiry: real, maxItems: int)
    requires Distinct(store) && |store| <= if maxItems > 0 then maxItems else 0
    requires key in ideal ==> Accounted(store, since, key, ideal[key].0, clock, maxItems)
    requires key in ideal || key == k
    ensures Accounted(Step(store, Op.Set(k, value, expiry), maxItems), if key == k then {} else since + {k}, key,
                      if key == k then expiry else ideal[key].0, clock, maxItems)
  {
    var e := Entry(k, expiry, value);
    LookupMeans(store, k);
    if key == k {
      NewestAccounted(store, e, expiry, clock, maxItems);
    } else if k in Keys(store) {
      RefreshAccounted(store, e, since, key, ideal[key].0, clock, maxItems);
    } else if |store| < maxItems {
      AppendMeans(store, e);
      Larger(since, k);
    } else if store != [] {
      EvictAccounted(store, e, since, key, ideal[key].0, clock, maxItems);
    } else {
      Larger(since, k);
    }
  }

  lemma NewestAccounted<V(!new)>(store: seq<Entry<V>>, e: Entry<V>, expiry: real, clock: real, maxItems: int)
    requires Distinct(store)
    ensures Accounted(Step(store, Op.Set(e.key, e.value, e.expiry), maxItems), {}, e.key, expiry, clock, maxItems)
  {
    LookupMeans(store, e.key);
    WithoutMeans(store, e.key);
    if e.key in Keys(store) {
      AppendMeans(Without(store, e.key), e);
    } else if |store| < maxItems {
      AppendMeans(store, e);
    } else if store != [] {
      assert Keys(store) == {store[0].key} + Keys(store[1..]);
      AppendMeans(store[1..], e);
    }
  }

  lemma {:induction false} RunAccounted<V(!new)>(ops: seq<Op<V>>, maxItems: int, key: string, start: real)
    requires Timed(ops, start) && key in Ideal(ops)
    ensures Accounted(Run(ops, maxItems), TouchedSince(ops, maxItems, key), key, Ideal(ops)[key].0, Clock(ops, start), maxItems)
  {
    var front, op := ops[..|ops| - 1], ops[|ops| - 1];
    RunAgrees(front, maxItems);
    if key in Ideal(front) {
      RunAccounted(front, maxItems, key, start);
    }
    StepAccounted(Run(front, maxItems), Ideal(front), TouchedSince(front, maxItems, key), key, Clock(front, start), op, maxItems);
  }

  // An unexpired key that was not invalidated is hit, if fewer than maxItems other keys were
  // touched since its own last touch.
  lemma {:induction false} RecentKeysHit<V(!new)>(ops: seq<Op<V>>, maxItems: int, key: string, start: real, now: real)
    requires Timed(ops, start) && Clock(ops, start) <= now
    requires key in Ideal(ops) && now <= Ideal(ops)[key].0
    requires |TouchedSince(ops, maxItems, key)| < maxItems
    ensures Answer(Run(ops, maxItems), key, now) == Some(Ideal(ops)[key].1)
  {
    RunAccounted(ops, maxItems, key, start);
    RunAgrees(ops, maxItems);
    LookupMeans(Run(ops, maxItems), key);
  }
}
