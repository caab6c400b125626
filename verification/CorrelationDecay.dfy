// The score of one correlation group (heuristics/detector.py): the detections of a group are
// sorted by descending value and summed with weights 1, 1/5, 1/25, ...
module CorrelationDecay {

  function Pow(base: real, n: nat): real {
    if n == 0 then 1.0 else base * Pow(base, n - 1)
  }

  // sum(v * 0.20 ** (idx + 1) ...), the weight of the first element being 0.20 ** k.
  function SupportingSum(values: seq<real>, k: nat): real {
    if values == [] then 0.0 else values[0] * Pow(0.2, k) + SupportingSum(values[1..], k + 1)
  }

  // The same sum in nested form: v0 + (v1 + (v2 + ...) / 5) / 5.
  function DecaySum(values: seq<real>): real {
    if values == [] then 0.0 else values[0] + 0.2 * DecaySum(values[1..])
  }

  predicate Descending(values: seq<real>) {
    forall i, j :: 0 <= i < j < |values| ==> values[j] <= values[i]
  }

  predicate NonNegative(values: seq<real>) {
    forall i :: 0 <= i < |values| ==> 0.0 <= values[i]
  }

  function Insert(x: real, values: seq<real>): seq<real> {
    if values == [] || values[0] <= x then [x] + values else [values[0]] + Insert(x, values[1..])
  }

  function SortDescending(values: seq<real>): seq<real> {
    if values == [] then [] else Insert(values[0], SortDescending(values[1..]))
  }

  function GroupScore(values: seq<real>): real {
    var sum := DecaySum(SortDescending(values));
    if sum <= 100.0 then sum else 100.0
  }

  lemma {:induction false} SupportingSumIsScaledDecay(values: seq<real>, k: nat)
    ensures SupportingSum(values, k) == Pow(0.2, k) * DecaySum(values)
  {
    if values != [] {
      SupportingSumIsScaledDecay(values[1..], k + 1);
    }
  }

  lemma SameElements(p: seq<real>, s: seq<real>)
    requires multiset(p) == multiset(s)
    ensures |p| == |s| && forall v :: v in p <==> v in s
  {
    assert |p| == |multiset(p)| == |multiset(s)| == |s|;
    forall v ensures v in p <==> v in s {
      assert v in p <==> v in multiset(p);
      assert v in s <==> v in multiset(s);
    }
  }

  lemma {:induction false} InsertPermutes(x: real, values: seq<real>)
    ensures multiset(Insert(x, values)) == multiset([x] + values)
  {
    if values == [] || values[0] <= x {
    } else {
      InsertPermutes(x, values[1..]);
      assert values == [values[0]] + values[1..];
    }
  }

  lemma {:induction false} InsertBounded(x: real, values: seq<real>, m: real)
    requires x <= m && forall i :: 0 <= i < |values| ==> values[i] <= m
    ensures forall i :: 0 <= i < |Insert(x, values)| ==> Insert(x, values)[i] <= m
  {
    if values == [] || values[0] <= x {
    } else {
      InsertBounded(x, values[1..], m);
    }
  }

  lemma {:induction false} InsertDescending(x: real, values: seq<real>)
    requires Descending(values)
    ensures Descending(Insert(x, values))
  {
    if values == [] || values[0] <= x {
    } else {
      InsertDescending(x, values[1..]);
      InsertBounded(x, values[1..], values[0]);
    }
  }

  lemma {:induction false} SortCorrect(values: seq<real>)
    ensures Descending(SortDescending(values))
    ensures multiset(SortDescending(values)) == multiset(values)
  {
    if values != [] {
      SortCorrect(values[1..]);
      InsertDescending(values[0], SortDescending(values[1..]));
      InsertPermutes(values[0], SortDescending(values[1..]));
      assert values == [values[0]] + values[1..];
    }
  }

  // Moving an element that is at least as large as everything before it to the front never
  // lowers the sum.
  lemma {:induction false} MoveToFront(p: seq<real>, k: nat)
    requires k < |p| && forall j :: 0 <= j < k ==> p[j] <= p[k]
    ensures DecaySum(p) <= DecaySum([p[k]] + (p[..k] + p[k + 1..]))
  {
    if k == 0 {
      assert [p[0]] + (p[..0] + p[1..]) == p;
    } else {
      var q := p[1..];
      MoveToFront(q, k - 1);
      var q' := q[..k - 1] + q[k..];
      assert ([p[k]] + q')[1..] == q';
      var moved := [p[k]] + (p[..k] + p[k + 1..]);
      assert moved[1..] == [p[0]] + q';
      assert moved[1..][1..] == q';
      assert DecaySum(moved) == p[k] + 0.2 * DecaySum([p[0]] + q');
      assert DecaySum([p[0]] + q') == p[0] + 0.2 * DecaySum(q');
    }
  }

  lemma RemoveFromMultiset(p: seq<real>, k: nat, s: seq<real>)
    requires k < |p| && s != [] && s[0] == p[k] && multiset(p) == multiset(s)
    ensures multiset(p[..k] + p[k + 1..]) == multiset(s[1..])
  {
    assert p == p[..k] + [p[k]] + p[k + 1..];
    assert s == [s[0]] + s[1..];
    assert multiset(p[..k] + p[k + 1..]) == multiset(p) - multiset{p[k]};
  }

  // Among all orderings of the same values the descending one scores highest.
  lemma {:induction false} DescendingIsBest(p: seq<real>, s: seq<real>)
    requires Descending(s) && multiset(p) == multiset(s)
    ensures DecaySum(p) <= DecaySum(s)
    decreases |s|
  {
    SameElements(p, s);
    if s != [] {
      assert s[0] in s;
      var k :| 0 <= k < |p| && p[k] == s[0];
      assert forall v :: v in p ==> v in s && v <= s[0];
      assert forall j :: 0 <= j < |p| ==> p[j] in p;
      MoveToFront(p, k);
      RemoveFromMultiset(p, k, s);
      var rest := p[..k] + p[k + 1..];
      DescendingIsBest(rest, s[1..]);
      assert ([p[k]] + rest)[1..] == rest;
    }
  }

  lemma GroupScoreIsMaximal(values: seq<real>, p: seq<real>)
    requires multiset(p) == multiset(values)
    ensures DecaySum(p) <= DecaySum(SortDescending(values))
  {
    SortCorrect(values);
    DescendingIsBest(p, SortDescending(values));
  }

  // The order in which the rules reported their detections does not matter.
  lemma GroupScoreOrderIndependent(values: seq<real>, other: seq<real>)
    requires multiset(values) == multiset(other)
    ensures GroupScore(values) == GroupScore(other)
  {
    SortCorrect(values);
    SortCorrect(other);
    GroupScoreIsMaximal(values, SortDescending(other));
    GroupScoreIsMaximal(other, SortDescending(values));
  }

  lemma {:induction false} DecaySumNonNegative(values: seq<real>)
    requires NonNegative(values)
    ensures 0.0 <= DecaySum(values)
  {
    if values != [] {
      DecaySumNonNegative(values[1..]);
    }
  }

  lemma {:induction false} DecaySumBound(values: seq<real>, m: real)
    requires 0.0 <= m && forall i :: 0 <= i < |values| ==> values[i] <= m
    ensures DecaySum(values) <= 1.25 * m
  {
    if values != [] {
      DecaySumBound(values[1..], m);
    }
  }

  // A group never scores more than 5/4 of its primary detection, whatever the number of
  // supporting ones; it never scores less than the primary capped at 100.
  lemma GroupScoreFiveQuarters(values: seq<real>, primary: real)
    requires values != [] && NonNegative(values)
    requires primary in values && forall v :: v in values ==> v <= primary
    ensures (if primary <= 100.0 then primary else 100.0) <= GroupScore(values) <= 1.25 * primary
  {
    SortCorrect(values);
    var s := SortDescending(values);
    SameElements(values, s);
    assert primary in s && s[0] in values;
    assert forall i :: 0 <= i < |s| ==> s[i] in values;
    DecaySumNonNegative(s[1..]);
    DecaySumBound(s, primary);
  }

  lemma {:induction false} DecaySumAppend(values: seq<real>, x: real)
    requires 0.0 <= x
    ensures DecaySum(values) <= DecaySum(values + [x])
  {
    if values != [] {
      DecaySumAppend(values[1..], x);
      assert (values + [x])[1..] == values[1..] + [x];
    }
  }

  // One more detection never lowers the score of its group.
  lemma GroupScoreInsert(before: seq<real>, x: real, after: seq<real>)
    requires 0.0 <= x
    ensures GroupScore(before + after) <= GroupScore(before + [x] + after)
  {
    SortCorrect(before + after);
    var s := SortDescending(before + after);
    DecaySumAppend(s, x);
    assert multiset(s + [x]) == multiset(before + [x] + after);
    GroupScoreIsMaximal(before + [x] + after, s + [x]);
  }

  lemma {:induction false} DecaySumPointwise(a: seq<real>, b: seq<real>)
    requires |a| == |b| && forall i :: 0 <= i < |a| ==> a[i] <= b[i]
    ensures DecaySum(a) <= DecaySum(b)
  {
    if a != [] {
      DecaySumPointwise(a[1..], b[1..]);
    }
  }

  // Raising one detection never lowers the score of its group.
  lemma GroupScoreRaise(before: seq<real>, x: real, y: real, after: seq<real>)
    requires x <= y
    ensures GroupScore(before + [x] + after) <= GroupScore(before + [y] + after)
  {
    var low, high := before + [x] + after, before + [y] + after;
    SortCorrect(low);
    var s := SortDescending(low);
    SameElements(low, s);
    assert low[|before|] == x;
    assert x in low && x in s;
    var k :| 0 <= k < |s| && s[k] == x;
    DecaySumPointwise(s, s[k := y]);
    ReplaceInMultiset(s, k, y, before, after);
    GroupScoreIsMaximal(high, s[k := y]);
  }

  lemma MultisetCancel(a: multiset<real>, b: multiset<real>, x: real)
    requires a + multiset{x} == b + multiset{x}
    ensures a == b
  {
    forall v ensures a[v] == b[v] {
      assert (a + multiset{x})[v] == (b + multiset{x})[v];
    }
  }

  lemma ReplaceInMultiset(s: seq<real>, k: nat, y: real, before: seq<real>, after: seq<real>)
    requires k < |s| && multiset(s) == multiset(before + [s[k]] + after)
    ensures multiset(s[k := y]) == multiset(before + [y] + after)
  {
    var rest := multiset(before) + multiset(after);
    assert s == s[..k] + [s[k]] + s[k + 1..];
    assert s[k := y] == s[..k] + [y] + s[k + 1..];
    assert multiset(s) == multiset(s[..k]) + multiset(s[k + 1..]) + multiset{s[k]};
    assert multiset(before + [s[k]] + after) == rest + multiset{s[k]};
    MultisetCancel(multiset(s[..k]) + multiset(s[k + 1..]), rest, s[k]);
  }
}
