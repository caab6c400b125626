// The few string operations the modelled code relies on, over sequences of characters.
module Text {

  datatype Option<+T> = None | Some(value: T)

  function LowerChar(c: char): char {
    if 'A' <= c <= 'Z' then c + ' ' else c
  }

  function UpperChar(c: char): char {
    if 'a' <= c <= 'z' then c - ' ' else c
  }

  function Lower(s: string): (r: string)
    ensures |r| == |s|
  {
    seq(|s|, i requires 0 <= i < |s| => LowerChar(s[i]))
  }

  function Upper(s: string): (r: string)
    ensures |r| == |s|
  {
    seq(|s|, i requires 0 <= i < |s| => UpperChar(s[i]))
  }

  // Python's `sub in s`.
  predicate Contains(s: string, sub: string) {
    sub <= s || (s != "" && Contains(s[1..], sub))
  }

  predicate EndsWith(s: string, suffix: string) {
    |suffix| <= |s| && s[|s| - |suffix|..] == suffix
  }

  // ----- substrings of known names -------------------------------------------------------------

  lemma {:induction false} ContainsAt(s: string, sub: string, k: nat)
    requires k + |sub| <= |s| && s[k..k + |sub|] == sub
    ensures Contains(s, sub)
  {
    if k > 0 {
      assert s[1..][k - 1..k - 1 + |sub|] == sub;
      ContainsAt(s[1..], sub, k - 1);
    } else {
      assert sub <= s;
    }
  }

  lemma {:induction false} ContainsWhere(s: string, sub: string) returns (k: nat)
    requires Contains(s, sub)
    ensures k + |sub| <= |s| && s[k..k + |sub|] == sub
  {
    if sub <= s {
      k := 0;
    } else {
      var i := ContainsWhere(s[1..], sub);
      k := i + 1;
      assert s[1..][i..i + |sub|] == s[k..k + |sub|];
    }
  }

  // A name without one of the letters of a word does not contain the word.
  lemma Lacks(s: string, sub: string, i: nat)
    ensures i < |sub| && sub[i] !in s ==> !Contains(s, sub)
  {
    if i < |sub| && Contains(s, sub) {
      var k := ContainsWhere(s, sub);
      assert s[k + i] == s[k..k + |sub|][i] == sub[i];
    }
  }

  // Nor one in which one of its letters is never followed by the next.
  lemma LacksPair(s: string, sub: string, i: nat)
    ensures i + 1 < |sub| && (forall k :: 0 <= k < |s| - 1 && s[k] == sub[i] ==> s[k + 1] != sub[i + 1]) ==> !Contains(s, sub)
  {
    if i + 1 < |sub| && Contains(s, sub) {
      var k := ContainsWhere(s, sub);
      assert s[k + i] == s[k..k + |sub|][i] && s[k + i + 1] == s[k..k + |sub|][i + 1];
    }
  }
}
