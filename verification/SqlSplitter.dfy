// split_sql_statements of server/storage/migration_runner.py: a lexer with three quote flags
// that cuts a script at its top-level semicolons.
module SqlSplitter {

  datatype Mode = Neutral | SingleQuoted | DoubleQuoted | DollarQuoted

  // str.strip() removes these characters at both ends.
  predicate IsSpace(c: char) {
    || '\t' <= c <= '\r' || '\U{1C}' <= c <= ' ' || c == '\U{85}' || c == '\U{A0}' || c == '\U{1680}'
    || '\U{2000}' <= c <= '\U{200A}' || c == '\U{2028}' || c == '\U{2029}' || c == '\U{202F}'
    || c == '\U{205F}' || c == '\U{3000}'
  }

  function LeftStrip(s: string): string {
    if s != "" && IsSpace(s[0]) then LeftStrip(s[1..]) else s
  }

  function RightStrip(s: string): string {
    if s != "" && IsSpace(s[|s| - 1]) then RightStrip(s[..|s| - 1]) else s
  }

  function Strip(s: string): string {
    RightStrip(LeftStrip(s))
  }

  // ----- specification: the pieces between top-level semicolons --------------------------

  predicate Dollars(t: string, m: Mode) {
    |t| >= 2 && t[0] == '$' && t[1] == '$' && m != SingleQuoted && m != DoubleQuoted
  }

  function ToggleDollar(m: Mode): Mode {
    if m == DollarQuoted then Neutral else DollarQuoted
  }

  function Next(c: char, m: Mode): Mode {
    if c == '\'' && m == Neutral then SingleQuoted
    else if c == '\'' && m == SingleQuoted then Neutral
    else if c == '"' && m == Neutral then DoubleQuoted
    else if c == '"' && m == DoubleQuoted then Neutral
    else m
  }

  function Prepend(p: string, pieces: seq<string>): seq<string>
    requires pieces != []
  {
    [p + pieces[0]] + pieces[1..]
  }

  function Pieces(t: string, m: Mode): (ps: seq<string>)
    ensures ps != []
  {
    if t == "" then [""]
    else if Dollars(t, m) then Prepend("$$", Pieces(t[2..], ToggleDollar(m)))
    else if t[0] == ';' && m == Neutral then [""] + Pieces(t[1..], Neutral)
    else Prepend([t[0]], Pieces(t[1..], Next(t[0], m)))
  }

  // The mode in which the text ends.
  function EndMode(t: string, m: Mode): Mode {
    if t == "" then m
    else if Dollars(t, m) then EndMode(t[2..], ToggleDollar(m))
    else EndMode(t[1..], Next(t[0], m))
  }

  // The trimmed pieces that are not empty.
  function Clean(pieces: seq<string>): seq<string> {
    if pieces == [] then []
    else (if Strip(pieces[0]) != "" then [Strip(pieces[0])] else []) + Clean(pieces[1..])
  }

  function Split(t: string): seq<string> {
    Clean(Pieces(t, Neutral))
  }

  function Join(pieces: seq<string>): string {
    if pieces == [] then ""
    else if |pieces| == 1 then pieces[0]
    else pieces[0] + ";" + Join(pieces[1..])
  }

  // ----- the code --------------------------------------------------------------------------

  function ModeOf(single: bool, double: bool, dollar: bool): Mode {
    if single then SingleQuoted else if double then DoubleQuoted else if dollar then DollarQuoted else Neutral
  }

  predicate AtMostOne(single: bool, double: bool, dollar: bool) {
    !(single && double) && !(single && dollar) && !(double && dollar)
  }

  // The loop keeps at most one of its three flags set, and what it has emitted together with
  // what the rest of the text will yield is the whole result.
  method SplitSqlStatements(text: string) returns (statements: seq<string>)
    ensures statements == Split(text)
  {
    hide Pieces, Clean, Prepend, Strip;
    statements := [];
    var current := "";
    var inSingle, inDouble, inDollar := false, false, false;
    var i := 0;
    StartSplit(text);
    while i < |text|
      invariant 0 <= i <= |text|
      invariant AtMostOne(inSingle, inDouble, inDollar)
      invariant statements + Pending(current, text, i, ModeOf(inSingle, inDouble, inDollar)) == Split(text)
    {
      ghost var m := ModeOf(inSingle, inDouble, inDollar);
      var c := text[i];
      if c == '$' && i + 1 < |text| && text[i + 1] == '$' && !inSingle && !inDouble {
        TakeDollars(current, text, i, m);
        inDollar := !inDollar;
        current := current + "$$";
        i := i + 2;
        continue;
      }
      if c == '\'' && !inDouble && !inDollar {
        inSingle := !inSingle;
      } else if c == '"' && !inSingle && !inDollar {
        inDouble := !inDouble;
      } else if c == ';' && !inSingle && !inDouble && !inDollar {
        TakeCut(current, text, i);
        var statement := Strip(current);
        if statement != "" {
          statements := statements + [statement];
        }
        current := "";
        i := i + 1;
        continue;
      }
      TakeChar(current, text, i, m);
      current := current + [c];
      i := i + 1;
    }
    TakeTail(current, text, ModeOf(inSingle, inDouble, inDollar));
    var tail := Strip(current);
    if tail != "" {
      statements := statements + [tail];
    }
  }

  // The statements still to come when `current` has been collected and text[i..] is left.
  function Pending(current: string, text: string, i: nat, m: Mode): seq<string>
    requires i <= |text|
  {
    Clean(Prepend(current, Pieces(text[i..], m)))
  }

  lemma StartSplit(text: string)
    ensures Pending("", text, 0, Neutral) == Split(text)
  {
    assert text[0..] == text;
    assert "" + Pieces(text, Neutral)[0] == Pieces(text, Neutral)[0];
  }

  lemma TakeDollars(current: string, text: string, i: nat, m: Mode)
    requires i <= |text| && Dollars(text[i..], m)
    ensures Pending(current, text, i, m) == Pending(current + "$$", text, i + 2, ToggleDollar(m))
  {
    assert text[i..][2..] == text[i + 2..];
    PrependTwice(current, "$$", Pieces(text[i + 2..], ToggleDollar(m)));
  }

  lemma TakeChar(current: string, text: string, i: nat, m: Mode)
    requires i < |text| && !Dollars(text[i..], m) && !(text[i] == ';' && m == Neutral)
    ensures Pending(current, text, i, m) == Pending(current + [text[i]], text, i + 1, Next(text[i], m))
  {
    assert text[i..][1..] == text[i + 1..];
    PrependTwice(current, [text[i]], Pieces(text[i + 1..], Next(text[i], m)));
  }

  lemma TakeCut(current: string, text: string, i: nat)
    requires i < |text| && text[i] == ';'
    ensures Pending(current, text, i, Neutral)
         == (if Strip(current) != "" then [Strip(current)] else []) + Pending("", text, i + 1, Neutral)
  {
    var rest := Pieces(text[i + 1..], Neutral);
    assert text[i..][1..] == text[i + 1..];
    assert current + "" == current;
    assert Prepend(current, [""] + rest)[1..] == rest;
    assert "" + rest[0] == rest[0];
    assert Prepend("", rest) == rest;
  }

  lemma TakeTail(current: string, text: string, m: Mode)
    ensures Pending(current, text, |text|, m) == if Strip(current) != "" then [Strip(current)] else []
  {
    assert text[|text|..] == "";
    assert current + "" == current;
    assert Prepend(current, [""]) == [current];
    assert [current][1..] == [];
    assert Clean([current]) == (if Strip(current) != "" then [Strip(current)] else []) + [];
  }

  lemma PrependTwice(a: string, b: string, ps: seq<string>)
    requires ps != []
    ensures Prepend(a, Prepend(b, ps)) == Prepend(a + b, ps)
  {
    assert a + (b + ps[0]) == a + b + ps[0];
  }

  // ----- nothing is lost ---------------------------------------------------------------------

  // The untrimmed pieces, rejoined with their semicolons, are exactly the input.
  lemma {:induction false} PiecesRejoin(t: string, m: Mode)
    ensures Join(Pieces(t, m)) == t
  {
    if t == "" {
    } else if Dollars(t, m) {
      PiecesRejoin(t[2..], ToggleDollar(m));
      JoinPrepend("$$", Pieces(t[2..], ToggleDollar(m)));
      assert t == "$$" + t[2..];
    } else if t[0] == ';' && m == Neutral {
      PiecesRejoin(t[1..], Neutral);
      assert Pieces(t, m)[1..] == Pieces(t[1..], Neutral);
      assert t == ";" + t[1..];
    } else {
      PiecesRejoin(t[1..], Next(t[0], m));
      JoinPrepend([t[0]], Pieces(t[1..], Next(t[0], m)));
      assert t == [t[0]] + t[1..];
    }
  }

  lemma JoinPrepend(p: string, ps: seq<string>)
    requires ps != []
    ensures Join(Prepend(p, ps)) == p + Join(ps)
  {
    assert Prepend(p, ps)[1..] == ps[1..];
  }

  lemma FirstPieceIsPrefix(t: string, m: Mode)
    ensures Pieces(t, m)[0] <= t
  {
    PiecesRejoin(t, m);
  }

  // ----- a piece is atomic: lexed on its own it is not cut again -------------------------------

  ghost predicate Atomic(p: string, m: Mode) {
    Pieces(p, m) == [p]
  }

  // Pieces of a text that starts in mode m: each is atomic, and all but the last are closed.
  ghost predicate WellCut(ps: seq<string>, m: Mode) {
    && ps != []
    && Atomic(ps[0], m)
    && (forall k :: 1 <= k < |ps| ==> Atomic(ps[k], Neutral))
    && (|ps| > 1 ==> EndMode(ps[0], m) == Neutral)
    && (forall k :: 1 <= k < |ps| - 1 ==> EndMode(ps[k], Neutral) == Neutral)
  }

  lemma {:induction false} PiecesAreWellCut(t: string, m: Mode)
    ensures WellCut(Pieces(t, m), m)
  {
    if t == "" {
    } else if Dollars(t, m) {
      PiecesAreWellCut(t[2..], ToggleDollar(m));
      ExtendDollars(Pieces(t[2..], ToggleDollar(m)), m);
    } else if t[0] == ';' && m == Neutral {
      PiecesAreWellCut(t[1..], Neutral);
    } else {
      PiecesAreWellCut(t[1..], Next(t[0], m));
      FirstPieceIsPrefix(t[1..], Next(t[0], m));
      ExtendChar(t[0], Pieces(t[1..], Next(t[0], m)), m);
    }
  }

  lemma ExtendDollars(ps: seq<string>, m: Mode)
    requires WellCut(ps, ToggleDollar(m)) && m != SingleQuoted && m != DoubleQuoted
    ensures WellCut(Prepend("$$", ps), m)
  {
    var p := "$$" + ps[0];
    assert p[2..] == ps[0];
    assert Dollars(p, m);
    assert Pieces(p, m) == Prepend("$$", [ps[0]]);
  }

  lemma ExtendChar(c: char, ps: seq<string>, m: Mode)
    requires WellCut(ps, Next(c, m)) && !(c == ';' && m == Neutral)
    requires !Dollars([c] + ps[0], m)
    ensures WellCut(Prepend([c], ps), m)
  {
    var p := [c] + ps[0];
    assert p[1..] == ps[0];
    assert Pieces(p, m) == Prepend([c], [ps[0]]);
  }

  // Conversely there is only one way to cut a text like that: the pieces are determined by
  // being atomic, closed except for the last, and rejoining to the text.
  lemma {:induction false} CutIsUnique(ps: seq<string>, m: Mode)
    requires WellCut(ps, m)
    ensures Pieces(Join(ps), m) == ps
  {
    if |ps| > 1 {
      var rest := ps[1..];
      CutIsUnique(rest, Neutral);
      CutAfter(ps[0], m, Join(rest));
    } else {
      assert ps == [ps[0]];
    }
  }

  lemma UnPrepend(c: string, ps: seq<string>, p: string)
    requires ps != [] && Prepend(c, ps) == [p]
    ensures c <= p && ps == [p[|c|..]]
  {
    assert |Prepend(c, ps)| == |ps| == 1;
    assert Prepend(c, ps)[0] == c + ps[0] == p;
  }

  lemma CutMakesTwo(p: string, m: Mode)
    ensures p != "" && p[0] == ';' && m == Neutral ==> |Pieces(p, m)| >= 2
  {
  }

  lemma AtomicTail(p: string, m: Mode)
    requires Atomic(p, m) && p != "" && !Dollars(p, m)
    ensures !(p[0] == ';' && m == Neutral) && p == [p[0]] + p[1..]
    ensures Atomic(p[1..], Next(p[0], m)) && EndMode(p, m) == EndMode(p[1..], Next(p[0], m))
  {
    CutMakesTwo(p, m);
    UnPrepend([p[0]], Pieces(p[1..], Next(p[0], m)), p);
  }

  lemma AtomicAfterDollars(p: string, m: Mode)
    requires Atomic(p, m) && Dollars(p, m)
    ensures p == "$$" + p[2..]
    ensures Atomic(p[2..], ToggleDollar(m)) && EndMode(p, m) == EndMode(p[2..], ToggleDollar(m))
  {
    UnPrepend("$$", Pieces(p[2..], ToggleDollar(m)), p);
  }

  lemma {:induction false} CutAfter(p: string, m: Mode, rest: string)
    requires Atomic(p, m) && EndMode(p, m) == Neutral
    ensures Pieces(p + ";" + rest, m) == [p] + Pieces(rest, Neutral)
  {
    var t := p + ";" + rest;
    if p == "" {
      assert t[1..] == rest;
    } else if Dollars(p, m) {
      AtomicAfterDollars(p, m);
      CutAfter(p[2..], ToggleDollar(m), rest);
      assert t[2..] == p[2..] + ";" + rest;
    } else {
      AtomicTail(p, m);
      CutAfter(p[1..], Next(p[0], m), rest);
      assert t[1..] == p[1..] + ";" + rest;
      assert !Dollars(t, m);
    }
  }

  // ----- trimming -------------------------------------------------------------------------------

  lemma {:induction false} LeftStripAtomic(p: string)
    requires Atomic(p, Neutral)
    ensures Atomic(LeftStrip(p), Neutral) && EndMode(LeftStrip(p), Neutral) == EndMode(p, Neutral)
  {
    if p != "" && IsSpace(p[0]) {
      AtomicTail(p, Neutral);
      LeftStripAtomic(p[1..]);
    }
  }

  lemma AtomicCons(c: char, q: string, m: Mode)
    requires Atomic(q, Next(c, m)) && !(c == ';' && m == Neutral) && !Dollars([c] + q, m)
    ensures Atomic([c] + q, m) && EndMode([c] + q, m) == EndMode(q, Next(c, m))
  {
    assert ([c] + q)[1..] == q;
  }

  lemma AtomicConsDollars(q: string, m: Mode)
    requires Atomic(q, ToggleDollar(m)) && m != SingleQuoted && m != DoubleQuoted
    ensures Atomic("$$" + q, m) && EndMode("$$" + q, m) == EndMode(q, ToggleDollar(m))
  {
    assert ("$$" + q)[2..] == q;
  }

  lemma {:induction false} DropLastSpace(p: string, m: Mode)
    requires p != "" && IsSpace(p[|p| - 1]) && Atomic(p, m)
    ensures Atomic(p[..|p| - 1], m) && EndMode(p[..|p| - 1], m) == EndMode(p, m)
  {
    hide Pieces;
    var q := p[..|p| - 1];
    if |p| == 1 {
      EmptyIsAtomic(m);
      assert EndMode(p[1..], Next(p[0], m)) == m;
    } else if Dollars(p, m) {
      AtomicAfterDollars(p, m);
      DropLastSpace(p[2..], ToggleDollar(m));
      assert q == "$$" + p[2..][..|p| - 3];
      AtomicConsDollars(p[2..][..|p| - 3], m);
    } else {
      AtomicTail(p, m);
      DropLastSpace(p[1..], Next(p[0], m));
      assert q == [p[0]] + p[1..][..|p| - 2];
      AtomicCons(p[0], p[1..][..|p| - 2], m);
    }
  }

  lemma EmptyIsAtomic(m: Mode)
    ensures Atomic("", m)
  {
  }

  lemma {:induction false} RightStripAtomic(p: string)
    requires Atomic(p, Neutral)
    ensures Atomic(RightStrip(p), Neutral) && EndMode(RightStrip(p), Neutral) == EndMode(p, Neutral)
  {
    if p != "" && IsSpace(p[|p| - 1]) {
      DropLastSpace(p, Neutral);
      RightStripAtomic(p[..|p| - 1]);
    }
  }

  predicate Trimmed(s: string) {
    s != "" && !IsSpace(s[0]) && !IsSpace(s[|s| - 1])
  }

  lemma {:induction false} RightStripEnds(s: string)
    ensures RightStrip(s) <= s && (RightStrip(s) == "" || !IsSpace(RightStrip(s)[|RightStrip(s)| - 1]))
  {
    if s != "" && IsSpace(s[|s| - 1]) {
      RightStripEnds(s[..|s| - 1]);
    }
  }

  lemma {:induction false} LeftStripEnds(s: string)
    ensures LeftStrip(s) == "" || !IsSpace(LeftStrip(s)[0])
  {
    if s != "" && IsSpace(s[0]) {
      LeftStripEnds(s[1..]);
    }
  }

  lemma StripTrims(s: string)
    ensures Strip(s) == "" || Trimmed(Strip(s))
    ensures Trimmed(s) ==> Strip(s) == s
  {
    LeftStripEnds(s);
    RightStripEnds(LeftStrip(s));
  }

  // ----- normal form ------------------------------------------------------------------------------

  // What a list of emitted statements satisfies: trimmed, atomic, closed except for the last.
  ghost predicate Statements(ss: seq<string>) {
    && (forall k :: 0 <= k < |ss| ==> Trimmed(ss[k]) && Atomic(ss[k], Neutral))
    && (forall k :: 0 <= k < |ss| - 1 ==> EndMode(ss[k], Neutral) == Neutral)
  }

  lemma StripStatement(p: string)
    requires Atomic(p, Neutral)
    ensures Atomic(Strip(p), Neutral) && EndMode(Strip(p), Neutral) == EndMode(p, Neutral)
    ensures Strip(p) == "" || Trimmed(Strip(p))
  {
    StripTrims(p);
    LeftStripAtomic(p);
    RightStripAtomic(LeftStrip(p));
  }

  lemma {:induction false} CleanGivesStatements(ps: seq<string>)
    requires WellCut(ps, Neutral)
    ensures Statements(Clean(ps))
  {
    hide Pieces, EndMode, Strip, Trimmed;
    StripStatement(ps[0]);
    if |ps| > 1 {
      var rest := ps[1..];
      assert forall k :: 0 <= k < |rest| ==> rest[k] == ps[k + 1];
      CleanGivesStatements(rest);
    } else {
      assert Clean(ps[1..]) == [];
    }
  }

  lemma {:induction false} CleanKeeps(ss: seq<string>)
    requires Statements(ss)
    ensures Clean(ss) == ss
  {
    if ss != [] {
      StripTrims(ss[0]);
      CleanKeeps(ss[1..]);
      assert ss == [ss[0]] + ss[1..];
    }
  }

  // Every emitted statement is non-empty, trimmed, and re-splits to itself.
  lemma EmittedStatements(t: string)
    ensures Statements(Split(t))
    ensures forall k :: 0 <= k < |Split(t)| ==> Split(Split(t)[k]) == [Split(t)[k]]
  {
    PiecesAreWellCut(t, Neutral);
    CleanGivesStatements(Pieces(t, Neutral));
    forall k | 0 <= k < |Split(t)| ensures Split(Split(t)[k]) == [Split(t)[k]] {
      CleanKeeps([Split(t)[k]]);
    }
  }

  // split(join(";", split(t))) == split(t), for every text.
  lemma SplitJoinSplit(t: string)
    ensures Split(Join(Split(t))) == Split(t)
  {
    EmittedStatements(t);
    var ss := Split(t);
    if ss == [] {
      assert Pieces("", Neutral) == [""];
      assert Clean([""]) == [] by { assert [""][1..] == []; }
    } else {
      CutIsUnique(ss, Neutral);
      CleanKeeps(ss);
    }
  }
}
