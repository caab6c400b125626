// What the SQL splitter takes for quoted, said of texts and not of its lexer: a text is a row of
// characters, quoted passages and semicolons, and it is cut exactly at the semicolons of that row.
module SqlQuotes {
  import opened SqlSplitter

  datatype Quote = Single | Double | Dollar

  datatype Token =
    | Plain(c: char)
    | Quoted(quote: Quote, body: string)
    | Semicolon

  function Mark(q: Quote): (mark: string)
    ensures |mark| > 0
  {
    match q case Single => "'" case Double => "\"" case Dollar => "$$"
  }

  predicate At(mark: string, s: string, i: int) {
    0 <= i <= |s| - |mark| && s[i..i + |mark|] == mark
  }

  ghost predicate Occurs(mark: string, s: string) {
    exists i :: At(mark, s, i)
  }

  // The passage ends with the first closing mark: there is none before it.
  ghost predicate Closes(q: Quote, body: string) {
    !Occurs(Mark(q), body) && !(q == Dollar && body != "" && body[|body| - 1] == '$')
  }

  function Shown(t: Token): string {
    match t
    case Plain(c) => [c]
    case Quoted(q, body) => Mark(q) + body + Mark(q)
    case Semicolon => ";"
  }

  // The tokens, followed by the rest of the text.
  function Text(ts: seq<Token>, rest: string): string {
    if ts == [] then rest else Shown(ts[0]) + Text(ts[1..], rest)
  }

  // A plain character opens no quote and is no semicolon.
  ghost predicate WellFormed(ts: seq<Token>, rest: string) {
    ts != [] ==>
      && WellFormed(ts[1..], rest)
      && match ts[0]
         case Plain(c) =>
           c !in {'\'', '"', ';'} && (c == '$' ==> Text(ts[1..], rest) == "" || Text(ts[1..], rest)[0] != '$')
         case Quoted(q, body) => Closes(q, body)
         case Semicolon => true
  }

  // The rest holds nothing, or a passage that is opened and never closed.
  ghost predicate Unclosed(rest: string) {
    rest == "" || exists q, body :: rest == Mark(q) + body && !Occurs(Mark(q), body)
  }

  // The pieces between the semicolons.
  function Cut(ts: seq<Token>, rest: string): (pieces: seq<string>)
    ensures pieces != []
  {
    if ts == [] then [rest]
    else if ts[0].Semicolon? then [""] + Cut(ts[1..], rest)
    else [Shown(ts[0]) + Cut(ts[1..], rest)[0]] + Cut(ts[1..], rest)[1..]
  }

  // ----- one quoted passage --------------------------------------------------------------------

  function Inside(q: Quote): Mode {
    match q case Single => SingleQuoted case Double => DoubleQuoted case Dollar => DollarQuoted
  }

  lemma NotOccursTail(mark: string, s: string)
    requires s != "" && !Occurs(mark, s)
    ensures !Occurs(mark, s[1..])
  {
    if i :| At(mark, s[1..], i) {
      assert s[1..][i..i + |mark|] == s[i + 1..i + 1 + |mark|];
      assert At(mark, s, i + 1);
    }
  }

  lemma NoMarkAhead(q: Quote, s: string)
    requires s != "" && !Occurs(Mark(q), s)
    ensures q != Dollar ==> s[0] != Mark(q)[0]
    ensures q == Dollar ==> !(|s| >= 2 && s[0] == '$' && s[1] == '$')
  {
    assert !At(Mark(q), s, 0);
    if q != Dollar {
      assert s[0..1] == [s[0]] && Mark(q) == [Mark(q)[0]];
    } else if |s| >= 2 {
      assert s[0..2] == [s[0], s[1]];
    }
  }

  // From inside a passage the lexer takes everything up to and with the closing mark.
  lemma {:induction false} BodyStays(q: Quote, body: string, rest: string)
    requires Closes(q, body)
    ensures Pieces(body + Mark(q) + rest, Inside(q)) == Prepend(body + Mark(q), Pieces(rest, Neutral))
  {
    var t := body + Mark(q) + rest;
    if body == "" {
      assert t == Mark(q) + rest && t[|Mark(q)|..] == rest;
    } else {
      var tail := body[1..];
      NotOccursTail(Mark(q), body);
      NoMarkAhead(q, body);
      BodyStays(q, tail, rest);
      assert t[1..] == tail + Mark(q) + rest && t[0] == body[0];
      assert !Dollars(t, Inside(q)) by {
        if q == Dollar && |body| == 1 {
          assert t[0] != '$';
        }
      }
      assert Next(t[0], Inside(q)) == Inside(q);
      PrependTwice([body[0]], tail + Mark(q), Pieces(rest, Neutral));
      assert [body[0]] + (tail + Mark(q)) == body + Mark(q);
    }
  }

  // Outside of quotes an opening mark leads inside.
  lemma Opens(q: Quote, after: string)
    ensures Pieces(Mark(q) + after, Neutral) == Prepend(Mark(q), Pieces(after, Inside(q)))
  {
    var t := Mark(q) + after;
    assert t[|Mark(q)|..] == after;
    match q
    case Dollar => assert Dollars(t, Neutral);
    case Single => assert t[0] == '\'' && t[1..] == after;
    case Double => assert t[0] == '"' && t[1..] == after;
  }

  // A quoted passage is kept whole, whatever semicolons and other quotes it holds.
  lemma QuotedStays(q: Quote, body: string, rest: string)
    requires Closes(q, body)
    ensures Pieces(Mark(q) + body + Mark(q) + rest, Neutral) == Prepend(Mark(q) + body + Mark(q), Pieces(rest, Neutral))
  {
    hide Pieces, Mark, Closes, Prepend;
    var mark := Mark(q);
    BodyStays(q, body, rest);
    Opens(q, body + mark + rest);
    assert mark + (body + mark + rest) == mark + body + mark + rest;
    PrependTwice(mark, body + mark, Pieces(rest, Neutral));
    assert mark + (body + mark) == mark + body + mark;
  }

  lemma {:induction false} UnclosedBodyStays(q: Quote, body: string)
    requires !Occurs(Mark(q), body)
    ensures Pieces(body, Inside(q)) == [body]
  {
    if body != "" {
      NotOccursTail(Mark(q), body);
      NoMarkAhead(q, body);
      UnclosedBodyStays(q, body[1..]);
      assert !Dollars(body, Inside(q)) && Next(body[0], Inside(q)) == Inside(q);
      assert [body[0]] + body[1..] == body;
    }
  }

  lemma UnclosedStays(rest: string)
    requires Unclosed(rest)
    ensures Pieces(rest, Neutral) == [rest]
  {
    if rest != "" {
      var q, body :| rest == Mark(q) + body && !Occurs(Mark(q), body);
      UnclosedBodyStays(q, body);
      Opens(q, body);
    }
  }

  // ----- whole texts ----------------------------------------------------------------------------

  // A text is cut exactly at its semicolons outside of the quoted passages.
  lemma {:induction false} CutAtSemicolons(ts: seq<Token>, rest: string)
    requires WellFormed(ts, rest) && Unclosed(rest)
    ensures Pieces(Text(ts, rest), Neutral) == Cut(ts, rest)
  {
    hide Pieces;
    if ts == [] {
      UnclosedStays(rest);
    } else {
      var after := Text(ts[1..], rest);
      CutAtSemicolons(ts[1..], rest);
      match ts[0]
      case Plain(c) => PlainStays(c, after);
      case Quoted(q, body) => QuotedStays(q, body, after);
      case Semicolon => SemicolonCuts(after);
    }
  }

  lemma PlainStays(c: char, after: string)
    requires c !in {'\'', '"', ';'} && (c == '$' ==> after == "" || after[0] != '$')
    ensures Pieces([c] + after, Neutral) == Prepend([c], Pieces(after, Neutral))
  {
    assert ([c] + after)[1..] == after;
  }

  lemma SemicolonCuts(after: string)
    ensures Pieces(";" + after, Neutral) == [""] + Pieces(after, Neutral)
  {
    assert (";" + after)[1..] == after;
  }

  lemma FirstMark(mark: string, s: string) returns (i: nat)
    requires Occurs(mark, s)
    ensures At(mark, s, i) && forall j :: 0 <= j < i ==> !At(mark, s, j)
  {
    var found :| At(mark, s, found);
    i := 0;
    while !At(mark, s, i)
      invariant i <= found && forall j :: 0 <= j < i ==> !At(mark, s, j)
      decreases found - i
    {
      i := i + 1;
    }
  }

  // The passage up to the first closing mark.
  lemma FirstPassage(q: Quote, s: string) returns (body: string, after: string)
    requires Occurs(Mark(q), s)
    ensures s == body + Mark(q) + after && Closes(q, body)
  {
    var mark := Mark(q);
    var k := FirstMark(mark, s);
    body, after := s[..k], s[k + |mark|..];
    assert s == s[..k] + s[k..k + |mark|] + s[k + |mark|..];
    if i :| At(mark, body, i) {
      assert body[i..i + |mark|] == s[i..i + |mark|];
      assert At(mark, s, i);
    }
    if q == Dollar && k > 0 {
      assert !At(mark, s, k - 1);
      assert s[k..k + 2][0] == '$' && s[k - 1..k + 1] == [s[k - 1], s[k]];
    }
  }

  // Every text is such a row, so the law above says of every text where it is cut.
  lemma EveryTextIsCut(t: string) returns (ts: seq<Token>, rest: string)
    ensures t == Text(ts, rest) && WellFormed(ts, rest) && Unclosed(rest)
    ensures Pieces(t, Neutral) == Cut(ts, rest)
  {
    ts, rest := Tokens(t);
    CutAtSemicolons(ts, rest);
  }

  lemma {:induction false} Tokens(t: string) returns (ts: seq<Token>, rest: string)
    ensures t == Text(ts, rest) && WellFormed(ts, rest) && Unclosed(rest)
    decreases |t|
  {
    hide Closes, Occurs, Mark;
    if t == "" {
      ts, rest := [], "";
    } else if q :| Mark(q) <= t {
      var s := t[|Mark(q)|..];
      assert t == Mark(q) + s;
      if Occurs(Mark(q), s) {
        var body, after := FirstPassage(q, s);
        var later;
        later, rest := Tokens(after);
        Onto(Quoted(q, body), later, rest);
        ts := [Quoted(q, body)] + later;
        assert t == Mark(q) + body + Mark(q) + after;
      } else {
        ts, rest := [], t;
      }
    } else {
      NoMark(t);
      var later;
      later, rest := Tokens(t[1..]);
      var first := if t[0] == ';' then Semicolon else Plain(t[0]);
      Onto(first, later, rest);
      ts := [first] + later;
      assert t == [t[0]] + t[1..];
    }
  }

  lemma Onto(t: Token, ts: seq<Token>, rest: string)
    ensures Text([t] + ts, rest) == Shown(t) + Text(ts, rest) && ([t] + ts)[1..] == ts
  {
    assert ([t] + ts)[1..] == ts;
  }

  lemma NoMark(t: string)
    requires t != "" && forall q :: !(Mark(q) <= t)
    ensures t[0] != '\'' && t[0] != '"' && (t[0] == '$' ==> t[1..] == "" || t[1..][0] != '$')
  {
    assert !(Mark(Single) <= t) && !(Mark(Double) <= t) && !(Mark(Dollar) <= t);
    assert t[0] == '\'' ==> "'" <= t;
    assert t[0] == '"' ==> "\"" <= t;
    assert |t| > 1 && t[0] == '$' && t[1] == '$' ==> "$$" <= t;
  }

  // ----- the shape of the migrations ----------------------------------------------------------------

  lemma {:induction false} PlainPieces(s: string, after: string)
    requires forall i :: 0 <= i < |s| ==> s[i] !in {'\'', '"', ';', '$'}
    ensures Pieces(s + after, Neutral) == Prepend(s, Pieces(after, Neutral))
  {
    if s == "" {
      assert s + after == after;
      assert "" + Pieces(after, Neutral)[0] == Pieces(after, Neutral)[0];
    } else {
      PlainPieces(s[1..], after);
      assert s + after == [s[0]] + (s[1..] + after);
      PlainStays(s[0], s[1..] + after);
      PrependTwice([s[0]], s[1..], Pieces(after, Neutral));
      assert [s[0]] + s[1..] == s;
    }
  }

  // A block like DO $$ BEGIN ...; END; $$; is one statement, whatever stands between its marks.
  lemma BlockIsOneStatement(intro: string, body: string)
    requires forall i :: 0 <= i < |intro| ==> intro[i] !in {'\'', '"', ';', '$'}
    requires intro != "" && !IsSpace(intro[0]) && Closes(Dollar, body)
    ensures Split(intro + "$$" + body + "$$;") == [intro + "$$" + body + "$$"]
  {
    hide Pieces;
    var block := "$$" + body + "$$";
    var statement := intro + block;
    var t := intro + "$$" + body + "$$;";
    assert t == intro + (block + ";");
    assert block + ";" == Mark(Dollar) + body + Mark(Dollar) + ";";
    PlainPieces(intro, block + ";");
    QuotedStays(Dollar, body, ";");
    SemicolonCuts("");
    assert ";" + "" == ";";
    NothingLeft();
    assert Pieces(";", Neutral) == ["", ""];
    PrependTwice(intro, block, ["", ""]);
    assert statement + "" == statement && ["", ""][1..] == [""];
    assert Prepend(statement, ["", ""]) == [statement, ""];
    assert Trimmed(statement);
    StripTrims(statement);
    assert [statement, ""][1..] == [""] && [""][1..] == [];
    assert Strip("") == "";
    assert Pieces(t, Neutral) == [statement, ""];
    assert Clean([""]) == [];
    assert intro + "$$" + body + "$$" == statement;
  }

  lemma NothingLeft()
    ensures Pieces("", Neutral) == [""]
  {
  }

  // ----- trimming ------------------------------------------------------------------------------

  // strip removes white space at both ends and nothing else.
  lemma StripTakesOnlySpace(s: string) returns (left: string, right: string)
    ensures s == left + Strip(s) + right
    ensures (forall i :: 0 <= i < |left| ==> IsSpace(left[i])) && (forall i :: 0 <= i < |right| ==> IsSpace(right[i]))
  {
    left := LeftTakes(s);
    right := RightTakes(LeftStrip(s));
    assert s == left + (Strip(s) + right);
  }

  lemma {:induction false} LeftTakes(s: string) returns (left: string)
    ensures s == left + LeftStrip(s) && forall i :: 0 <= i < |left| ==> IsSpace(left[i])
  {
    if s != "" && IsSpace(s[0]) {
      var rest := LeftTakes(s[1..]);
      left := [s[0]] + rest;
      assert s == [s[0]] + s[1..];
    } else {
      left := "";
    }
  }

  lemma {:induction false} RightTakes(s: string) returns (right: string)
    ensures s == RightStrip(s) + right && forall i :: 0 <= i < |right| ==> IsSpace(right[i])
  {
    if s != "" && IsSpace(s[|s| - 1]) {
      var rest := RightTakes(s[..|s| - 1]);
      right := rest + [s[|s| - 1]];
      assert s == s[..|s| - 1] + [s[|s| - 1]];
    } else {
      right := "";
    }
  }
}
