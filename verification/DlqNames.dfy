// The names of the dead-letter files of server/storage/clickhouse_batcher.py: how they are
// built from a table, a timestamp and a process id, and how replay reads the table back.
module DlqNames {

  function Digits(n: nat): string {
    if n < 10 then [('0' as int + n) as char] else Digits(n / 10) + [('0' as int + n % 10) as char]
  }

  // dlq_{table}_{timestamp}_{pid}, the suffix .jsonl left out.
  function Stem(table: string, timestamp: nat, pid: nat): string {
    "dlq_" + table + "_" + Digits(timestamp) + "_" + Digits(pid)
  }

  // str.split("_")
  function SplitUnderscore(s: string): (parts: seq<string>)
    ensures parts != []
  {
    if s == "" then [""]
    else
      var rest := SplitUnderscore(s[1..]);
      if s[0] == '_' then [""] + rest else [[s[0]] + rest[0]] + rest[1..]
  }

  // The table replay inserts into: parts[1], or none when there is a single part.
  function TargetTable(stem: string): string {
    var parts := SplitUnderscore(stem);
    if |parts| >= 2 then parts[1] else ""
  }

  // What comes before the last underscore; applied twice it undoes Stem for every table.
  function BeforeLast(s: string): string {
    if s == "" then ""
    else if s[|s| - 1] == '_' then s[..|s| - 1]
    else BeforeLast(s[..|s| - 1])
  }

  function OriginTable(stem: string): string {
    var name := BeforeLast(BeforeLast(stem));
    if |name| >= 4 then name[4..] else ""
  }

  function UpToUnderscore(s: string): string {
    if s == "" || s[0] == '_' then "" else [s[0]] + UpToUnderscore(s[1..])
  }

  lemma {:induction false} DigitsHaveNoUnderscore(n: nat)
    ensures '_' !in Digits(n)
  {
    if n >= 10 {
      DigitsHaveNoUnderscore(n / 10);
    }
  }

  lemma {:induction false} BeforeLastCuts(a: string, d: string)
    requires '_' !in d
    ensures BeforeLast(a + "_" + d) == a
  {
    var s := a + "_" + d;
    if d == "" {
      assert s[..|s| - 1] == a;
    } else {
      var d' := d[..|d| - 1];
      assert s[..|s| - 1] == a + "_" + d';
      assert s[|s| - 1] == d[|d| - 1];
      BeforeLastCuts(a, d');
    }
  }

  // The name determines the table, so two tables never share a file.
  lemma OriginOfStem(table: string, timestamp: nat, pid: nat)
    ensures OriginTable(Stem(table, timestamp, pid)) == table
  {
    DigitsHaveNoUnderscore(timestamp);
    DigitsHaveNoUnderscore(pid);
    BeforeLastCuts("dlq_" + table + "_" + Digits(timestamp), Digits(pid));
    BeforeLastCuts("dlq_" + table, Digits(timestamp));
  }

  lemma {:induction false} FirstPart(s: string)
    ensures SplitUnderscore(s)[0] == UpToUnderscore(s)
  {
    if s != "" {
      FirstPart(s[1..]);
    }
  }

  lemma {:induction false} UpToUnderscoreOf(table: string, rest: string)
    ensures UpToUnderscore(table + "_" + rest) == UpToUnderscore(table)
    ensures UpToUnderscore(table) == table <==> '_' !in table
  {
    var s := table + "_" + rest;
    if table != "" {
      UpToUnderscoreOf(table[1..], rest);
      assert s[1..] == table[1..] + "_" + rest;
      assert table == [table[0]] + table[1..];
    }
  }

  lemma SplitAfterPrefix(rest: string)
    ensures TargetTable("dlq_" + rest) == UpToUnderscore(rest)
  {
    var s := "dlq_" + rest;
    assert s[1..] == "lq_" + rest;
    assert s[1..][1..] == "q_" + rest;
    assert s[1..][1..][1..] == "_" + rest;
    assert s[1..][1..][1..][1..] == rest;
    FirstPart(rest);
    assert SplitUnderscore("_" + rest) == [""] + SplitUnderscore(rest);
    assert SplitUnderscore("q_" + rest)[1..] == SplitUnderscore(rest);
    assert SplitUnderscore("lq_" + rest)[1..] == SplitUnderscore(rest);
    assert SplitUnderscore(s)[1..] == SplitUnderscore(rest);
    assert SplitUnderscore(s)[1] == SplitUnderscore(rest)[0];
  }

  // Replay recovers the table exactly when its name has no underscore.
  lemma ReplayFindsTableIff(table: string, timestamp: nat, pid: nat)
    ensures TargetTable(Stem(table, timestamp, pid)) == table <==> '_' !in table
  {
    var rest := Digits(timestamp) + "_" + Digits(pid);
    assert Stem(table, timestamp, pid) == "dlq_" + (table + "_" + rest);
    SplitAfterPrefix(table + "_" + rest);
    UpToUnderscoreOf(table, rest);
  }

  // ----- which files a replay of one table takes ---------------------------------------------------

  // Replaying table t alone takes the files of t, of every table whose name goes on from t after an
  // underscore, and, if t ends in a time stamp, the one of that table and time.
  lemma FilterExactly(t: string, table: string, timestamp: nat, pid: nat)
    ensures "dlq_" + t + "_" <= Stem(table, timestamp, pid) <==>
      t == table || t + "_" <= table || t == table + "_" + Digits(timestamp)
  {
    var d, e := Digits(timestamp), Digits(pid);
    var rest := table + "_" + d + "_" + e;
    assert Stem(table, timestamp, pid) == "dlq_" + rest;
    assert "dlq_" + t + "_" == "dlq_" + (t + "_");
    PrefixOfBoth("dlq_", t + "_", rest);
    if t + "_" <= rest {
      MarkIsAnUnderscore(t, table, d, e, timestamp, pid);
    }
    assert t == table ==> rest == t + "_" + (d + "_" + e);
    assert rest == table + ("_" + d + "_" + e);
    assert t == table + "_" + d ==> rest == t + "_" + e;
  }

  lemma PrefixOfBoth(p: string, a: string, b: string)
    ensures p + a <= p + b <==> a <= b
  {
    assert (p + b)[|p|..] == b;
    if p + a <= p + b {
      assert (p + b)[..|p + a|] == p + a;
      assert b[..|a|] == (p + b)[|p|..|p + a|] == a;
    }
  }

  lemma MarkIsAnUnderscore(t: string, table: string, d: string, e: string, timestamp: nat, pid: nat)
    requires d == Digits(timestamp) && e == Digits(pid) && t + "_" <= table + "_" + d + "_" + e
    ensures t == table || t + "_" <= table || t == table + "_" + d
  {
    var rest := table + "_" + d + "_" + e;
    var n := |t|;
    assert |table| < n < |table| + 1 + |d| ==> rest[n] in d;
    assert |table| + 1 + |d| < n < |rest| ==> rest[n] in e;
    assert rest[n] == (t + "_")[n] == '_' && rest[..n] == t;
    DigitsHaveNoUnderscore(timestamp);
    DigitsHaveNoUnderscore(pid);
    if n < |table| {
      assert rest[..n + 1] == table[..n + 1];
    } else if n == |table| {
      assert rest[..n] == table;
    } else {
      assert rest[..n] == table + "_" + d;
    }
  }
}
