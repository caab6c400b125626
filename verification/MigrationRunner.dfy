// server/storage/migration_runner.py: a script runs in one transaction, and is recorded in
// schema_migrations in another; the process may stop between any two committed actions.
module MigrationRunner {
  import opened Text
  import opened SqlSplitter

  datatype File = File(name: string, sql: string)

  // What executing one statement does: it succeeds, it is a comment ("empty query", skipped),
  // or it raises.
  datatype Outcome = Succeeds | EmptyQuery | Raises

  datatype Status = Completed | Aborted | Crashed

  // What the log of a database shows: a script was started, its transaction was committed
  // with these statements, its name was recorded.
  datatype Entry =
    | Started(name: string)
    | Executed(name: string, statements: seq<string>)
    | Recorded(name: string)

  // The circumstances of one run: whether reading schema_migrations works, how many actions
  // the process lives for, and how each statement of each file fares.
  datatype Fate = Fate(selectOk: bool, lifetime: nat, outcome: (string, nat) -> Outcome)

  function Statement(sql: string, isSqlite: bool, rewrite: string -> string, k: nat): string
    requires k < |Split(sql)|
  {
    if isSqlite then Split(sql)[k] else rewrite(Split(sql)[k])
  }

  // The statements of the first n that take effect when none of them raises.
  function Effective(file: File, isSqlite: bool, rewrite: string -> string, outcome: (string, nat) -> Outcome, n: nat): seq<string>
    requires n <= |Split(file.sql)|
  {
    if n == 0 then []
    else
      Effective(file, isSqlite, rewrite, outcome, n - 1) +
      if Strip(Statement(file.sql, isSqlite, rewrite, n - 1)) != "" && outcome(file.name, n - 1) == Succeeds
      then [Statement(file.sql, isSqlite, rewrite, n - 1)] else []
  }

  ghost predicate NoneRaises(file: File, isSqlite: bool, rewrite: string -> string, outcome: (string, nat) -> Outcome, n: nat)
    requires n <= |Split(file.sql)|
  {
    forall k :: 0 <= k < n ==>
      Strip(Statement(file.sql, isSqlite, rewrite, k)) == "" || outcome(file.name, k) != Raises
  }

  // ----- the order in which things happened, read off the log ------------------------------

  function Records(log: seq<Entry>): seq<string> {
    if log == [] then []
    else Records(log[..|log| - 1]) + if log[|log| - 1].Recorded? then [log[|log| - 1].name] else []
  }

  function Effects(log: seq<Entry>): seq<string> {
    if log == [] then []
    else Effects(log[..|log| - 1]) + if log[|log| - 1].Executed? then log[|log| - 1].statements else []
  }

  ghost predicate Distinct(names: seq<string>) {
    forall i, j :: 0 <= i < j < |names| ==> names[i] != names[j]
  }

  // When entry p was written, every file before the one it names had been recorded.
  ghost predicate EarlierRecorded(log: seq<Entry>, names: seq<string>, p: nat)
    requires p < |log|
  {
    exists i :: 0 <= i < |names| && names[i] == log[p].name && i <= |Records(log[..p])|
  }

  // A commit directly follows the start of its script, a record the commit.
  ghost predicate Follows(log: seq<Entry>, p: nat)
    requires p < |log|
  {
    match log[p]
    case Started(_) => true
    case Executed(name, _) => p > 0 && log[p - 1] == Started(name)
    case Recorded(name) => p > 0 && log[p - 1].Executed? && log[p - 1].name == name
  }

  ghost predicate Sound(log: seq<Entry>, recorded: seq<string>, names: seq<string>) {
    && recorded <= names
    && Records(log) == recorded
    && forall p :: 0 <= p < |log| ==> EarlierRecorded(log, names, p) && Follows(log, p)
  }

  lemma ReadAppend(log: seq<Entry>, e: Entry)
    ensures Records(log + [e]) == Records(log) + if e.Recorded? then [e.name] else []
    ensures Effects(log + [e]) == Effects(log) + if e.Executed? then e.statements else []
  {
    assert (log + [e])[..|log + [e]| - 1] == log;
  }

  lemma EarlierEntryKept(log: seq<Entry>, e: Entry, names: seq<string>, p: nat)
    requires p < |log| && EarlierRecorded(log, names, p) && Follows(log, p)
    ensures EarlierRecorded(log + [e], names, p) && Follows(log + [e], p)
  {
    hide Records;
    assert (log + [e])[..p] == log[..p] && (log + [e])[p] == log[p];
    assert p > 0 ==> (log + [e])[p - 1] == log[p - 1];
    var i :| 0 <= i < |names| && names[i] == log[p].name && i <= |Records(log[..p])|;
    assert names[i] == (log + [e])[p].name && i <= |Records((log + [e])[..p])|;
  }

  // One more entry, about file k of the list.
  lemma SoundAppend(log: seq<Entry>, recorded: seq<string>, names: seq<string>, e: Entry, k: nat)
    requires Sound(log, recorded, names) && k < |names| && names[k] == e.name && k <= |recorded|
    requires Follows(log + [e], |log|)
    requires e.Recorded? ==> k == |recorded|
    ensures Sound(log + [e], if e.Recorded? then recorded + [e.name] else recorded, names)
    ensures Effects(log + [e]) == Effects(log) + if e.Executed? then e.statements else []
  {
    ReadAppend(log, e);
    hide Records, Effects, Follows;
    assert (log + [e])[..|log|] == log && (log + [e])[|log|] == e;
    assert EarlierRecorded(log + [e], names, |log|);
    forall p | 0 <= p < |log + [e]| ensures EarlierRecorded(log + [e], names, p) && Follows(log + [e], p) {
      if p < |log| {
        EarlierEntryKept(log, e, names, p);
      }
    }
  }

  // ----- what a sound log promises -----------------------------------------------------------

  lemma {:induction false} RecordsGrow(log: seq<Entry>, p: nat)
    requires p <= |log|
    ensures Records(log[..p]) <= Records(log)
  {
    if p == |log| {
      assert log[..p] == log;
    } else {
      RecordsGrow(log[..|log| - 1], p);
      assert log[..|log| - 1][..p] == log[..p];
    }
  }

  // Recorded migrations are a prefix of the applicable list, and whatever was ever started or
  // executed is recorded or is the single next file.
  lemma AtMostOneAhead(log: seq<Entry>, recorded: seq<string>, names: seq<string>, p: nat)
    requires Sound(log, recorded, names) && p < |log|
    ensures recorded == names[..|recorded|]
    ensures log[p].name in recorded || (|recorded| < |names| && log[p].name == names[|recorded|])
  {
    assert EarlierRecorded(log, names, p);
    var i :| 0 <= i < |names| && names[i] == log[p].name && i <= |Records(log[..p])|;
    RecordsGrow(log, p);
    if i < |recorded| {
      assert recorded[i] == names[i];
    }
  }

  // No file starts before all earlier ones have been recorded.
  lemma NoFileStartsEarly(log: seq<Entry>, recorded: seq<string>, names: seq<string>, p: nat, i: nat, j: nat)
    requires Sound(log, recorded, names) && Distinct(names)
    requires p < |log| && j < i < |names| && log[p] == Started(names[i])
    ensures exists q :: 0 <= q < p && log[q] == Recorded(names[j])
  {
    assert EarlierRecorded(log, names, p);
    RecordsGrow(log, p);
    assert recorded[j] == names[j];
    assert Records(log[..p])[j] == names[j];
    RecordedEarlier(log[..p], names[j]);
  }

  lemma {:induction false} RecordedEarlier(log: seq<Entry>, name: string)
    requires name in Records(log)
    ensures exists q :: 0 <= q < |log| && log[q] == Recorded(name)
  {
    var front := log[..|log| - 1];
    if name in Records(front) {
      RecordedEarlier(front, name);
      var q :| 0 <= q < |front| && front[q] == Recorded(name);
      assert log[q] == Recorded(name);
    } else {
      assert log[|log| - 1] == Recorded(name);
    }
  }

  // ----- the code ----------------------------------------------------------------------------

  class Database {
    const isSqlite: bool
    const rewrite: string -> string
    var recorded: seq<string>     // schema_migrations, in insertion order
    var committed: seq<string>    // every statement whose transaction was committed
    ghost var log: seq<Entry>

    constructor (isSqlite: bool, rewrite: string -> string)
      ensures this.isSqlite == isSqlite && this.rewrite == rewrite
      ensures recorded == [] && committed == [] && log == []
    {
      this.isSqlite, this.rewrite := isSqlite, rewrite;
      recorded, committed, log := [], [], [];
    }

    ghost predicate Valid(names: seq<string>)
      reads this
    {
      Sound(log, recorded, names) && committed == Effects(log)
    }

    // One script in one transaction: all of its statements, or none.
    method RunSqlScript(file: File, outcome: (string, nat) -> Outcome) returns (ok: bool, count: nat)
      modifies this`committed
      ensures ok <==> NoneRaises(file, isSqlite, rewrite, outcome, |Split(file.sql)|)
      ensures committed == old(committed) +
        if ok then Effective(file, isSqlite, rewrite, outcome, |Split(file.sql)|) else []
      ensures ok ==> count == |Effective(file, isSqlite, rewrite, outcome, |Split(file.sql)|)|
    {
      hide Split, Strip, EndsWith, Contains;
      var statements := SplitSqlStatements(file.sql);
      var pending: seq<string> := [];
      count := 0;
      for k := 0 to |statements|
        invariant NoneRaises(file, isSqlite, rewrite, outcome, k)
        invariant pending == Effective(file, isSqlite, rewrite, outcome, k) && count == |pending|
      {
        var statement := if isSqlite then statements[k] else rewrite(statements[k]);
        if Strip(statement) == "" {
          continue;
        }
        match outcome(file.name, k) {
          case Succeeds =>
            pending := pending + [statement];
            count := count + 1;
          case EmptyQuery =>
          case Raises =>
            return false, count;
        }
      }
      committed := committed + pending;
      ok := true;
    }

    function Applies(name: string): bool {
      !(EndsWith(name, "_pg.sql") && isSqlite)
    }

    // The names of the files that apply to this database, in the order of the listing.
    function Applicable(files: seq<File>): (names: seq<string>)
      ensures forall n :: n in names ==> exists i :: 0 <= i < |files| && files[i].name == n
    {
      if files == [] then []
      else Applicable(files[..|files| - 1]) +
           if Applies(files[|files| - 1].name) then [files[|files| - 1].name] else []
    }

    method ExecuteFile(file: File, ghost names: seq<string>, ghost k: nat, outcome: (string, nat) -> Outcome)
      returns (ok: bool, count: nat)
      requires Valid(names) && k < |names| && names[k] == file.name && k <= |recorded|
      modifies this`committed, this`log
      ensures Valid(names) && old(log) <= log && |old(log)| < |log|
      ensures ok ==> log[|log| - 1].Executed? && log[|log| - 1].name == file.name
      ensures ok <==> NoneRaises(file, isSqlite, rewrite, outcome, |Split(file.sql)|)
      ensures committed == old(committed) +
        if ok then Effective(file, isSqlite, rewrite, outcome, |Split(file.sql)|) else []
    {
      hide Records, Effects, EarlierRecorded, Effective, NoneRaises, Split;
      SoundAppend(log, recorded, names, Started(file.name), k);
      log := log + [Started(file.name)];
      ok, count := RunSqlScript(file, outcome);
      if ok {
        ghost var statements := Effective(file, isSqlite, rewrite, outcome, |Split(file.sql)|);
        SoundAppend(log, recorded, names, Executed(file.name, statements), k);
        log := log + [Executed(file.name, statements)];
      }
    }

    method RecordFile(file: File, ghost names: seq<string>, ghost k: nat) returns (ok: bool)
      requires Valid(names) && Distinct(names)
      requires k < |names| && names[k] == file.name && k <= |recorded|
      requires |log| > 0 && log[|log| - 1].Executed? && log[|log| - 1].name == file.name
      modifies this`recorded, this`log
      ensures Valid(names) && old(log) <= log
      ensures ok <==> file.name !in old(recorded)
      ensures ok ==> k == |old(recorded)|
      ensures recorded == old(recorded) + if ok then [file.name] else []
    {
      hide Records, Effects, EarlierRecorded;
      assert k < |recorded| ==> recorded[k] == file.name;
      if file.name in recorded {
        return false;    // the primary key of schema_migrations refuses the row
      }
      SoundAppend(log, recorded, names, Recorded(file.name), k);
      recorded := recorded + [file.name];
      log := log + [Recorded(file.name)];
      ok := true;
    }

    // The body of the loop for a file that is not skipped: run it, then record it. `k` is its
    // position among the applicable names, `lifetime` what is left of the process.
    method ApplyFile(file: File, ghost names: seq<string>, ghost k: nat, outcome: (string, nat) -> Outcome, lifetime: nat)
      returns (status: Status, left: nat)
      requires Valid(names) && Distinct(names)
      requires k < |names| && names[k] == file.name && k <= |recorded|
      modifies this
      ensures Valid(names)
      ensures recorded == old(recorded) + if status == Completed then [file.name] else []
      ensures status == Completed ==> k == |old(recorded)|
      ensures old(log) <= log && (lifetime > 0 ==> |old(log)| < |log|)
      ensures lifetime >= 2 && NoneRaises(file, isSqlite, rewrite, outcome, |Split(file.sql)|) && file.name !in old(recorded) ==>
        status == Completed && left == lifetime - 2
        && committed == old(committed) + Effective(file, isSqlite, rewrite, outcome, |Split(file.sql)|)
    {
      hide Valid, NoneRaises, Effective;
      if lifetime == 0 {
        return Crashed, 0;
      }
      var ok, _ := ExecuteFile(file, names, k, outcome);
      if !ok {
        return Aborted, lifetime - 1;
      }
      if lifetime == 1 {
        return Crashed, 0;
      }
      ok := RecordFile(file, names, k);
      status := if ok then Completed else Aborted;
      left := lifetime - 2;
    }

    // A run in which nothing goes wrong: the records can be read, no statement raises, and the
    // process lives long enough.
    ghost predicate Smooth(files: seq<File>, fate: Fate) {
      && fate.selectOk && fate.lifetime >= 2 * |files|
      && forall i :: 0 <= i < |files| ==>
           NoneRaises(files[i], isSqlite, rewrite, fate.outcome, |Split(files[i].sql)|)
    }

    // One run over the directory. Whatever goes wrong, the log stays sound.
    method ApplyMigrationsDir(files: seq<File>, fate: Fate) returns (status: Status)
      requires Distinct(Applicable(files)) && Valid(Applicable(files))
      modifies this
      ensures Valid(Applicable(files))
      ensures old(log) <= log && old(recorded) <= recorded
      ensures status == Completed ==> recorded == Applicable(files)
      ensures Smooth(files, fate) ==> status == Completed
      ensures old(recorded) == Applicable(files) && fate.selectOk ==> status == Completed && log == old(log)
      ensures old(recorded) != [] && !fate.selectOk ==> status != Completed && recorded == old(recorded)
      ensures old(recorded) != [] && !fate.selectOk && fate.lifetime > 0 ==> |log| > |old(log)|
    {
      hide NoneRaises, Sound, Records, Effects, Contains, EndsWith, Smooth, Distinct, Applicable, Valid;
      ghost var names := Applicable(files);
      ghost var smooth := Smooth(files, fate);
      SmoothMeans(files, fate);
      ValidIsPrefix(names);
      var applied: set<string> := {};
      if fate.selectOk {
        applied := set n | n in recorded;
      }
      NoneApplicable(files);
      var left: nat := fate.lifetime;
      for i := 0 to |files|
        invariant Valid(names) && old(log) <= log && old(recorded) <= recorded
        invariant Applicable(files[..i]) <= names && Applicable(files[..i]) <= recorded
        invariant recorded == old(recorded) || recorded == Applicable(files[..i])
        invariant fate.selectOk && old(recorded) == names ==> log == old(log)
        invariant smooth ==> left >= 2 * (|files| - i)
        invariant recorded <= names
        invariant !fate.selectOk && old(recorded) != [] ==>
          Applicable(files[..i]) == [] && log == old(log) && recorded == old(recorded) && left == fate.lifetime
      {
        ghost var k := |Applicable(files[..i])|;
        NextApplicable(files, i);
        var name := files[i].name;
        if EndsWith(name, "_pg.sql") && isSqlite {
          continue;
        }
        ApplicableGrows(files, i);
        if name in applied {
          SkippedIsRecorded(names, k, old(recorded));
          continue;
        }
        NotYetRecorded(names, k, old(recorded), recorded, Applicable(files[..i]), name);
        status, left := ApplyFile(files[i], names, k, fate.outcome, left);
        ValidIsPrefix(names);
        if status != Completed {
          return;
        }
      }
      assert files[..|files|] == files;
      status := Completed;
    }

    // A name of the list that is recorded is recorded at its own position.
    lemma SkippedIsRecorded(names: seq<string>, k: nat, recorded: seq<string>)
      requires Distinct(names) && recorded <= names && k < |names| && names[k] in recorded
      ensures k < |recorded| && recorded[k] == names[k]
    {
      var j :| 0 <= j < |recorded| && recorded[j] == names[k];
      assert names[j] == names[k];
    }

    lemma NoneApplicable(files: seq<File>)
      ensures Applicable(files[..0]) == []
    {
    }

    lemma NextApplicable(files: seq<File>, i: nat)
      requires i < |files|
      ensures Applicable(files[..i + 1]) ==
        Applicable(files[..i]) + if Applies(files[i].name) then [files[i].name] else []
    {
      assert files[..i + 1][..i] == files[..i];
    }

    lemma SmoothMeans(files: seq<File>, fate: Fate)
      ensures Smooth(files, fate) ==> fate.selectOk && fate.lifetime >= 2 * |files|
      ensures forall i :: Smooth(files, fate) && 0 <= i < |files| ==>
        NoneRaises(files[i], isSqlite, rewrite, fate.outcome, |Split(files[i].sql)|)
    {
    }

    lemma ValidIsPrefix(names: seq<string>)
      requires Valid(names)
      ensures recorded <= names
    {
    }

    lemma NotYetRecorded(names: seq<string>, k: nat, before: seq<string>, now: seq<string>, done: seq<string>, name: string)
      requires Distinct(names) && k < |names| && names[k] == name && done == names[..k]
      ensures name !in before && (now == before || now == done) ==> name !in now
    {
    }

    // Any number of runs over the same files, each with its own fate.
    method RunMany(files: seq<File>, fates: seq<Fate>)
      requires Distinct(Applicable(files)) && Valid(Applicable(files))
      modifies this
      ensures Valid(Applicable(files)) && old(log) <= log && old(recorded) <= recorded
      ensures (exists r :: 0 <= r < |fates| && Smooth(files, fates[r])) ==> recorded == Applicable(files)
    {
      hide Smooth, Applicable;
      for r := 0 to |fates|
        invariant Valid(Applicable(files)) && old(log) <= log && old(recorded) <= recorded
        invariant (exists q :: 0 <= q < r && Smooth(files, fates[q])) ==> recorded == Applicable(files)
      {
        ghost var before := recorded;
        var _ := ApplyMigrationsDir(files, fates[r]);
        assert before <= recorded <= Applicable(files);
      }
    }

    // PostgreSQL gets every file, in order; SQLite every one whose name does not end in _pg.sql.
    lemma {:induction false} ApplicableExactly(files: seq<File>, n: string)
      ensures !isSqlite ==>
        |Applicable(files)| == |files| && forall i :: 0 <= i < |files| ==> Applicable(files)[i] == files[i].name
      ensures n in Applicable(files) <==>
        (exists i :: 0 <= i < |files| && files[i].name == n) && !(isSqlite && exists a :: n == a + "_pg.sql")
    {
      PgSuffix(n);
      if files != [] {
        var front, last := files[..|files| - 1], files[|files| - 1];
        ApplicableExactly(front, n);
        hide EndsWith;
        if i :| 0 <= i < |files| && files[i].name == n && i != |front| {
          assert front[i].name == n;
        }
      }
    }

    lemma PgSuffix(n: string)
      ensures EndsWith(n, "_pg.sql") <==> exists a :: n == a + "_pg.sql"
    {
      if EndsWith(n, "_pg.sql") {
        assert n == n[..|n| - 7] + "_pg.sql";
      }
    }

    lemma ApplicableGrows(files: seq<File>, i: nat)
      requires i < |files|
      ensures Applicable(files[..i + 1]) <= Applicable(files)
      decreases |files| - i
    {
      if i + 1 == |files| {
        assert files[..i + 1] == files;
      } else {
        ApplicableGrows(files, i + 1);
        assert files[..i + 2][..i + 1] == files[..i + 1];
      }
    }
  }

  // ----- what a script does when nothing is wrong with it ------------------------------------------

  // On SQLite, when every statement succeeds, exactly the statements of the script take effect.
  lemma {:induction false} EveryStatementRuns(file: File, rewrite: string -> string, outcome: (string, nat) -> Outcome, n: nat)
    requires n <= |Split(file.sql)| && forall k :: 0 <= k < n ==> outcome(file.name, k) == Succeeds
    ensures Effective(file, true, rewrite, outcome, n) == Split(file.sql)[..n]
  {
    hide Split, Strip;
    if n > 0 {
      EveryStatementRuns(file, rewrite, outcome, n - 1);
      EmittedAreNotBlank(file.sql, n - 1);
      assert Split(file.sql)[..n] == Split(file.sql)[..n - 1] + [Split(file.sql)[n - 1]];
    }
  }

  lemma EmittedAreNotBlank(sql: string, k: nat)
    requires k < |Split(sql)|
    ensures Strip(Split(sql)[k]) != ""
  {
    hide Split, Strip;
    EmittedStatements(sql);
    StripTrims(Split(sql)[k]);
  }

  // In general the statements that take effect are those, in order, that are not blank and succeed;
  // comments are passed over.
  lemma {:induction false} EffectiveIsPicked(file: File, isSqlite: bool, rewrite: string -> string,
                                             outcome: (string, nat) -> Outcome, n: nat) returns (picked: seq<nat>)
    requires n <= |Split(file.sql)|
    ensures forall i, j :: 0 <= i < j < |picked| ==> picked[i] < picked[j]
    ensures forall k: nat :: k in picked <==>
      k < n && Strip(Statement(file.sql, isSqlite, rewrite, k)) != "" && outcome(file.name, k) == Succeeds
    ensures |Effective(file, isSqlite, rewrite, outcome, n)| == |picked|
    ensures forall i :: 0 <= i < |picked| ==>
      && picked[i] < n
      && Effective(file, isSqlite, rewrite, outcome, n)[i] == Statement(file.sql, isSqlite, rewrite, picked[i])
  {
    hide Split, Strip, Statement;
    if n == 0 {
      picked := [];
    } else {
      picked := EffectiveIsPicked(file, isSqlite, rewrite, outcome, n - 1);
      if Strip(Statement(file.sql, isSqlite, rewrite, n - 1)) != "" && outcome(file.name, n - 1) == Succeeds {
        picked := picked + [n - 1];
      }
    }
  }
}
