// The dead-letter directory of server/storage/clickhouse_batcher.py as threads and processes
// share it. Spooling opens a file for appending, writes, and closes; replay reads a file, inserts
// its rows, and removes the name. No lock spans any of this, so the calls interleave freely.
module DlqFiles {
  import opened Ledger
  import opened Text

  // A file, which keeps its rows when its name is removed. `delivered` is how many of its first
  // rows some replay has inserted.
  datatype Inode = Inode(stem: string, rows: seq<Row>, linked: bool, delivered: nat)

  // What a replay holds: the first rows of a file, as it read them.
  datatype Held = Held(file: nat, length: nat, inserted: bool)

  datatype Dir = Dir(files: seq<Inode>, readers: map<nat, Held>)

  // A failing insert or unlink, or a crash, makes a replay abandon what it holds.
  datatype Event =
    | Open(stem: string)
    | Write(file: nat, rows: seq<Row>)
    | Read(r: nat, file: nat)
    | Insert(r: nat)
    | Unlink(r: nat)
    | Abandon(r: nat)

  const EMPTY_DIR := Dir([], map[])

  // The file a name leads to.
  function LinkedAt(files: seq<Inode>, stem: string): (i: Option<nat>)
    ensures i.Some? ==> i.value < |files| && files[i.value].linked && files[i.value].stem == stem
    ensures i == None ==> forall k :: 0 <= k < |files| ==> !(files[k].linked && files[k].stem == stem)
  {
    if files == [] then None
    else if files[|files| - 1].linked && files[|files| - 1].stem == stem then Some(|files| - 1)
    else LinkedAt(files[..|files| - 1], stem)
  }

  function Opened(files: seq<Inode>, stem: string): seq<Inode> {
    if LinkedAt(files, stem).Some? then files else files + [Inode(stem, [], true, 0)]
  }

  function Written(files: seq<Inode>, j: nat, rows: seq<Row>): seq<Inode>
    requires j < |files|
  {
    files[j := files[j].(rows := files[j].rows + rows)]
  }

  function Delivered(files: seq<Inode>, j: nat, length: nat): seq<Inode>
    requires j < |files|
  {
    files[j := files[j].(delivered := if length > files[j].delivered then length else files[j].delivered)]
  }

  function Unlinked(files: seq<Inode>, i: nat): seq<Inode>
    requires i < |files|
  {
    files[i := files[i].(linked := false)]
  }

  // The file the name read by this replay leads to now.
  function Target(d: Dir, r: nat): Option<nat>
    requires r in d.readers && d.readers[r].file < |d.files|
  {
    LinkedAt(d.files, d.files[d.readers[r].file].stem)
  }

  ghost predicate Valid(d: Dir) {
    && (forall i, j :: 0 <= i < j < |d.files| && d.files[i].linked && d.files[j].linked ==> d.files[i].stem != d.files[j].stem)
    && (forall i :: 0 <= i < |d.files| ==> d.files[i].delivered <= |d.files[i].rows|)
    && (forall r :: r in d.readers ==> HeldWithin(d, d.readers[r]))
  }

  ghost predicate HeldWithin(d: Dir, h: Held) {
    h.file < |d.files| && h.length <= |d.files[h.file].rows| && (h.inserted ==> h.length <= d.files[h.file].delivered)
  }

  ghost predicate Enabled(d: Dir, ev: Event) {
    match ev
    case Open(_) => true
    case Write(j, _) => j < |d.files|
    case Read(r, j) => r !in d.readers && j < |d.files| && d.files[j].linked
    case Insert(r) => r in d.readers && d.readers[r].file < |d.files| && !d.readers[r].inserted
    case Unlink(r) => r in d.readers && d.readers[r].file < |d.files| && d.readers[r].inserted && Target(d, r).Some?
    case Abandon(r) => r in d.readers
  }

  // A file without rows needs no insert.
  ghost function Next(d: Dir, ev: Event): Dir
    requires Enabled(d, ev)
  {
    match ev
    case Open(stem) => d.(files := Opened(d.files, stem))
    case Write(j, rows) => d.(files := Written(d.files, j, rows))
    case Read(r, j) => d.(readers := d.readers[r := Held(j, |d.files[j].rows|, d.files[j].rows == [])])
    case Insert(r) =>
      var h := d.readers[r];
      Dir(Delivered(d.files, h.file, h.length), d.readers[r := h.(inserted := true)])
    case Unlink(r) => Dir(Unlinked(d.files, Target(d, r).value), d.readers - {r})
    case Abandon(r) => d.(readers := d.readers - {r})
  }

  ghost function Apply(d: Dir, ev: Event): Dir {
    if Enabled(d, ev) then Next(d, ev) else d
  }

  ghost function Run(d: Dir, trace: seq<Event>): Dir {
    if trace == [] then d else Apply(Run(d, trace[..|trace| - 1]), trace[|trace| - 1])
  }

  lemma NextValid(d: Dir, ev: Event)
    requires Valid(d) && Enabled(d, ev)
    ensures Valid(Next(d, ev))
  {
    hide LinkedAt;
    match ev
    case Write(j, _) =>
    case Insert(r) => assert HeldWithin(d, d.readers[r]);
    case _ =>
  }

  lemma {:induction false} RunValid(d: Dir, trace: seq<Event>)
    requires Valid(d)
    ensures Valid(Run(d, trace))
  {
    hide Next, Enabled, Valid;
    if trace != [] {
      RunValid(d, trace[..|trace| - 1]);
      if Enabled(Run(d, trace[..|trace| - 1]), trace[|trace| - 1]) {
        NextValid(Run(d, trace[..|trace| - 1]), trace[|trace| - 1]);
      }
    }
  }

  // ----- when rows are lost -------------------------------------------------------------------------

  // A replay other than `but` holds all rows of the file.
  ghost predicate HeldByOther(d: Dir, i: nat, but: nat)
    requires i < |d.files|
  {
    exists r :: r in d.readers && r != but && d.readers[r].file == i && d.readers[r].length == |d.files[i].rows|
  }

  ghost predicate HeldWhole(d: Dir, i: nat)
    requires i < |d.files|
  {
    exists r :: r in d.readers && d.readers[r].file == i && d.readers[r].length == |d.files[i].rows|
  }

  // Every row of the file is still under a name, inserted, or in the hands of a replay.
  ghost predicate Kept(d: Dir, i: nat)
    requires i < |d.files|
  {
    d.files[i].linked || d.files[i].delivered == |d.files[i].rows| || HeldWhole(d, i)
  }

  ghost predicate AllKept(d: Dir) {
    forall i :: 0 <= i < |d.files| ==> Kept(d, i)
  }

  // The steps that lose rows: rows written to a file whose name is gone; a name removed from rows
  // that no replay has read; the only copy of removed rows abandoned.
  ghost predicate Loses(d: Dir, ev: Event) {
    && Enabled(d, ev)
    && match ev
       case Write(j, rows) => rows != [] && !d.files[j].linked
       case Unlink(r) =>
         var i := Target(d, r).value;
         d.files[i].delivered < |d.files[i].rows| && !HeldWhole(d, i)
       case Abandon(r) =>
         var h := d.readers[r];
         h.file < |d.files| && !d.files[h.file].linked && d.files[h.file].delivered < |d.files[h.file].rows|
         && h.length == |d.files[h.file].rows| && !HeldByOther(d, h.file, r)
       case _ => false
  }

  lemma OthersKept(d: Dir, ev: Event, i: nat)
    requires Valid(d) && Enabled(d, ev) && i < |d.files| && i < |Next(d, ev).files|
    requires ev.Open? || ev.Read? || ev.Insert?
    ensures Kept(Next(d, ev), i) <==> Kept(d, i)
  {
    var d' := Next(d, ev);
    if r :| r in d.readers && d.readers[r].file == i && d.readers[r].length == |d.files[i].rows| {
      assert r in d'.readers && d'.readers[r].length == |d'.files[i].rows|;
    }
    if r :| r in d'.readers && d'.readers[r].file == i && d'.readers[r].length == |d'.files[i].rows| && !d.files[i].linked {
      assert r in d.readers && d.readers[r].file == i && d.readers[r].length == |d.files[i].rows|;
    }
  }

  lemma WriteKept(d: Dir, j: nat, rows: seq<Row>, i: nat)
    requires Valid(d) && j < |d.files| && i < |d.files|
    ensures Kept(Next(d, Write(j, rows)), i) <==> Kept(d, i) && !(i == j && rows != [] && !d.files[j].linked)
  {
  }

  lemma UnlinkKept(d: Dir, r: nat, i: nat)
    requires Valid(d) && Enabled(d, Unlink(r)) && i < |d.files|
    ensures Kept(Next(d, Unlink(r)), i) <==>
      Kept(d, i) && !(i == Target(d, r).value && d.files[i].delivered < |d.files[i].rows| && !HeldWhole(d, i))
  {
    var d' := Next(d, Unlink(r));
    if q :| q in d.readers && d.readers[q].file == i && d.readers[q].length == |d.files[i].rows| && q != r {
      assert q in d'.readers;
    }
  }

  lemma AbandonKept(d: Dir, r: nat, i: nat)
    requires Valid(d) && Enabled(d, Abandon(r)) && i < |d.files|
    ensures Kept(Next(d, Abandon(r)), i) <==>
      Kept(d, i) && !(i == d.readers[r].file && !d.files[i].linked && d.files[i].delivered < |d.files[i].rows|
                      && d.readers[r].length == |d.files[i].rows| && !HeldByOther(d, i, r))
  {
    var d' := Next(d, Abandon(r));
    if q :| q in d.readers && d.readers[q].file == i && d.readers[q].length == |d.files[i].rows| && q != r {
      assert q in d'.readers;
    }
  }

  // One step: nothing is lost exactly if nothing was and the step loses nothing. What is lost
  // stays lost.
  lemma StepKeeps(d: Dir, ev: Event)
    requires Valid(d) && Enabled(d, ev)
    ensures AllKept(Next(d, ev)) <==> AllKept(d) && !Loses(d, ev)
  {
    hide Kept, HeldWhole, HeldByOther, Target, LinkedAt, Next, Enabled, Loses;
    var d' := Next(d, ev);
    FilesGrow(d, ev);
    forall i | 0 <= i < |d.files| ensures Kept(d', i) <==> Kept(d, i) && !(Loses(d, ev) && i == Hit(d, ev)) {
      OneKept(d, ev, i);
    }
    if Loses(d, ev) {
      HitIsFile(d, ev);
      assert !Kept(d', Hit(d, ev));
    }
    if AllKept(d') {
      assert forall i :: 0 <= i < |d.files| ==> Kept(d', i);
    }
  }

  lemma FilesGrow(d: Dir, ev: Event)
    requires Enabled(d, ev)
    ensures |d.files| <= |Next(d, ev).files|
    ensures forall i :: |d.files| <= i < |Next(d, ev).files| ==> Kept(Next(d, ev), i)
  {
  }

  lemma HitIsFile(d: Dir, ev: Event)
    requires Loses(d, ev)
    ensures Hit(d, ev) < |d.files|
  {
  }

  lemma OneKept(d: Dir, ev: Event, i: nat)
    requires Valid(d) && Enabled(d, ev) && i < |d.files|
    ensures i < |Next(d, ev).files| && (Kept(Next(d, ev), i) <==> Kept(d, i) && !(Loses(d, ev) && i == Hit(d, ev)))
  {
    match ev
    case Write(j, rows) => WriteKept(d, j, rows, i);
    case Unlink(r) => UnlinkKept(d, r, i);
    case Abandon(r) => AbandonKept(d, r, i);
    case _ => OthersKept(d, ev, i);
  }

  // The file a losing step strikes.
  ghost function Hit(d: Dir, ev: Event): nat
    requires Enabled(d, ev)
  {
    match ev
    case Write(j, _) => j
    case Unlink(r) => Target(d, r).value
    case Abandon(r) => d.readers[r].file
    case _ => 0
  }

  // Some step of the run loses rows.
  ghost predicate LosesAlong(d: Dir, trace: seq<Event>) {
    trace != [] &&
    (LosesAlong(d, trace[..|trace| - 1]) || Loses(Run(d, trace[..|trace| - 1]), trace[|trace| - 1]))
  }

  // Whatever the interleaving of spools and replays, with any number of replays on one file: no
  // row is lost if and only if no step loses one.
  lemma {:induction false} LostExactly(d: Dir, trace: seq<Event>)
    requires Valid(d)
    ensures AllKept(Run(d, trace)) <==> AllKept(d) && !LosesAlong(d, trace)
  {
    hide Next, AllKept, Loses, Valid;
    if trace != [] {
      var front, ev := trace[..|trace| - 1], trace[|trace| - 1];
      LostExactly(d, front);
      RunValid(d, front);
      if Enabled(Run(d, front), ev) {
        StepKeeps(Run(d, front), ev);
      } else {
        NothingHappens(Run(d, front), ev);
      }
    }
  }

  lemma NothingHappens(d: Dir, ev: Event)
    requires !Enabled(d, ev)
    ensures !Loses(d, ev)
  {
  }

  // ----- when rows are inserted twice ---------------------------------------------------------------

  // How many of the rows this replay holds some replay has inserted before.
  ghost function Before(d: Dir, r: nat): (n: nat)
    requires r in d.readers && d.readers[r].file < |d.files|
    ensures n <= d.readers[r].length && n <= d.files[d.readers[r].file].delivered
  {
    var h := d.readers[r];
    if h.length < d.files[h.file].delivered then h.length else d.files[h.file].delivered
  }

  // The steps that insert rows once more: after a replay that inserted them and then did not remove
  // the file, or beside another replay of it.
  ghost predicate Repeats(d: Dir, ev: Event) {
    Enabled(d, ev) && ev.Insert? && Before(d, ev.r) > 0
  }

  ghost predicate RepeatsAlong(d: Dir, trace: seq<Event>) {
    trace != [] &&
    (RepeatsAlong(d, trace[..|trace| - 1]) || Repeats(Run(d, trace[..|trace| - 1]), trace[|trace| - 1]))
  }

  // ----- one replay at a time -------------------------------------------------------------------------

  // How many rows were written to the file a replay holds since the replay read it.
  ghost function SinceRead(d: Dir, trace: seq<Event>, r: nat): nat {
    if trace == [] then 0
    else
      var before, ev := Run(d, trace[..|trace| - 1]), trace[|trace| - 1];
      var count := SinceRead(d, trace[..|trace| - 1], r);
      if !Enabled(before, ev) then count
      else match ev
        case Read(q, _) => if q == r then 0 else count
        case Write(j, rows) => if r in before.readers && before.readers[r].file == j then count + |rows| else count
        case _ => count
  }

  // What a replay holds falls short of its file by exactly what was written since it read.
  lemma {:induction false} ShortByWrites(d: Dir, trace: seq<Event>, r: nat)
    requires Valid(d) && d.readers == map[] && r in Run(d, trace).readers
    ensures var e := Run(d, trace); var h := e.readers[r];
      h.file < |e.files| && |e.files[h.file].rows| == h.length + SinceRead(d, trace, r)
  {
    hide Loses, LinkedAt;
    if trace != [] {
      var front, ev := trace[..|trace| - 1], trace[|trace| - 1];
      RunValid(d, front);
      if r in Run(d, front).readers {
        ShortByWrites(d, front, r);
        assert HeldWithin(Run(d, front), Run(d, front).readers[r]);
      }
    }
  }

  // No name is read while another replay holds what it read under it.
  ghost predicate OneReplay(d: Dir, ev: Event) {
    ev.Read? && Enabled(d, ev) ==>
      forall q :: q in d.readers && d.readers[q].file < |d.files| ==> d.files[d.readers[q].file].stem != d.files[ev.file].stem
  }

  ghost predicate OneReplayRun(d: Dir, trace: seq<Event>) {
    trace != [] ==>
      OneReplayRun(d, trace[..|trace| - 1]) && OneReplay(Run(d, trace[..|trace| - 1]), trace[|trace| - 1])
  }

  // The name is still the file this replay read, and no rows were inserted that it does not hold.
  ghost predicate HoldsAlone(d: Dir, r: nat)
    requires r in d.readers
  {
    var h := d.readers[r];
    h.file < |d.files| && d.files[h.file].linked && d.files[h.file].delivered <= h.length
  }

  ghost predicate SameName(d: Dir, q: nat, r: nat)
    requires q in d.readers && r in d.readers
  {
    d.readers[q].file < |d.files| && d.readers[r].file < |d.files| &&
    d.files[d.readers[q].file].stem == d.files[d.readers[r].file].stem
  }

  ghost predicate Undisturbed(d: Dir) {
    && (forall r :: r in d.readers ==> HoldsAlone(d, r))
    && (forall q, r :: q in d.readers && r in d.readers && q != r ==> !SameName(d, q, r))
  }

  lemma LinkedOnce(d: Dir, i: nat)
    requires Valid(d) && i < |d.files| && d.files[i].linked
    ensures LinkedAt(d.files, d.files[i].stem) == Some(i)
  {
    hide LinkedAt;
    var k := LinkedAt(d.files, d.files[i].stem).value;
    assert k < i || i < k || k == i;
  }

  lemma StemsStay(d: Dir, ev: Event, i: nat)
    requires Enabled(d, ev) && i < |d.files|
    ensures i < |Next(d, ev).files| && Next(d, ev).files[i].stem == d.files[i].stem
  {
    hide LinkedAt;
  }

  // Where a replay that still holds rows was one step earlier.
  lemma ReaderStays(d: Dir, ev: Event, r: nat)
    requires Enabled(d, ev) && r in Next(d, ev).readers
    ensures ev.Read? && r == ev.r ==>
      Next(d, ev).readers[r] == Held(ev.file, |d.files[ev.file].rows|, d.files[ev.file].rows == [])
    ensures !(ev.Read? && r == ev.r) ==>
      && r in d.readers && Next(d, ev).readers[r].file == d.readers[r].file
      && Next(d, ev).readers[r].length == d.readers[r].length && (ev.Unlink? || ev.Abandon? ==> r != ev.r)
  {
    hide LinkedAt;
  }

  lemma StillAlone(d: Dir, ev: Event, r: nat)
    requires Valid(d) && Enabled(d, ev) && Undisturbed(d) && r in Next(d, ev).readers
    ensures HoldsAlone(Next(d, ev), r)
  {
    hide LinkedAt;
    ReaderStays(d, ev, r);
    if !(ev.Read? && r == ev.r) {
      assert HoldsAlone(d, r);
      if ev.Unlink? || ev.Insert? {
        assert ev.r != r ==> !SameName(d, ev.r, r);
        assert HoldsAlone(d, ev.r);
      }
    }
  }

  lemma NextUndisturbed(d: Dir, ev: Event)
    requires Valid(d) && Enabled(d, ev) && Undisturbed(d) && OneReplay(d, ev)
    ensures Undisturbed(Next(d, ev))
  {
    hide LinkedAt, Next, HoldsAlone, Valid;
    var d' := Next(d, ev);
    forall r | r in d'.readers ensures HoldsAlone(d', r) {
      StillAlone(d, ev, r);
    }
    forall q, r | q in d'.readers && r in d'.readers && q != r ensures !SameName(d', q, r) {
      StillApart(d, ev, q, r);
    }
  }

  lemma StillApart(d: Dir, ev: Event, q: nat, r: nat)
    requires Valid(d) && Enabled(d, ev) && Undisturbed(d) && OneReplay(d, ev)
    requires q in Next(d, ev).readers && r in Next(d, ev).readers && q != r
    ensures !SameName(Next(d, ev), q, r)
  {
    hide LinkedAt, Next, Valid;
    ReaderStays(d, ev, q);
    ReaderStays(d, ev, r);
    var f, g := Next(d, ev).readers[q].file, Next(d, ev).readers[r].file;
    if q in d.readers { assert HoldsAlone(d, q); }
    if r in d.readers { assert HoldsAlone(d, r); }
    StemsStay(d, ev, f);
    StemsStay(d, ev, g);
    assert q in d.readers && r in d.readers ==> !SameName(d, q, r);
  }

  lemma {:induction false} RunUndisturbed(d: Dir, trace: seq<Event>)
    requires Valid(d) && d.readers == map[] && OneReplayRun(d, trace)
    ensures Undisturbed(Run(d, trace))
  {
    hide Next, Enabled, Valid, OneReplay;
    if trace != [] {
      var front, ev := trace[..|trace| - 1], trace[|trace| - 1];
      RunUndisturbed(d, front);
      RunValid(d, front);
      if Enabled(Run(d, front), ev) {
        NextUndisturbed(Run(d, front), ev);
      }
    }
  }

  // A write to a file between its read and its removal, seen at the removal, or after it.
  ghost predicate WritesAcross(d: Dir, trace: seq<Event>, ev: Event) {
    var before := Run(d, trace);
    && Enabled(before, ev)
    && ((ev.Unlink? && SinceRead(d, trace, ev.r) > 0)
        || (ev.Write? && ev.rows != [] && !before.files[ev.file].linked))
  }

  ghost predicate WritesAcrossAlong(d: Dir, trace: seq<Event>) {
    trace != [] &&
    (WritesAcrossAlong(d, trace[..|trace| - 1]) || WritesAcross(d, trace[..|trace| - 1], trace[|trace| - 1]))
  }

  lemma LosesByWriting(d: Dir, trace: seq<Event>, ev: Event)
    requires Valid(d) && d.readers == map[] && OneReplayRun(d, trace)
    ensures Loses(Run(d, trace), ev) <==> WritesAcross(d, trace, ev)
  {
    hide LinkedAt, Run, SinceRead, OneReplayRun;
    var before := Run(d, trace);
    RunValid(d, trace);
    RunUndisturbed(d, trace);
    if Enabled(before, ev) && ev.Unlink? {
      var h := before.readers[ev.r];
      LinkedOnce(before, h.file);
      ShortByWrites(d, trace, ev.r);
      assert HeldWithin(before, h);
      assert HoldsAlone(before, ev.r);
      forall r | r in before.readers && r != ev.r ensures before.readers[r].file != h.file {
        assert !SameName(before, r, ev.r) && HoldsAlone(before, r);
      }
    } else if Enabled(before, ev) && ev.Abandon? {
      assert HoldsAlone(before, ev.r);
    }
  }

  // With at most one replay on a name at a time, no row is lost if and only if nothing is written
  // to a file between its read and its removal, nor after it.
  lemma {:induction false} OneReplayLosesExactly(d: Dir, trace: seq<Event>)
    requires Valid(d) && d.readers == map[] && AllKept(d) && OneReplayRun(d, trace)
    ensures AllKept(Run(d, trace)) <==> !WritesAcrossAlong(d, trace)
  {
    hide Next, AllKept, Loses, Valid, WritesAcross, Run;
    LostExactly(d, trace);
    SameAlong(d, trace);
  }

  lemma {:induction false} SameAlong(d: Dir, trace: seq<Event>)
    requires Valid(d) && d.readers == map[] && OneReplayRun(d, trace)
    ensures LosesAlong(d, trace) <==> WritesAcrossAlong(d, trace)
  {
    hide Loses, Valid, WritesAcross, Run, OneReplay;
    if trace != [] {
      SameAlong(d, trace[..|trace| - 1]);
      LosesByWriting(d, trace[..|trace| - 1], trace[|trace| - 1]);
    }
  }

  // ----- runs that lose rows ----------------------------------------------------------------------------

  lemma Append(d: Dir, trace: seq<Event>, ev: Event)
    ensures Run(d, trace + [ev]) == Apply(Run(d, trace), ev)
  {
    assert (trace + [ev])[..|trace|] == trace;
  }

  // A spool within the second, table and process of an earlier one writes after the replay has
  // read the file: the replay removes the new row with the old one.
  lemma OvertakenReplayLoses(stem: string, row: Row) returns (trace: seq<Event>)
    ensures !AllKept(Run(EMPTY_DIR, trace))
  {
    hide Run;
    trace := OneRead(stem, row);
    Append(EMPTY_DIR, trace, Write(0, [row]));
    trace := trace + [Write(0, [row])];
    Append(EMPTY_DIR, trace, Insert(1));
    trace := trace + [Insert(1)];
    assert Run(EMPTY_DIR, trace).files[0].rows == [row, row];
    assert Run(EMPTY_DIR, trace).files == [Inode(stem, [row, row], true, 1)];
    assert Run(EMPTY_DIR, trace) == Dir([Inode(stem, [row, row], true, 1)], map[1 := Held(0, 1, true)]);
    assert Target(Run(EMPTY_DIR, trace), 1) == Some(0);
    Append(EMPTY_DIR, trace, Unlink(1));
    trace := trace + [Unlink(1)];
    assert Run(EMPTY_DIR, trace) == Dir([Inode(stem, [row, row], false, 1)], map[]);
    assert !Kept(Run(EMPTY_DIR, trace), 0);
  }

  // Two replays read and insert one file; the first removes it, a spool makes the name anew, and
  // the second removes that file, of which it has read nothing.
  lemma TwoReplaysLose(stem: string, row: Row) returns (trace: seq<Event>)
    ensures !AllKept(Run(EMPTY_DIR, trace))
  {
    hide Run;
    trace := BothInserted(stem, row);
    Append(EMPTY_DIR, trace, Unlink(1));
    assert Target(Run(EMPTY_DIR, trace), 1) == Some(0);
    trace := trace + [Unlink(1)];
    assert Run(EMPTY_DIR, trace) == Dir([Inode(stem, [row], false, 1)], map[2 := Held(0, 1, true)]);
    assert LinkedAt(Run(EMPTY_DIR, trace).files, stem) == None;
    Append(EMPTY_DIR, trace, Open(stem));
    trace := trace + [Open(stem)];
    Append(EMPTY_DIR, trace, Write(1, [row]));
    trace := trace + [Write(1, [row])];
    var files := [Inode(stem, [row], false, 1), Inode(stem, [row], true, 0)];
    assert Run(EMPTY_DIR, trace).files[1].rows == [row];
    assert Run(EMPTY_DIR, trace).files == files;
    assert Run(EMPTY_DIR, trace) == Dir(files, map[2 := Held(0, 1, true)]);
    assert LinkedAt(files, stem) == Some(1);
    Append(EMPTY_DIR, trace, Unlink(2));
    trace := trace + [Unlink(2)];
    assert Run(EMPTY_DIR, trace) == Dir([Inode(stem, [row], false, 1), Inode(stem, [row], false, 0)], map[]);
    assert !Kept(Run(EMPTY_DIR, trace), 1);
  }

  lemma OneRead(stem: string, row: Row) returns (trace: seq<Event>)
    ensures Run(EMPTY_DIR, trace) == Dir([Inode(stem, [row], true, 0)], map[1 := Held(0, 1, false)])
  {
    hide Run;
    EmptyRun();
    Append(EMPTY_DIR, [], Open(stem));
    trace := [] + [Open(stem)];
    Append(EMPTY_DIR, trace, Write(0, [row]));
    trace := trace + [Write(0, [row])];
    assert Run(EMPTY_DIR, trace).files[0].rows == [row];
    assert Run(EMPTY_DIR, trace).files == [Inode(stem, [row], true, 0)];
    assert Run(EMPTY_DIR, trace) == Dir([Inode(stem, [row], true, 0)], map[]);
    Append(EMPTY_DIR, trace, Read(1, 0));
    trace := trace + [Read(1, 0)];
  }

  lemma BothRead(stem: string, row: Row) returns (trace: seq<Event>)
    ensures Run(EMPTY_DIR, trace) ==
      Dir([Inode(stem, [row], true, 0)], map[1 := Held(0, 1, false), 2 := Held(0, 1, false)])
  {
    hide Run;
    trace := OneRead(stem, row);
    Append(EMPTY_DIR, trace, Read(2, 0));
    trace := trace + [Read(2, 0)];
  }

  lemma BothInserted(stem: string, row: Row) returns (trace: seq<Event>)
    ensures Run(EMPTY_DIR, trace) ==
      Dir([Inode(stem, [row], true, 1)], map[1 := Held(0, 1, true), 2 := Held(0, 1, true)])
  {
    hide Run;
    trace := BothRead(stem, row);
    Append(EMPTY_DIR, trace, Insert(1));
    trace := trace + [Insert(1)];
    assert Run(EMPTY_DIR, trace) ==
      Dir([Inode(stem, [row], true, 1)], map[1 := Held(0, 1, true), 2 := Held(0, 1, false)]);
    Append(EMPTY_DIR, trace, Insert(2));
    trace := trace + [Insert(2)];
  }

  // Those two replays have inserted its row twice.
  lemma TwoReplaysRepeat(stem: string, row: Row) returns (trace: seq<Event>)
    ensures RepeatsAlong(EMPTY_DIR, trace)
  {
    hide Run;
    trace := BothRead(stem, row);
    Append(EMPTY_DIR, trace, Insert(1));
    trace := trace + [Insert(1)];
    assert Run(EMPTY_DIR, trace) ==
      Dir([Inode(stem, [row], true, 1)], map[1 := Held(0, 1, true), 2 := Held(0, 1, false)]);
    assert Repeats(Run(EMPTY_DIR, trace), Insert(2));
    assert (trace + [Insert(2)])[..|trace|] == trace;
    trace := trace + [Insert(2)];
  }

  lemma EmptyRun()
    ensures Run(EMPTY_DIR, []) == EMPTY_DIR && Valid(EMPTY_DIR) && AllKept(EMPTY_DIR)
  {
  }
}
