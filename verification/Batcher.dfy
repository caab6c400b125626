// server/storage/clickhouse_batcher.py: rows are buffered per table, taken in snapshots,
// inserted with retries, spooled to dead-letter files when all attempts fail, and replayed.
// Every method below that is one critical section or one outside action of the source (opening,
// writing, reading, inserting, removing a name) keeps the books balanced, so they stay balanced
// under any interleaving of threads. The books have an entry for rows that are missing: in a file
// whose name a replay has removed without inserting them. DlqFiles says exactly when there are any.
module Batcher {
  import opened DlqFiles
  import opened DlqNames
  import opened Ledger
  import opened Text

  datatype Batch = Batch(table: string, rows: seq<Row>)

  // ----- what the buffers, the snapshots and the files hold ----------------------------------

  ghost function RowsOf(buffers: map<string, seq<Row>>, t: string): Bag {
    if t in buffers then Tag(t, buffers[t]) else EMPTY
  }

  ghost function Buffered(tables: seq<string>, buffers: map<string, seq<Row>>): Bag {
    if tables == [] then EMPTY
    else Plus(Buffered(tables[..|tables| - 1], buffers), RowsOf(buffers, tables[|tables| - 1]))
  }

  ghost function InFlight(pool: seq<Batch>): Bag {
    if pool == [] then EMPTY
    else Plus(InFlight(pool[..|pool| - 1]), Tag(pool[|pool| - 1].table, pool[|pool| - 1].rows))
  }

  // The parts of the dead-letter files: all rows; those under a name; of the others, those that a
  // replay has inserted and those that none has; and all rows inserted by replays, under the table
  // they came from and under the one they went to.
  datatype Part = Whole | OnDisk | Replayed | Missing | Inserted | Arrived

  ghost function Share(f: Inode, part: Part): Bag {
    var t, n := OriginTable(f.stem), if f.delivered < |f.rows| then f.delivered else |f.rows|;
    match part
    case Whole => Tag(t, f.rows)
    case OnDisk => if f.linked then Tag(t, f.rows) else EMPTY
    case Replayed => if f.linked then EMPTY else Tag(t, f.rows[..n])
    case Missing => if f.linked then EMPTY else Tag(t, f.rows[n..])
    case Inserted => Tag(t, f.rows[..n])
    case Arrived => Tag(TargetTable(f.stem), f.rows[..n])
  }

  ghost function Sum(files: seq<Inode>, part: Part): Bag {
    if files == [] then EMPTY
    else Plus(Sum(files[..|files| - 1], part), Share(files[|files| - 1], part))
  }

  ghost predicate Distinct(tables: seq<string>) {
    forall i, j :: 0 <= i < j < |tables| ==> tables[i] != tables[j]
  }

  // The keys of the buffer dictionary in insertion order.
  ghost predicate Keys(tables: seq<string>, buffers: map<string, seq<Row>>) {
    Distinct(tables) && forall t :: t in tables <==> t in buffers
  }

  lemma KeysMean(tables: seq<string>, buffers: map<string, seq<Row>>, t: string)
    requires Keys(tables, buffers)
    ensures Distinct(tables) && (t in tables <==> t in buffers)
  {
  }

  lemma KeysKept(tables: seq<string>, buffers: map<string, seq<Row>>, buffers': map<string, seq<Row>>)
    requires Keys(tables, buffers) && buffers'.Keys == buffers.Keys
    ensures Keys(tables, buffers')
  {
    assert forall t :: t in buffers <==> t in buffers.Keys;
    assert forall t :: t in buffers' <==> t in buffers'.Keys;
  }

  lemma {:induction false} BufferedExcept(tables: seq<string>, buffers: map<string, seq<Row>>, t: string, rows: seq<Row>)
    requires t !in tables
    ensures Buffered(tables, buffers[t := rows]) == Buffered(tables, buffers)
  {
    if tables != [] {
      BufferedExcept(tables[..|tables| - 1], buffers, t, rows);
    }
  }

  // Appending rows to one table.
  lemma {:induction false} BufferedExtend(tables: seq<string>, buffers: map<string, seq<Row>>, t: string, rows: seq<Row>)
    requires Distinct(tables) && t in tables && t in buffers
    ensures Buffered(tables, buffers[t := buffers[t] + rows]) == Plus(Buffered(tables, buffers), Tag(t, rows))
  {
    hide Plus, Tag;
    var front, last := tables[..|tables| - 1], tables[|tables| - 1];
    if last == t {
      BufferedExcept(front, buffers, t, buffers[t] + rows);
      TagAppend(t, buffers[t], rows);
      Regroup(Buffered(front, buffers), Tag(t, buffers[t]), Tag(t, rows));
    } else {
      assert t in front;
      BufferedExtend(front, buffers, t, rows);
      Swap(Buffered(front, buffers), Tag(t, rows), RowsOf(buffers, last));
    }
  }

  lemma NewTable(tables: seq<string>, buffers: map<string, seq<Row>>, t: string)
    requires Keys(tables, buffers) && t !in buffers
    ensures Keys(tables + [t], buffers[t := []])
    ensures Buffered(tables + [t], buffers[t := []]) == Buffered(tables, buffers)
  {
    BufferedExcept(tables, buffers, t, []);
    assert (tables + [t])[..|tables|] == tables;
    PlusEmpty(Buffered(tables, buffers));
  }

  lemma {:induction false} AllEmpty(tables: seq<string>, buffers: map<string, seq<Row>>)
    requires forall t :: t in buffers ==> buffers[t] == []
    ensures Buffered(tables, buffers) == EMPTY
  {
    if tables != [] {
      AllEmpty(tables[..|tables| - 1], buffers);
      PlusEmpty(EMPTY);
    }
  }

  lemma InFlightOne(pool: seq<Batch>, batch: Batch)
    ensures InFlight(pool + [batch]) == Plus(InFlight(pool), Tag(batch.table, batch.rows))
  {
    assert (pool + [batch])[..|pool|] == pool;
  }

  lemma {:induction false} InFlightAppend(a: seq<Batch>, b: seq<Batch>)
    ensures InFlight(a + b) == Plus(InFlight(a), InFlight(b))
  {
    hide Plus, Tag;
    if b == [] {
      assert a + b == a;
      PlusEmpty(InFlight(a));
    } else {
      var b', last := b[..|b| - 1], b[|b| - 1];
      assert (a + b)[..|a + b| - 1] == a + b';
      InFlightAppend(a, b');
      Regroup(InFlight(a), InFlight(b'), Tag(last.table, last.rows));
    }
  }

  lemma {:induction false} InFlightRemove(pool: seq<Batch>, k: nat)
    requires k < |pool|
    ensures InFlight(pool) == Plus(InFlight(pool[..k] + pool[k + 1..]), Tag(pool[k].table, pool[k].rows))
  {
    hide Plus, Tag;
    var front, last := pool[..|pool| - 1], pool[|pool| - 1];
    var rest := pool[..k] + pool[k + 1..];
    if k == |front| {
      assert rest == front;
    } else {
      InFlightRemove(front, k);
      assert rest[..|rest| - 1] == front[..k] + front[k + 1..];
      Swap(InFlight(front[..k] + front[k + 1..]), Tag(pool[k].table, pool[k].rows), Tag(last.table, last.rows));
    }
  }

  lemma SumNewFile(files: seq<Inode>, f: Inode, part: Part)
    ensures Sum(files + [f], part) == Plus(Sum(files, part), Share(f, part))
  {
    assert (files + [f])[..|files|] == files;
  }

  // A file that grows by `x` adds that to the sum.
  lemma {:induction false} SumGrows(files: seq<Inode>, j: nat, f: Inode, part: Part, x: Bag)
    requires j < |files| && Share(f, part) == Plus(Share(files[j], part), x)
    ensures Sum(files[j := f], part) == Plus(Sum(files, part), x)
  {
    hide Plus, Share;
    var front, last := files[..|files| - 1], files[|files| - 1];
    if j == |front| {
      assert files[j := f][..|files| - 1] == front;
      Regroup(Sum(front, part), Share(last, part), x);
    } else {
      SumGrows(front, j, f, part, x);
      assert files[j := f][..|files| - 1] == front[j := f];
      Swap(Sum(front, part), x, Share(last, part));
    }
  }

  lemma SumStays(files: seq<Inode>, j: nat, f: Inode, part: Part)
    requires j < |files| && Share(f, part) == Share(files[j], part)
    ensures Sum(files[j := f], part) == Sum(files, part)
  {
    hide Plus, Share;
    PlusEmpty(Share(files[j], part));
    PlusEmpty(Sum(files, part));
    SumGrows(files, j, f, part, EMPTY);
  }

  lemma ShareSplits(f: Inode)
    ensures Share(f, Whole) == Plus(Plus(Share(f, OnDisk), Share(f, Replayed)), Share(f, Missing))
  {
    var t, n := OriginTable(f.stem), if f.delivered < |f.rows| then f.delivered else |f.rows|;
    hide Plus, Tag, OriginTable;
    PlusEmpty(EMPTY);
    PlusEmpty(Tag(t, f.rows));
    PlusEmpty(Tag(t, f.rows[..n]));
    TagAppend(t, f.rows[..n], f.rows[n..]);
    assert f.rows[..n] + f.rows[n..] == f.rows;
  }

  lemma Sorted(a: Bag, b: Bag, c: Bag, x: Bag, y: Bag, z: Bag)
    ensures Plus(Plus(Plus(a, b), c), Plus(Plus(x, y), z)) == Plus(Plus(Plus(a, x), Plus(b, y)), Plus(c, z))
  {
  }

  // Every row ever written to a dead-letter file is under a name, replayed, or missing.
  lemma {:induction false} SumSplits(files: seq<Inode>)
    ensures Sum(files, Whole) == Plus(Plus(Sum(files, OnDisk), Sum(files, Replayed)), Sum(files, Missing))
  {
    hide Plus, Share;
    if files == [] {
      PlusEmpty(EMPTY);
    } else {
      var front, last := files[..|files| - 1], files[|files| - 1];
      SumSplits(front);
      ShareSplits(last);
      Sorted(Sum(front, OnDisk), Sum(front, Replayed), Sum(front, Missing),
             Share(last, OnDisk), Share(last, Replayed), Share(last, Missing));
    }
  }

  // With all rows kept and no replay under way, none is missing.
  lemma {:induction false} NoneMissing(files: seq<Inode>)
    requires forall i :: 0 <= i < |files| ==> files[i].linked || files[i].delivered == |files[i].rows|
    ensures Sum(files, Missing) == EMPTY
  {
    if files != [] {
      NoneMissing(files[..|files| - 1]);
      PlusEmpty(EMPTY);
    }
  }

  // ----- the batcher -------------------------------------------------------------------------

  class ClickHouseBatcher {
    const maxRetries: int
    const dlqEnabled: bool
    var tables: seq<string>                // the keys of the buffer dictionary, in insertion order
    var buffers: map<string, seq<Row>>
    var running: bool
    var totalQueued: nat
    var totalFlushed: nat
    var totalErrors: nat
    var totalSpooled: nat
    var dlq: seq<Inode>
    var replays: map<nat, Held>            // what replays hold: local variables of the threads
    var pool: seq<Batch>                   // taken and not yet settled: local variables of the threads
    ghost var server: Bag                  // what ClickHouse holds
    ghost var copies: Bag                  // of it, rows that a replay inserted once more
    ghost var queued: Bag
    ghost var flushed: Bag
    ghost var dropped: Bag
    ghost var diskFailed: bool             // a dead-letter file could not be written in full
    ghost var misrouted: bool              // a replay inserted into another table

    ghost function Directory(): (d: Dir)
      reads `dlq, `replays
      ensures d.files == dlq && d.readers == replays
    {
      Dir(dlq, replays)
    }

    ghost predicate Balanced()
      reads this
    {
      && Keys(tables, buffers) && Valid(Directory())
      && Books(queued, Buffered(tables, buffers), InFlight(pool), flushed, Sum(dlq, Whole), dropped)
      && Holds(server, flushed, Sum(dlq, Inserted), misrouted) && Exact(server, flushed, Sum(dlq, Arrived), copies)
      && totalQueued == Size(queued) && totalFlushed == Size(flushed)
      && (dropped != EMPTY ==> !dlqEnabled || diskFailed || maxRetries < 1)
    }

    constructor (maxRetries: int, dlqEnabled: bool)
      ensures Balanced()
      ensures this.maxRetries == maxRetries && this.dlqEnabled == dlqEnabled
      ensures queued == EMPTY && copies == EMPTY && pool == [] && !running && !diskFailed && !misrouted && Directory() == EMPTY_DIR
    {
      this.maxRetries, this.dlqEnabled := maxRetries, dlqEnabled;
      tables, buffers, running := [], map[], false;
      totalQueued, totalFlushed, totalErrors, totalSpooled := 0, 0, 0, 0;
      dlq, replays, pool := [], map[], [];
      server, copies, queued, flushed, dropped := EMPTY, EMPTY, EMPTY, EMPTY, EMPTY;
      diskFailed, misrouted := false, false;
      new;
      hide Books, Holds, Exact, Valid, InFlight, Sum, Size, Buffered, Keys;
      EmptyBooks();
    }

    // The first row of a table creates its buffer.
    method EnsureBuffer(table: string)
      requires Balanced()
      modifies `tables, `buffers
      ensures Balanced() && table in buffers
      ensures table in old(buffers) ==> tables == old(tables) && buffers == old(buffers)
      ensures table !in old(buffers) ==> buffers == old(buffers)[table := []]
    {
      hide Books, Holds, Exact, Valid, InFlight, Sum, Size, Buffered, Keys;
      if table !in buffers {
        NewTable(tables, buffers, table);
        tables, buffers := tables + [table], buffers[table := []];
      }
    }

    method ExtendBuffer(table: string, rows: seq<Row>)
      requires Balanced() && table in buffers
      modifies `buffers, `totalQueued, `queued
      ensures Balanced()
      ensures queued == Plus(old(queued), Tag(table, rows)) && buffers == old(buffers)[table := old(buffers)[table] + rows]
    {
      hide Books, Holds, Exact, Valid, Tag, Plus, InFlight, Sum, Size, Buffered, Keys;
      TagSize(table, rows);
      PlusSize(queued, Tag(table, rows));
      BooksQueue(queued, Buffered(tables, buffers), InFlight(pool), flushed, Sum(dlq, Whole), dropped, Tag(table, rows));
      KeysMean(tables, buffers, table);
      BufferedExtend(tables, buffers, table, rows);
      KeysKept(tables, buffers, buffers[table := buffers[table] + rows]);
      buffers := buffers[table := buffers[table] + rows];
      totalQueued := totalQueued + |rows|;
      queued := Plus(queued, Tag(table, rows));
    }

    // add_many: one critical section.
    method AddMany(table: string, rows: seq<Row>)
      requires Balanced()
      modifies `tables, `buffers, `totalQueued, `queued
      ensures Balanced()
      ensures queued == Plus(old(queued), Tag(table, rows))
      ensures rows == [] ==> buffers == old(buffers) && tables == old(tables)
      ensures rows != [] ==>
        buffers == old(buffers)[table := (if table in old(buffers) then old(buffers)[table] else []) + rows]
    {
      hide Balanced, Plus, Tag;
      if rows == [] {
        NoRows(table, queued);
        return;
      }
      EnsureBuffer(table);
      ExtendBuffer(table, rows);
    }

    // The critical section of flush_all and of the worker loop: take all rows, one batch for
    // each table that has any, and clear the buffers.
    method TakeSnapshot() returns (snapshot: seq<Batch>)
      requires Balanced()
      modifies `buffers, `pool
      ensures Balanced()
      ensures pool == old(pool) + snapshot
      ensures InFlight(snapshot) == old(Buffered(tables, buffers))
      ensures Buffered(tables, buffers) == EMPTY
    {
      hide Books, Holds, Exact, Valid, Tag, Plus, Sum, Size, InFlight, Keys, Distinct, Buffered;
      snapshot := CopyRows();
      ghost var before := buffers;
      buffers := map t | t in buffers :: [];
      KeysKept(tables, before, buffers);
      AllEmpty(tables, buffers);
      InFlightAppend(pool, snapshot);
      BooksSnapshot(queued, Buffered(tables, before), InFlight(pool), flushed, Sum(dlq, Whole), dropped);
      pool := pool + snapshot;
    }

    method CopyRows() returns (snapshot: seq<Batch>)
      requires Keys(tables, buffers)
      ensures InFlight(snapshot) == Buffered(tables, buffers)
    {
      hide Tag, Plus;
      snapshot := [];
      for i := 0 to |tables|
        invariant InFlight(snapshot) == Buffered(tables[..i], buffers)
      {
        var t := tables[i];
        assert tables[..i + 1][..i] == tables[..i];
        if buffers[t] != [] {
          InFlightOne(snapshot, Batch(t, buffers[t]));
          snapshot := snapshot + [Batch(t, buffers[t])];
        } else {
          EmptyRows(buffers, t);
          PlusEmpty(InFlight(snapshot));
        }
      }
      assert tables[..|tables|] == tables;
    }

    // A successful insert of batch k.
    method Insert(table: string, rows: seq<Row>, k: nat)
      requires Balanced() && k < |pool| && pool[k] == Batch(table, rows)
      modifies `server, `pool, `flushed, `totalFlushed
      ensures Balanced()
      ensures pool == old(pool)[..k] + old(pool)[k + 1..]
      ensures flushed == Plus(old(flushed), Tag(table, rows)) && server == Plus(old(server), Tag(table, rows))
    {
      hide Books, Holds, Exact, Valid, Tag, Plus, Sum, InFlight, Buffered, Size, Keys;
      InFlightRemove(pool, k);
      TagSize(table, rows);
      PlusSize(flushed, Tag(table, rows));
      pool := pool[..k] + pool[k + 1..];
      BooksInsert(queued, Buffered(tables, buffers), InFlight(pool), flushed, Sum(dlq, Whole), dropped, Tag(table, rows));
      HoldsFlush(server, flushed, Sum(dlq, Inserted), misrouted, Tag(table, rows));
      ExactFlush(server, flushed, Sum(dlq, Arrived), copies, Tag(table, rows));
      server, flushed := Plus(server, Tag(table, rows)), Plus(flushed, Tag(table, rows));
      totalFlushed := totalFlushed + |rows|;
    }

    // open(..., "a"): the file of this table, second and process, made if its name is free.
    method OpenFile(table: string, timestamp: nat, pid: nat) returns (j: nat)
      requires Balanced()
      modifies `dlq
      ensures Balanced()
      ensures Directory() == Apply(old(Directory()), Open(Stem(table, timestamp, pid)))
      ensures j < |dlq| && dlq[j].linked && dlq[j].stem == Stem(table, timestamp, pid) && OriginTable(dlq[j].stem) == table
    {
      hide Books, Holds, Exact, Tag, Plus, InFlight, Buffered, Size, Keys, Stem, OriginTable, LinkedAt, Sum, Valid;
      var stem := Stem(table, timestamp, pid);
      OriginOfStem(table, timestamp, pid);
      j := 0;
      while j < |dlq| && !(dlq[j].linked && dlq[j].stem == stem)
        invariant 0 <= j <= |dlq|
        invariant forall i :: 0 <= i < j ==> !(dlq[i].linked && dlq[i].stem == stem)
      {
        j := j + 1;
      }
      NextValid(Directory(), Open(stem));
      if j == |dlq| {
        NewFileSums(dlq, stem);
        dlq := dlq + [Inode(stem, [], true, 0)];
      }
    }

    // The writes to an open file, whether or not its name is still there. `written` is how many rows
    // reach it before an error; the rest are gone.
    method WriteFile(j: nat, table: string, rows: seq<Row>, written: nat, k: nat)
      requires Balanced() && k < |pool| && pool[k] == Batch(table, rows)
      requires j < |dlq| && OriginTable(dlq[j].stem) == table
      modifies `pool, `dlq, `dropped, `diskFailed, `totalSpooled
      ensures Balanced()
      ensures pool == old(pool)[..k] + old(pool)[k + 1..]
      ensures Directory() == Apply(old(Directory()), Write(j, if written < |rows| then rows[..written] else rows))
      ensures written >= |rows| ==> dropped == old(dropped) && diskFailed == old(diskFailed)
      ensures written < |rows| ==> dropped == Plus(old(dropped), Tag(table, rows[written..])) && diskFailed
      ensures totalSpooled == old(totalSpooled) + if written >= |rows| then |rows| else 0
    {
      hide Books, Holds, Exact, Valid, Tag, Plus, InFlight, Buffered, Size, Keys, Share, Sum, OriginTable;
      var n := if written < |rows| then written else |rows|;
      assert rows[..n] + rows[n..] == rows && (n == |rows| ==> rows[..n] == rows && rows[n..] == []);
      NextValid(Directory(), Write(j, rows[..n]));
      DeliveredWithin(Directory(), j);
      WriteSums(dlq, j, rows[..n]);
      InFlightRemove(pool, k);
      TagAppend(table, rows[..n], rows[n..]);
      pool := pool[..k] + pool[k + 1..];
      BooksSpool(queued, Buffered(tables, buffers), InFlight(pool), flushed, Sum(dlq, Whole), dropped,
                 Tag(table, rows[..n]), Tag(table, rows[n..]));
      dlq := dlq[j := dlq[j].(rows := dlq[j].rows + rows[..n])];
      dropped := Plus(dropped, Tag(table, rows[n..]));
      if n == |rows| {
        NoRows(table, old(dropped));
        totalSpooled := totalSpooled + |rows|;
      } else {
        diskFailed := true;
      }
    }

    // _spool_to_dlq, when nothing else touches the file in between.
    method SpoolToDlq(table: string, rows: seq<Row>, timestamp: nat, pid: nat, written: nat, k: nat) returns (j: nat)
      requires Balanced() && k < |pool| && pool[k] == Batch(table, rows)
      modifies `pool, `dlq, `dropped, `diskFailed, `totalSpooled
      ensures Balanced()
      ensures pool == old(pool)[..k] + old(pool)[k + 1..]
      ensures Spooled(old(Directory()), Directory(), Stem(table, timestamp, pid), j, if written < |rows| then rows[..written] else rows)
      ensures written >= |rows| ==> dropped == old(dropped) && diskFailed == old(diskFailed)
      ensures written < |rows| ==> dropped == Plus(old(dropped), Tag(table, rows[written..])) && diskFailed
      ensures totalSpooled == old(totalSpooled) + if written >= |rows| then |rows| else 0
    {
      hide Balanced, Tag, Plus, OriginTable, Stem, LinkedAt;
      j := OpenFile(table, timestamp, pid);
      WriteFile(j, table, rows, written, k);
    }

    // Rows that no later action will touch again.
    method Drop(table: string, rows: seq<Row>, k: nat)
      requires Balanced() && k < |pool| && pool[k] == Batch(table, rows)
      requires !dlqEnabled || maxRetries < 1
      modifies `pool, `dropped
      ensures Balanced()
      ensures pool == old(pool)[..k] + old(pool)[k + 1..] && dropped == Plus(old(dropped), Tag(table, rows))
    {
      hide Books, Holds, Exact, Valid, Tag, Plus, Sum, InFlight, Buffered, Size, Keys;
      InFlightRemove(pool, k);
      PlusEmpty(Tag(table, rows));
      PlusEmpty(Sum(dlq, Whole));
      pool := pool[..k] + pool[k + 1..];
      BooksSpool(queued, Buffered(tables, buffers), InFlight(pool), flushed, Sum(dlq, Whole), dropped, EMPTY, Tag(table, rows));
      dropped := Plus(dropped, Tag(table, rows));
    }

    // _flush_table_with_retry: `raises(a)` says whether attempt a raises.
    method FlushTableWithRetry(table: string, rows: seq<Row>, raises: nat -> bool,
                               timestamp: nat, pid: nat, written: nat, k: nat)
      requires Balanced() && k < |pool| && pool[k] == Batch(table, rows)
      modifies `server, `pool, `flushed, `totalFlushed, `dlq, `dropped, `diskFailed, `totalSpooled, `totalErrors
      ensures Balanced()
      ensures pool == old(pool)[..k] + old(pool)[k + 1..]
      ensures SomeSucceeds(raises, maxRetries) ==>
        && flushed == Plus(old(flushed), Tag(table, rows)) && server == Plus(old(server), Tag(table, rows))
        && Directory() == old(Directory()) && dropped == old(dropped)
      ensures !SomeSucceeds(raises, maxRetries) ==> flushed == old(flushed) && server == old(server)
      ensures maxRetries >= 1 && dlqEnabled && written >= |rows| ==> dropped == old(dropped)
      ensures maxRetries < 1 ==> dropped == Plus(old(dropped), Tag(table, rows))
      ensures totalErrors == old(totalErrors) +
        if maxRetries >= 1 && !SomeSucceeds(raises, maxRetries) then |rows| else 0
    {
      hide Balanced, Tag, Plus;
      var attempt: nat := 1;
      while attempt <= maxRetries
        invariant 1 <= attempt && (attempt <= maxRetries || maxRetries < 1)
        invariant forall a: nat :: 1 <= a < attempt ==> raises(a)
        invariant unchanged(this)
      {
        if !raises(attempt) {
          Insert(table, rows, k);
          return;
        }
        if attempt == maxRetries {
          CountErrors(|rows|);
          if dlqEnabled {
            var _ := SpoolToDlq(table, rows, timestamp, pid, written, k);
          } else {
            Drop(table, rows, k);
          }
          return;
        }
        attempt := attempt + 1;
      }
      Drop(table, rows, k);    // no attempt was made: the rows are neither inserted nor spooled
    }

    method CountErrors(n: nat)
      requires Balanced()
      modifies `totalErrors
      ensures Balanced() && totalErrors == old(totalErrors) + n
    {
      hide Books, Holds, Exact, Valid, Keys, Sum, InFlight, Buffered, Size;
      totalErrors := totalErrors + n;
    }

    // flush_all: a snapshot, then one batch after the other.
    method FlushAll(raises: (string, nat) -> bool, timestamp: nat, pid: nat, written: nat)
      requires Balanced()
      modifies `buffers, `server, `pool, `flushed, `totalFlushed, `dlq, `dropped, `diskFailed, `totalSpooled, `totalErrors
      ensures Balanced()
      ensures pool == old(pool)
      ensures Buffered(tables, buffers) == EMPTY
      ensures (forall t :: SomeSucceeds(AttemptsAt(raises, t), maxRetries)) ==>
        flushed == Plus(old(flushed), old(Buffered(tables, buffers))) && dlq == old(dlq) && dropped == old(dropped)
      ensures (forall t :: !SomeSucceeds(AttemptsAt(raises, t), maxRetries)) ==> flushed == old(flushed) && server == old(server)
    {
      hide Balanced, Buffered, InFlight, Plus, Tag, SomeSucceeds, AttemptsAt;
      var k := |pool|;
      ghost var all := Buffered(tables, buffers);
      var snapshot := TakeSnapshot();
      InFlightNone(snapshot, flushed);
      for i := 0 to |snapshot|
        invariant Balanced() && Buffered(tables, buffers) == EMPTY
        invariant pool == old(pool) + snapshot[i..]
        invariant (forall t :: SomeSucceeds(AttemptsAt(raises, t), maxRetries)) ==>
          flushed == Plus(old(flushed), InFlight(snapshot[..i])) && dlq == old(dlq) && dropped == old(dropped)
        invariant (forall t :: !SomeSucceeds(AttemptsAt(raises, t), maxRetries)) ==> flushed == old(flushed) && server == old(server)
      {
        var batch := snapshot[i];
        InFlightNext(snapshot, i, old(flushed));
        FlushTableWithRetry(batch.table, batch.rows, AttemptsAt(raises, batch.table), timestamp, pid, written, k);
      }
      assert snapshot[..|snapshot|] == snapshot;
    }

    method Start()
      modifies `running
      ensures running
    {
      running := true;
    }

    // stop: nothing at all happens when the worker was not running.
    method Stop(raises: (string, nat) -> bool, timestamp: nat, pid: nat, written: nat)
      requires Balanced()
      modifies this
      ensures Balanced() && queued == old(queued) && pool == old(pool)
      ensures old(running) ==> Buffered(tables, buffers) == EMPTY && !running
      ensures !old(running) ==> unchanged(this)
    {
      hide Balanced, Buffered;
      if !running {
        return;
      }
      ClearRunning();
      FlushAll(raises, timestamp, pid, written);
    }

    method ClearRunning()
      requires Balanced()
      modifies `running
      ensures Balanced() && !running
    {
      hide Books, Holds, Exact, Valid, Keys, Sum, InFlight, Buffered, Size;
      running := false;
    }

    // Replay reads a file: it holds the rows the file has now.
    method ReadFile(r: nat, j: nat) returns (rows: seq<Row>)
      requires Balanced() && r !in replays && j < |dlq| && dlq[j].linked
      modifies `replays
      ensures Balanced() && rows == dlq[j].rows
      ensures Directory() == Apply(old(Directory()), Read(r, j))
      ensures replays == old(replays)[r := Held(j, |dlq[j].rows|, dlq[j].rows == [])]
    {
      hide Books, Holds, Exact, Valid, Sum, InFlight, Buffered, Size, Keys;
      NextValid(Directory(), Read(r, j));
      replays := replays[r := Held(j, |dlq[j].rows|, dlq[j].rows == [])];
      rows := dlq[j].rows;
    }

    // It inserts what it holds into the table read from the file's name.
    method InsertHeld(r: nat, rows: seq<Row>)
      requires Balanced() && r in replays && !replays[r].inserted && HeldWithin(Directory(), replays[r])
      requires rows == dlq[replays[r].file].rows[..replays[r].length]
      modifies `dlq, `replays, `server, `copies, `misrouted
      ensures Balanced()
      ensures Directory() == Apply(old(Directory()), DlqFiles.Insert(r))
      ensures dlq == Delivered(old(dlq), old(replays)[r].file, old(replays)[r].length)
      ensures replays == old(replays)[r := old(replays)[r].(inserted := true)]
      ensures var stem := old(dlq)[old(replays)[r].file].stem;
        && server == Plus(old(server), Tag(TargetTable(stem), rows))
        && copies == Plus(old(copies), Tag(TargetTable(stem), rows[..Before(old(Directory()), r)]))
        && (misrouted <==> old(misrouted) || TargetTable(stem) != OriginTable(stem))
    {
      hide Books, Holds, Exact, Valid, Tag, Plus, Sum, InFlight, Buffered, Size, Keys, TargetTable, OriginTable;
      var h := replays[r];
      var stem := dlq[h.file].stem;
      DeliveredWithin(Directory(), h.file);
      NextValid(Directory(), DlqFiles.Insert(r));
      ghost var x := InsertSums(dlq, h.file, h.length);
      HoldsInsert(server, flushed, Sum(dlq, Inserted), misrouted, x, Tag(TargetTable(stem), rows),
                  TargetTable(stem) != OriginTable(stem));
      var n := if h.length < dlq[h.file].delivered then h.length else dlq[h.file].delivered;
      ghost var more := ArrivedSums(dlq, h.file, h.length);
      ExactInsert(server, flushed, Sum(dlq, Arrived), copies, Tag(TargetTable(stem), rows[..n]), more);
      assert dlq[h.file].rows[..n] == rows[..n];
      copies := Plus(copies, Tag(TargetTable(stem), rows[..n]));
      dlq := dlq[h.file := dlq[h.file].(delivered := if h.length > dlq[h.file].delivered then h.length else dlq[h.file].delivered)];
      replays := replays[r := h.(inserted := true)];
      server := Plus(server, Tag(TargetTable(stem), rows));
      misrouted := misrouted || TargetTable(stem) != OriginTable(stem);
    }

    // It removes the name, whatever file that leads to by now.
    method UnlinkHeld(r: nat)
      requires Balanced() && r in replays && replays[r].inserted && HeldWithin(Directory(), replays[r])
      requires Target(Directory(), r).Some?
      modifies `dlq, `replays
      ensures Balanced()
      ensures Directory() == Apply(old(Directory()), DlqFiles.Unlink(r))
      ensures dlq == Unlinked(old(dlq), Target(old(Directory()), r).value) && replays == old(replays) - {r}
    {
      hide Books, Holds, Exact, Valid, Tag, Plus, Sum, InFlight, Buffered, Size, Keys, LinkedAt;
      var i := LinkedAt(dlq, dlq[replays[r].file].stem).value;
      NextValid(Directory(), DlqFiles.Unlink(r));
      UnlinkSums(dlq, i);
      dlq := dlq[i := dlq[i].(linked := false)];
      replays := replays - {r};
    }

    // It fails, and lets go of what it holds.
    method LetGo(r: nat)
      requires Balanced() && r in replays
      modifies `replays
      ensures Balanced()
      ensures Directory() == Apply(old(Directory()), DlqFiles.Abandon(r)) && replays == old(replays) - {r}
    {
      hide Books, Holds, Exact, Valid, Sum, InFlight, Buffered, Size, Keys;
      NextValid(Directory(), DlqFiles.Abandon(r));
      replays := replays - {r};
    }

    // Replay of one file when nothing else touches it in between: read, insert, remove. An error
    // leaves it in place; one after the insert leaves a second copy to come.
    method ReplayFile(r: nat, j: nat, insertOk: bool, unlinkOk: bool) returns (removed: bool, recovered: nat)
      requires Balanced() && r !in replays && j < |dlq| && dlq[j].linked
      modifies `dlq, `replays, `server, `copies, `misrouted
      ensures Balanced() && replays == old(replays)
      ensures removed <==> TargetTable(old(dlq)[j].stem) != "" && (old(dlq)[j].rows == [] || insertOk) && unlinkOk
      ensures recovered == if TargetTable(old(dlq)[j].stem) != "" && insertOk then |old(dlq)[j].rows| else 0
      ensures server == if recovered > 0
        then Plus(old(server), Tag(TargetTable(old(dlq)[j].stem), old(dlq)[j].rows)) else old(server)
      ensures Size(server) == Size(old(server)) + recovered
      ensures old(dlq)[j].delivered == 0 || recovered == 0 ==> copies == old(copies)
      ensures dlq == old(dlq)[j := old(dlq)[j].(
        delivered := if recovered > 0 then recovered else old(dlq)[j].delivered, linked := !removed)]
      ensures misrouted == (old(misrouted) || (recovered > 0 && TargetTable(old(dlq)[j].stem) != OriginTable(old(dlq)[j].stem)))
    {
      hide Balanced, Tag, Plus, Size, TargetTable, OriginTable, Next, Apply, Enabled, Valid, LinkedAt;
      var stem := dlq[j].stem;
      var target := TargetTable(stem);
      if target == "" {
        return false, 0;
      }
      BalancedDirectory();
      DeliveredWithin(Directory(), j);
      LinkedOnce(Directory(), j);
      var rows := ReadFile(r, j);
      recovered := 0;
      if rows != [] {
        if !insertOk {
          LetGo(r);
          return false, 0;
        }
        assert rows[..|rows|] == rows;
        TagSize(target, rows);
        PlusSize(server, Tag(target, rows));
        NoRows(target, copies);
        InsertHeld(r, rows);
        recovered := |rows|;
      }
      BalancedDirectory();
      LinkedOnce(Directory(), j);
      if !unlinkOk {
        LetGo(r);
        return false, recovered;
      }
      UnlinkHeld(r);
      removed := true;
    }

    lemma BalancedDirectory()
      requires Balanced()
      ensures Valid(Directory())
    {
    }

    // replay_dlq over all files, or over those whose name starts with dlq_{table}_; returns how
    // many rows were inserted.
    method ReplayDlq(r: nat, table: string, insertOk: string -> bool, unlinkOk: string -> bool) returns (total: nat)
      requires Balanced() && r !in replays
      modifies `dlq, `replays, `server, `copies, `misrouted
      ensures Balanced() && replays == old(replays) && |dlq| == |old(dlq)|
      ensures Within(old(server), server) && Size(server) == Size(old(server)) + total
      ensures forall i :: 0 <= i < |dlq| ==>
        && dlq[i].stem == old(dlq)[i].stem && dlq[i].rows == old(dlq)[i].rows
        && (dlq[i].linked <==> old(dlq)[i].linked && !Replays(old(dlq)[i], table, insertOk, unlinkOk))
        && (old(dlq)[i].linked && !dlq[i].linked ==> dlq[i].delivered == |dlq[i].rows|)
        && (!old(dlq)[i].linked ==> dlq[i] == old(dlq)[i])
      ensures forall i :: 0 <= i < |dlq| && !old(dlq)[i].linked ==> dlq[i] == old(dlq)[i]
      ensures table != "" ==> forall i :: 0 <= i < |dlq| && !("dlq_" + table + "_" <= old(dlq)[i].stem) ==> dlq[i] == old(dlq)[i]
      ensures (forall i :: 0 <= i < |old(dlq)| ==> TargetTable(old(dlq)[i].stem) == OriginTable(old(dlq)[i].stem))
        ==> misrouted == old(misrouted)
      ensures (forall i :: 0 <= i < |old(dlq)| ==> old(dlq)[i].delivered == 0) ==> copies == old(copies)
    {
      hide Balanced, Plus, Tag, TargetTable, OriginTable, Within, Size, Valid, LinkedAt;
      WithinPlus(server, EMPTY);
      total := 0;
      BalancedDirectory();
      for j := 0 to |dlq|
        invariant |dlq| == |old(dlq)| && replays == old(replays)
        invariant Balanced() && Within(old(server), server) && Size(server) == Size(old(server)) + total
        invariant forall i :: j <= i < |dlq| ==> dlq[i] == old(dlq)[i]
        invariant forall i :: 0 <= i < j ==> ReplayedAs(old(dlq)[i], dlq[i], table, insertOk, unlinkOk)
        invariant table != "" ==> forall i :: 0 <= i < j && !("dlq_" + table + "_" <= old(dlq)[i].stem) ==> dlq[i] == old(dlq)[i]
        invariant (forall i :: 0 <= i < |old(dlq)| ==> TargetTable(old(dlq)[i].stem) == OriginTable(old(dlq)[i].stem))
          ==> misrouted == old(misrouted)
        invariant (forall i :: 0 <= i < |old(dlq)| ==> old(dlq)[i].delivered == 0) ==> copies == old(copies)
      {
        var f := dlq[j];
        if !f.linked || (table != "" && !("dlq_" + table + "_" <= f.stem)) {
          continue;
        }
        BalancedDirectory();
        DeliveredWithin(Directory(), j);
        ghost var held := server;
        WithinPlus(held, Tag(TargetTable(f.stem), f.rows));
        var removed, recovered := ReplayFile(r, j, insertOk(f.stem), unlinkOk(f.stem));
        WithinTrans(old(server), held, server);
        total := total + recovered;
      }
    }
  }

  lemma EmptyBooks()
    ensures Keys([], map[]) && Valid(EMPTY_DIR) && Size(EMPTY) == 0
    ensures Books(EMPTY, Buffered([], map[]), InFlight([]), EMPTY, Sum([], Whole), EMPTY)
    ensures Holds(EMPTY, EMPTY, Sum([], Inserted), false) && Exact(EMPTY, EMPTY, Sum([], Arrived), EMPTY)
  {
  }

  // Opening and writing without anything in between.
  ghost predicate Spooled(before: Dir, after: Dir, stem: string, j: nat, rows: seq<Row>) {
    var made := Apply(before, Open(stem));
    && j < |made.files| && made.files[j].linked && made.files[j].stem == stem
    && after == Apply(made, Write(j, rows))
  }

  // Replay takes this file away: it is asked for, names a table, and both the insert of its rows
  // and its removal succeed.
  predicate Replays(f: Inode, table: string, insertOk: string -> bool, unlinkOk: string -> bool) {
    && (table == "" || "dlq_" + table + "_" <= f.stem)
    && TargetTable(f.stem) != "" && (f.rows == [] || insertOk(f.stem)) && unlinkOk(f.stem)
  }

  ghost predicate ReplayedAs(f: Inode, g: Inode, table: string, insertOk: string -> bool, unlinkOk: string -> bool) {
    && g.stem == f.stem && g.rows == f.rows && (g.linked <==> f.linked && !Replays(f, table, insertOk, unlinkOk))
    && (f.linked && !g.linked ==> g.delivered == |g.rows|) && (!f.linked ==> g == f)
  }

  lemma DeliveredWithin(d: Dir, j: nat)
    requires Valid(d) && j < |d.files|
    ensures d.files[j].delivered <= |d.files[j].rows|
  {
  }

  // ----- how the sums move ---------------------------------------------------------------------

  lemma NewFileSums(files: seq<Inode>, stem: string)
    ensures forall part :: Sum(files + [Inode(stem, [], true, 0)], part) == Sum(files, part)
  {
    forall part ensures Sum(files + [Inode(stem, [], true, 0)], part) == Sum(files, part) {
      SumNewFile(files, Inode(stem, [], true, 0), part);
      PlusEmpty(Sum(files, part));
    }
  }

  lemma {:induction false} WriteSums(files: seq<Inode>, j: nat, rows: seq<Row>)
    requires j < |files| && files[j].delivered <= |files[j].rows|
    ensures var g := files[j].(rows := files[j].rows + rows);
      && Sum(files[j := g], Whole) == Plus(Sum(files, Whole), Tag(OriginTable(files[j].stem), rows))
      && Sum(files[j := g], Inserted) == Sum(files, Inserted) && Sum(files[j := g], Arrived) == Sum(files, Arrived)
  {
    hide Plus, Tag, OriginTable, Sum;
    var f := files[j];
    var g := f.(rows := f.rows + rows);
    TagAppend(OriginTable(f.stem), f.rows, rows);
    SumGrows(files, j, g, Whole, Tag(OriginTable(f.stem), rows));
    assert g.rows[..f.delivered] == f.rows[..f.delivered];
    SumStays(files, j, g, Inserted);
    SumStays(files, j, g, Arrived);
  }

  // An insert of the first `length` rows adds those among them that were not inserted before.
  lemma InsertSums(files: seq<Inode>, j: nat, length: nat) returns (x: Bag)
    requires j < |files| && files[j].delivered <= |files[j].rows| && length <= |files[j].rows|
    ensures Sum(Delivered(files, j, length), Whole) == Sum(files, Whole)
    ensures Sum(Delivered(files, j, length), Inserted) == Plus(Sum(files, Inserted), x)
    ensures Within(x, Tag(OriginTable(files[j].stem), files[j].rows[..length]))
  {
    hide Plus, Tag, OriginTable, Sum, Within;
    var f, t := files[j], OriginTable(files[j].stem);
    var g := f.(delivered := if length > f.delivered then length else f.delivered);
    SumStays(files, j, g, Whole);
    if length > f.delivered {
      x := Tag(t, f.rows[f.delivered..length]);
      assert f.rows[..f.delivered] + f.rows[f.delivered..length] == f.rows[..length];
      TagAppend(t, f.rows[..f.delivered], f.rows[f.delivered..length]);
      WithinPlus(x, Tag(t, f.rows[..f.delivered]));
      PlusSwap(x, Tag(t, f.rows[..f.delivered]));
      SumGrows(files, j, g, Inserted, x);
    } else {
      x := EMPTY;
      PlusEmpty(Tag(t, f.rows[..length]));
      WithinPlus(EMPTY, Tag(t, f.rows[..length]));
      PlusEmpty(Sum(files, Inserted));
      SumStays(files, j, g, Inserted);
    }
  }

  // In the table they go to, those come on top of the copies of the others.
  lemma ArrivedSums(files: seq<Inode>, j: nat, length: nat) returns (more: Bag)
    requires j < |files| && files[j].delivered <= |files[j].rows| && length <= |files[j].rows|
    ensures Sum(Delivered(files, j, length), Arrived) == Plus(Sum(files, Arrived), more)
    ensures var n := if length < files[j].delivered then length else files[j].delivered;
      Tag(TargetTable(files[j].stem), files[j].rows[..length]) == Plus(Tag(TargetTable(files[j].stem), files[j].rows[..n]), more)
  {
    hide Plus, Tag, TargetTable, OriginTable, Sum;
    var f, t := files[j], TargetTable(files[j].stem);
    var g := f.(delivered := if length > f.delivered then length else f.delivered);
    if length > f.delivered {
      more := Tag(t, f.rows[f.delivered..length]);
      assert f.rows[..f.delivered] + f.rows[f.delivered..length] == f.rows[..length];
      TagAppend(t, f.rows[..f.delivered], f.rows[f.delivered..length]);
      SumGrows(files, j, g, Arrived, more);
    } else {
      more := EMPTY;
      PlusEmpty(Tag(t, f.rows[..length]));
      PlusEmpty(Sum(files, Arrived));
      SumStays(files, j, g, Arrived);
    }
  }

  lemma UnlinkSums(files: seq<Inode>, i: nat)
    requires i < |files|
    ensures Sum(Unlinked(files, i), Whole) == Sum(files, Whole)
    ensures Sum(Unlinked(files, i), Inserted) == Sum(files, Inserted)
    ensures Sum(Unlinked(files, i), Arrived) == Sum(files, Arrived)
  {
    hide Sum, Tag, OriginTable;
    SumStays(files, i, files[i].(linked := false), Whole);
    SumStays(files, i, files[i].(linked := false), Inserted);
    SumStays(files, i, files[i].(linked := false), Arrived);
  }

  // With the dead-letter queue on, disks that work, at least one attempt, and no row lost to a
  // replay, nothing is lost: once buffers, snapshots and replays are empty, every row ever queued is
  // inserted, in a file, or replayed; and with the files gone and no replay into a wrong table,
  // ClickHouse holds them all, and nothing else if and only if none was inserted once more.
  lemma NothingLost(b: ClickHouseBatcher)
    requires b.Balanced() && b.dlqEnabled && !b.diskFailed && b.maxRetries >= 1
    requires b.pool == [] && b.replays == map[] && forall t :: t in b.buffers ==> b.buffers[t] == []
    requires AllKept(b.Directory())
    ensures b.queued == Plus(Plus(b.flushed, Sum(b.dlq, OnDisk)), Sum(b.dlq, Replayed))
    ensures (forall i :: 0 <= i < |b.dlq| ==> !b.dlq[i].linked) && !b.misrouted ==>
      Within(b.queued, b.server) && (b.queued == b.server <==> b.copies == EMPTY)
  {
    hide Plus, Sum, Share, Size, Within;
    AllEmpty(b.tables, b.buffers);
    forall i | 0 <= i < |b.dlq| ensures b.dlq[i].linked || b.dlq[i].delivered == |b.dlq[i].rows| {
      assert Kept(b.Directory(), i);
    }
    NoneMissing(b.dlq);
    SumSplits(b.dlq);
    Settled(b.queued, b.flushed, Sum(b.dlq, Whole), Sum(b.dlq, OnDisk), Sum(b.dlq, Replayed));
    if forall i :: 0 <= i < |b.dlq| ==> !b.dlq[i].linked {
      AllReplayed(b.dlq);
      PlusEmpty(b.flushed);
      PlusEmpty(Sum(b.dlq, Replayed));
      if !b.misrouted {
        SameSizes(b.dlq);
        PlusSize(b.flushed, Sum(b.dlq, Inserted));
        PlusSize(b.flushed, Sum(b.dlq, Arrived));
        PlusSize(Plus(b.flushed, Sum(b.dlq, Arrived)), b.copies);
        NoCells(b.copies);
        if b.copies == EMPTY {
          SameBySize(b.queued, b.server);
        }
      }
    }
  }

  lemma {:induction false} SameSizes(files: seq<Inode>)
    ensures Size(Sum(files, Arrived)) == Size(Sum(files, Inserted))
  {
    hide Plus, Tag, TargetTable, OriginTable;
    if files != [] {
      var front, f := files[..|files| - 1], files[|files| - 1];
      var n := if f.delivered < |f.rows| then f.delivered else |f.rows|;
      SameSizes(front);
      TagSize(TargetTable(f.stem), f.rows[..n]);
      TagSize(OriginTable(f.stem), f.rows[..n]);
      PlusSize(Sum(front, Arrived), Share(f, Arrived));
      PlusSize(Sum(front, Inserted), Share(f, Inserted));
    }
  }

  // Without replays under way, no row is missing if and only if all are kept.
  lemma MissingExactly(d: Dir)
    requires Valid(d) && d.readers == map[]
    ensures Sum(d.files, Missing) == EMPTY <==> AllKept(d)
  {
    hide Sum;
    if AllKept(d) {
      forall i | 0 <= i < |d.files| ensures d.files[i].linked || d.files[i].delivered == |d.files[i].rows| {
        assert Kept(d, i);
      }
      NoneMissing(d.files);
    }
    if Sum(d.files, Missing) == EMPTY {
      forall i | 0 <= i < |d.files| ensures Kept(d, i) {
        NoShareMissing(d.files, i);
      }
    }
  }

  lemma {:induction false} NoShareMissing(files: seq<Inode>, i: nat)
    requires i < |files| && Sum(files, Missing) == EMPTY && files[i].delivered <= |files[i].rows|
    ensures files[i].linked || files[i].delivered == |files[i].rows|
  {
    hide Plus, Tag, OriginTable, Size;
    var front, f := files[..|files| - 1], files[|files| - 1];
    OnlyEmpty(Sum(front, Missing), Share(f, Missing));
    if i < |front| {
      NoShareMissing(front, i);
    } else if !f.linked {
      TagSize(OriginTable(f.stem), f.rows[f.delivered..]);
      NoCells(Tag(OriginTable(f.stem), f.rows[f.delivered..]));
    }
  }

  lemma Settled(q: Bag, f: Bag, s: Bag, o: Bag, r: Bag)
    requires Books(q, EMPTY, EMPTY, f, s, EMPTY) && s == Plus(Plus(o, r), EMPTY)
    ensures q == Plus(Plus(f, o), r)
  {
  }

  lemma {:induction false} AllReplayed(files: seq<Inode>)
    requires forall i :: 0 <= i < |files| ==> !files[i].linked
    ensures Sum(files, OnDisk) == EMPTY && Sum(files, Replayed) == Sum(files, Inserted)
  {
    if files != [] {
      AllReplayed(files[..|files| - 1]);
      PlusEmpty(EMPTY);
    }
  }

  // Some attempt does not raise.
  ghost predicate SomeSucceeds(raises: nat -> bool, maxRetries: int) {
    exists a: nat :: 1 <= a <= maxRetries && !raises(a)
  }

  function AttemptsAt(raises: (string, nat) -> bool, table: string): nat -> bool {
    (a: nat) => raises(table, a)
  }

  lemma InFlightNone(pool: seq<Batch>, start: Bag)
    ensures Plus(start, InFlight(pool[..0])) == start
  {
    PlusEmpty(start);
  }

  lemma InFlightNext(pool: seq<Batch>, i: nat, start: Bag)
    requires i < |pool|
    ensures Plus(start, InFlight(pool[..i + 1])) == Plus(Plus(start, InFlight(pool[..i])), Tag(pool[i].table, pool[i].rows))
  {
    assert pool[..i + 1] == pool[..i] + [pool[i]];
    InFlightOne(pool[..i], pool[i]);
    Regroup(start, InFlight(pool[..i]), Tag(pool[i].table, pool[i].rows));
  }

  lemma EmptyRows(buffers: map<string, seq<Row>>, t: string)
    requires t in buffers && buffers[t] == []
    ensures RowsOf(buffers, t) == EMPTY
  {
  }

  lemma NoRows(t: string, b: Bag)
    ensures Plus(b, Tag(t, [])) == b
  {
    PlusEmpty(b);
  }

  lemma NoTag(t: string, u: string)
    ensures Tag(t, []) == Tag(u, [])
  {
  }

  // ----- any interleaving ------------------------------------------------------------------

  // One atomic action of some thread: a producer, the worker, a caller of flush_all or stop, a
  // spool, a replay. `k` picks one of the snapshots being worked on, `file` one of the files ever
  // made, `r` one of the replays.
  datatype Action =
    | Add(table: string, rows: seq<Row>)
    | Snapshot
    | InsertOk(k: nat)
    | OpenDlq(table: string, timestamp: nat, pid: nat)
    | WriteDlq(k: nat, file: nat, written: nat)
    | GiveUp(k: nat)
    | ReadDlq(r: nat, file: nat)
    | InsertDlq(r: nat)
    | UnlinkDlq(r: nat)
    | Fail(r: nat)

  // The rows a run of actions adds.
  ghost function Added(actions: seq<Action>): Bag {
    if actions == [] then EMPTY
    else
      var before, last := Added(actions[..|actions| - 1]), actions[|actions| - 1];
      if last.Add? then Plus(before, Tag(last.table, last.rows)) else before
  }

  lemma AddedOne(actions: seq<Action>, i: nat, start: Bag)
    requires i < |actions|
    ensures Plus(start, Added(actions[..i + 1])) ==
      if actions[i].Add? then Plus(Plus(start, Added(actions[..i])), Tag(actions[i].table, actions[i].rows))
      else Plus(start, Added(actions[..i]))
  {
    assert actions[..i + 1][..i] == actions[..i];
    if actions[i].Add? {
      Regroup(start, Added(actions[..i]), Tag(actions[i].table, actions[i].rows));
    }
  }

  // One action, on the batcher and on the dead-letter directory.
  method Act(b: ClickHouseBatcher, action: Action) returns (ghost trace: seq<DlqFiles.Event>)
    requires b.Balanced()
    modifies b
    ensures b.Balanced()
    ensures b.queued == if action.Add? then Plus(old(b.queued), Tag(action.table, action.rows)) else old(b.queued)
    ensures b.Directory() == Run(old(b.Directory()), trace)
    ensures b.copies == EMPTY <==> old(b.copies) == EMPTY && !RepeatsAlong(old(b.Directory()), trace)
  {
    hide *;
    trace := [];
    RunNothing(b.Directory());
    match action {
      case Add(table, rows) =>
        b.AddMany(table, rows);
      case Snapshot =>
        var _ := b.TakeSnapshot();
      case InsertOk(k) =>
        if k < |b.pool| {
          b.Insert(b.pool[k].table, b.pool[k].rows, k);
        }
      case GiveUp(k) =>
        if k < |b.pool| && (!b.dlqEnabled || b.maxRetries < 1) {
          b.Drop(b.pool[k].table, b.pool[k].rows, k);
        }
      case _ =>
        trace := ActOnFiles(b, action);
    }
  }

  method ActOnFiles(b: ClickHouseBatcher, action: Action) returns (ghost trace: seq<DlqFiles.Event>)
    requires b.Balanced()
    modifies b
    ensures b.Balanced() && b.queued == old(b.queued)
    ensures b.Directory() == Run(old(b.Directory()), trace)
    ensures b.copies == EMPTY <==> old(b.copies) == EMPTY && !RepeatsAlong(old(b.Directory()), trace)
  {
    hide *;
    ghost var d := b.Directory();
    trace := [];
    RunNothing(d);
    b.BalancedDirectory();
    match action {
      case OpenDlq(table, timestamp, pid) =>
        RunFirst(d, Open(Stem(table, timestamp, pid)));
        var _ := b.OpenFile(table, timestamp, pid);
        trace := [Open(Stem(table, timestamp, pid))];
      case WriteDlq(k, file, written) =>
        if k < |b.pool| && file < |b.dlq| && OriginTable(b.dlq[file].stem) == b.pool[k].table {
          trace := WriteOne(b, k, file, written);
        }
      case ReadDlq(r, file) =>
        if r !in b.replays && file < |b.dlq| && b.dlq[file].linked && TargetTable(b.dlq[file].stem) != "" {
          RunFirst(d, Read(r, file));
          var _ := b.ReadFile(r, file);
          trace := [Read(r, file)];
        }
      case InsertDlq(r) =>
        if r in b.replays && !b.replays[r].inserted {
          HeldIsWithin(d, r);
          RunFirst(d, DlqFiles.Insert(r));
          CopiesExactly(d, r, b.copies, TargetTable(b.dlq[b.replays[r].file].stem),
                        b.dlq[b.replays[r].file].rows[..b.replays[r].length]);
          b.InsertHeld(r, b.dlq[b.replays[r].file].rows[..b.replays[r].length]);
          trace := [DlqFiles.Insert(r)];
        }
      case UnlinkDlq(r) =>
        if r in b.replays && b.replays[r].inserted {
          HeldIsWithin(d, r);
          if LinkedAt(b.dlq, b.dlq[b.replays[r].file].stem).Some? {
            RunFirst(d, Unlink(r));
            b.UnlinkHeld(r);
            trace := [Unlink(r)];
          }
        }
      case Fail(r) =>
        if r in b.replays {
          RunFirst(d, Abandon(r));
          b.LetGo(r);
          trace := [Abandon(r)];
        }
      case _ =>
    }
  }

  method WriteOne(b: ClickHouseBatcher, k: nat, file: nat, written: nat) returns (ghost trace: seq<DlqFiles.Event>)
    requires b.Balanced() && k < |b.pool| && file < |b.dlq| && OriginTable(b.dlq[file].stem) == b.pool[k].table
    modifies b
    ensures b.Balanced() && b.queued == old(b.queued)
    ensures b.Directory() == Run(old(b.Directory()), trace)
    ensures b.copies == EMPTY <==> old(b.copies) == EMPTY && !RepeatsAlong(old(b.Directory()), trace)
  {
    hide *;
    var batch := b.pool[k];
    ghost var rows := if written < |batch.rows| then batch.rows[..written] else batch.rows;
    RunFirst(b.Directory(), Write(file, rows));
    b.WriteFile(file, batch.table, batch.rows, written, k);
    trace := [Write(file, rows)];
  }

  lemma RunNothing(d: Dir)
    ensures Run(d, []) == d && !RepeatsAlong(d, [])
  {
  }

  lemma RunFirst(d: Dir, ev: DlqFiles.Event)
    ensures Run(d, [ev]) == Apply(d, ev) && (RepeatsAlong(d, [ev]) <==> Repeats(d, ev))
    ensures !ev.Insert? ==> !Repeats(d, ev)
  {
    assert [ev][..0] == [];
  }

  lemma HeldIsWithin(d: Dir, r: nat)
    requires Valid(d) && r in d.readers
    ensures HeldWithin(d, d.readers[r]) && d.readers[r].file < |d.files|
    ensures d.readers[r].length <= |d.files[d.readers[r].file].rows|
    ensures Target(d, r) == LinkedAt(d.files, d.files[d.readers[r].file].stem)
    ensures !d.readers[r].inserted ==> Enabled(d, DlqFiles.Insert(r))
  {
  }

  // An insert adds copies if and only if it repeats.
  lemma {:induction false} CopiesExactly(d: Dir, r: nat, copies: Bag, table: string, rows: seq<Row>)
    requires r in d.readers && d.readers[r].file < |d.files| && Enabled(d, DlqFiles.Insert(r)) && |rows| == d.readers[r].length
    ensures Plus(copies, Tag(table, rows[..Before(d, r)])) == EMPTY <==> copies == EMPTY && !Repeats(d, DlqFiles.Insert(r))
  {
    hide Plus, Tag, Size;
    OnlyEmpty(copies, Tag(table, rows[..Before(d, r)]));
    TagSize(table, rows[..Before(d, r)]);
    NoCells(Tag(table, rows[..Before(d, r)]));
  }

  lemma {:induction false} RunConcat(d: Dir, a: seq<DlqFiles.Event>, b: seq<DlqFiles.Event>)
    ensures Run(d, a + b) == Run(Run(d, a), b)
    ensures RepeatsAlong(d, a + b) <==> RepeatsAlong(d, a) || RepeatsAlong(Run(d, a), b)
    decreases |b|
  {
    hide Apply, Repeats;
    if b == [] {
      assert a + b == a;
    } else {
      RunConcat(d, a, b[..|b| - 1]);
      assert (a + b)[..|a + b| - 1] == a + b[..|b| - 1];
    }
  }

  // Whatever the threads do and in whatever order, spools and replays of one file included: every
  // row ever queued is in exactly one place, buffered, in flight, inserted, in a dead-letter file,
  // replayed from one, dropped, or missing. All are kept, by a replay that still holds them at least,
  // if and only if no step on the dead-letter files loses one; with no replay under way that is when
  // none is missing. ClickHouse has copies if and only if some step inserts rows once more.
  method Interleave(b: ClickHouseBatcher, actions: seq<Action>) returns (ghost trace: seq<DlqFiles.Event>)
    requires b.Balanced()
    modifies b
    ensures b.Balanced() && b.queued == Plus(old(b.queued), Added(actions))
    ensures b.Directory() == Run(old(b.Directory()), trace)
    ensures AllKept(b.Directory()) <==> AllKept(old(b.Directory())) && !LosesAlong(old(b.Directory()), trace)
    ensures b.replays == map[] ==> (Sum(b.dlq, Missing) == EMPTY <==> AllKept(b.Directory()))
    ensures b.copies == EMPTY <==> old(b.copies) == EMPTY && !RepeatsAlong(old(b.Directory()), trace)
  {
    hide *;
    ghost var d := b.Directory();
    b.BalancedDirectory();
    Nothing(b.queued, actions);
    RunNothing(d);
    trace := [];
    for i := 0 to |actions|
      invariant b.Balanced() && b.queued == Plus(old(b.queued), Added(actions[..i]))
      invariant b.Directory() == Run(d, trace)
      invariant b.copies == EMPTY <==> old(b.copies) == EMPTY && !RepeatsAlong(d, trace)
    {
      AddedOne(actions, i, old(b.queued));
      ghost var more := Act(b, actions[i]);
      RunConcat(d, trace, more);
      trace := trace + more;
    }
    assert actions[..|actions|] == actions;
    LostExactly(d, trace);
    b.BalancedDirectory();
    if b.replays == map[] {
      MissingExactly(b.Directory());
    }
  }

  lemma Nothing(start: Bag, actions: seq<Action>)
    ensures Plus(start, Added(actions[..0])) == start
  {
    PlusEmpty(start);
  }
}
