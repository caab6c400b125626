// Bags of (table, row) cells: the accounts in which the batcher's rows are kept. Proofs about
// the batcher use them through the lemmas below and never look inside.
module Ledger {

  type Row = string    // a record, as the JSON line it is spooled as

  datatype Bag = Bag(cells: multiset<(string, Row)>)

  ghost const EMPTY: Bag := Bag(multiset{})

  ghost function Plus(a: Bag, b: Bag): Bag {
    Bag(a.cells + b.cells)
  }

  ghost predicate Within(a: Bag, b: Bag) {
    a.cells <= b.cells
  }

  ghost function Size(a: Bag): nat {
    |a.cells|
  }

  // The rows of one table.
  ghost function Tag(table: string, rows: seq<Row>): Bag {
    if rows == [] then EMPTY
    else Bag(Tag(table, rows[..|rows| - 1]).cells + multiset{(table, rows[|rows| - 1])})
  }

  lemma PlusEmpty(a: Bag)
    ensures Plus(a, EMPTY) == a && Plus(EMPTY, a) == a
  {
  }

  lemma Swap(x: Bag, a: Bag, b: Bag)
    ensures Plus(Plus(x, a), b) == Plus(Plus(x, b), a)
  {
  }

  lemma Regroup(x: Bag, a: Bag, b: Bag)
    ensures Plus(x, Plus(a, b)) == Plus(Plus(x, a), b)
  {
  }

  lemma Cancel(a: Bag, b: Bag, x: Bag, y: Bag)
    requires Plus(a, x) == Plus(b, Plus(x, y))
    ensures a == Plus(b, y)
  {
    assert a.cells + x.cells == b.cells + (x.cells + y.cells);
    forall c ensures a.cells[c] == (b.cells + y.cells)[c] {
      assert (a.cells + x.cells)[c] == (b.cells + (x.cells + y.cells))[c];
    }
  }

  lemma PlusSize(a: Bag, b: Bag)
    ensures Size(Plus(a, b)) == Size(a) + Size(b)
  {
  }

  lemma WithinPlus(a: Bag, b: Bag)
    ensures Within(a, Plus(a, b)) && Within(a, a)
  {
  }

  lemma WithinTrans(a: Bag, b: Bag, c: Bag)
    requires Within(a, b) && Within(b, c)
    ensures Within(a, c)
  {
  }

  lemma {:induction false} TagAppend(table: string, a: seq<Row>, b: seq<Row>)
    ensures Tag(table, a + b) == Plus(Tag(table, a), Tag(table, b))
  {
    if b == [] {
      assert a + b == a;
    } else {
      var b' := b[..|b| - 1];
      assert (a + b)[..|a + b| - 1] == a + b';
      TagAppend(table, a, b');
    }
  }

  lemma {:induction false} TagSize(table: string, rows: seq<Row>)
    ensures Size(Tag(table, rows)) == |rows|
  {
    if rows != [] {
      TagSize(table, rows[..|rows| - 1]);
    }
  }

  // ----- how the accounts move -----------------------------------------------------------------

  // Every row ever queued is in exactly one of the five places.
  ghost predicate Books(queued: Bag, buffered: Bag, inFlight: Bag, flushed: Bag, spooled: Bag, dropped: Bag) {
    queued == Plus(Plus(Plus(Plus(buffered, inFlight), flushed), spooled), dropped)
  }

  // ClickHouse holds every row flushed, every row replayed in the table it went to, and copies.
  ghost predicate Exact(server: Bag, flushed: Bag, arrived: Bag, copies: Bag) {
    server == Plus(Plus(flushed, arrived), copies)
  }

  // What ClickHouse holds for certain.
  ghost predicate Holds(server: Bag, flushed: Bag, replayed: Bag, misrouted: bool) {
    Within(flushed, server) && (!misrouted ==> Within(Plus(flushed, replayed), server))
  }

  lemma BooksQueue(q: Bag, b: Bag, i: Bag, f: Bag, s: Bag, d: Bag, x: Bag)
    requires Books(q, b, i, f, s, d)
    ensures Books(Plus(q, x), Plus(b, x), i, f, s, d)
  {
  }

  lemma BooksSnapshot(q: Bag, b: Bag, i: Bag, f: Bag, s: Bag, d: Bag)
    requires Books(q, b, i, f, s, d)
    ensures Books(q, EMPTY, Plus(i, b), f, s, d)
  {
  }

  lemma BooksInsert(q: Bag, b: Bag, i: Bag, f: Bag, s: Bag, d: Bag, x: Bag)
    requires Books(q, b, Plus(i, x), f, s, d)
    ensures Books(q, b, i, Plus(f, x), s, d)
  {
  }

  lemma BooksSpool(q: Bag, b: Bag, i: Bag, f: Bag, s: Bag, d: Bag, x: Bag, y: Bag)
    requires Books(q, b, Plus(i, Plus(x, y)), f, s, d)
    ensures Books(q, b, i, f, Plus(s, x), Plus(d, y))
  {
  }

  lemma HoldsFlush(server: Bag, f: Bag, r: Bag, m: bool, x: Bag)
    requires Holds(server, f, r, m)
    ensures Holds(Plus(server, x), Plus(f, x), r, m)
  {
  }

  // An insert of `x` and possibly more, unless it goes to a wrong table.
  lemma HoldsInsert(server: Bag, f: Bag, r: Bag, m: bool, x: Bag, y: Bag, wrong: bool)
    requires Holds(server, f, r, m) && (!wrong ==> Within(x, y))
    ensures Holds(Plus(server, y), f, Plus(r, x), m || wrong)
  {
  }

  lemma ExactFlush(server: Bag, f: Bag, a: Bag, c: Bag, x: Bag)
    requires Exact(server, f, a, c)
    ensures Exact(Plus(server, x), Plus(f, x), a, c)
  {
  }

  lemma ExactInsert(server: Bag, f: Bag, a: Bag, c: Bag, again: Bag, more: Bag)
    requires Exact(server, f, a, c)
    ensures Exact(Plus(server, Plus(again, more)), f, Plus(a, more), Plus(c, again))
  {
  }

  lemma OnlyEmpty(a: Bag, b: Bag)
    ensures Plus(a, b) == EMPTY <==> a == EMPTY && b == EMPTY
  {
    if Plus(a, b) == EMPTY {
      PlusSize(a, b);
    }
  }

  lemma NoCells(a: Bag)
    ensures Size(a) == 0 <==> a == EMPTY
  {
  }

  lemma SameBySize(a: Bag, b: Bag)
    requires Within(a, b) && Size(a) == Size(b)
    ensures a == b
  {
    var rest := b.cells - a.cells;
    assert b.cells == a.cells + rest;
  }

  lemma PlusSwap(a: Bag, b: Bag)
    ensures Plus(a, b) == Plus(b, a)
  {
  }
}
