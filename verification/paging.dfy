/** Pages of a table in the order of its ids, and a client that follows each page
    to the next -- of a table that may change between one page and another. */
module Paging {
  import opened Basics

  datatype Row = Row(id: Id, body: string)

  datatype Page = Page(items: seq<Row>, next: Option<Id>)

  predicate Ordered(rows: seq<Row>) {
    forall i, j :: 0 <= i < j < |rows| ==> rows[i].id < rows[j].id
  }

  predicate Past(r: Row, after: Option<Id>) {
    after.None? || r.id > after.value
  }

  /** The rows past a cursor. */
  function From(table: seq<Row>, after: Option<Id>): seq<Row> {
    if table == [] then [] else (if Past(table[0], after) then [table[0]] else []) + From(table[1..], after)
  }

  /** What a list reads: the rows past the cursor, up to one more than the page
      holds. */
  function Query(table: seq<Row>, after: Option<Id>, limit: nat): seq<Row> {
    var rows := From(table, after);
    if |rows| <= limit + 1 then rows else rows[..limit + 1]
  }

  function Clamped(limit: Option<int>): (n: nat)
    ensures 1 <= n <= 500
  {
    var asked := if limit.None? then 100 else limit.value;
    if asked < 1 then 1 else if asked > 500 then 500 else asked
  }

  /** A page holds what was asked for, from one row to five hundred, and a hundred
      where nothing was. */
  lemma APageHolds(limit: Option<int>)
    ensures Clamped(None) == 100
    ensures limit.Some? && 1 <= limit.value <= 500 ==> Clamped(limit) == limit.value
    ensures limit.Some? && limit.value < 1 ==> Clamped(limit) == 1
    ensures limit.Some? && 500 < limit.value ==> Clamped(limit) == 500
  {
  }

  /** A page from rows read with one to spare: the extra row says there is another
      page, and is dropped. */
  function PageOf(items: seq<Row>, limit: int): Page {
    var limit := if limit < 0 then 0 else limit;
    if |items| > limit then Page(items[..limit], if limit == 0 then None else Some(items[limit - 1].id))
    else Page(items, None)
  }

  method FromRows(rows: seq<Row>, limit: int) returns (page: Page)
    ensures page == PageOf(rows, limit)
  {
    var items := rows;
    var most := if limit < 0 then 0 else limit;
    var next: Option<Id> := None;
    if |items| > most {
      items := items[..most];
      if items != [] {
        next := Some(items[|items| - 1].id);
      }
    }
    return Page(items, next);
  }

  function List(table: seq<Row>, after: Option<Id>, limit: Option<int>): Page {
    PageOf(Query(table, after, Clamped(limit)), Clamped(limit))
  }

  // ---- One page ---------------------------------------------------------------------------------

  lemma {:induction false} FromIs(table: seq<Row>, after: Option<Id>)
    requires Ordered(table)
    ensures Ordered(From(table, after))
    ensures forall r :: r in From(table, after) <==> r in table && Past(r, after)
  {
    if table != [] {
      FromIs(table[1..], after);
      var rest := From(table[1..], after);
      forall k | 0 <= k < |rest| ensures table[0].id < rest[k].id {
        assert rest[k] in table[1..];
      }
    }
  }

  lemma FromUnfolds(table: seq<Row>, after: Option<Id>)
    requires table != []
    ensures From(table, after) == (if Past(table[0], after) then [table[0]] else []) + From(table[1..], after)
  {
  }

  lemma {:induction false} RestIsLater(table: seq<Row>, after: Option<Id>, k: nat)
    requires Ordered(table) && table != [] && k < |From(table[1..], after)|
    ensures table[0].id < From(table[1..], after)[k].id
  {
    FromIs(table[1..], after);
    assert From(table[1..], after)[k] in From(table[1..], after);
  }

  /** From the last row of the beginning of what was left, the rest is left. */
  lemma {:induction false} FromTheLast(table: seq<Row>, after: Option<Id>, n: nat)
    requires Ordered(table) && 0 < n <= |From(table, after)|
    ensures From(table, Some(From(table, after)[n - 1].id)) == From(table, after)[n..]
    decreases |table|
  {
    hide From;
    FromNothing(after);
    var rows, rest := From(table, after), From(table[1..], after);
    var cursor := rows[n - 1].id;
    FromUnfolds(table, after);
    FromUnfolds(table, Some(cursor));
    if !Past(table[0], after) {
      assert rows == rest;
      RestIsLater(table, after, n - 1);
      FromTheLast(table[1..], after, n);
    } else if n == 1 {
      AllPast(table[1..], after, cursor);
      assert rows[1..] == rest;
    } else {
      RestIsLater(table, after, n - 2);
      FromTheLast(table[1..], after, n - 1);
      assert rows[n..] == rest[n - 1..];
    }
  }

  lemma FromNothing(after: Option<Id>)
    ensures From([], after) == []
  {
  }

  lemma {:induction false} AllPast(table: seq<Row>, after: Option<Id>, cursor: Id)
    requires forall i :: 0 <= i < |table| ==> cursor < table[i].id && Past(table[i], after)
    ensures From(table, Some(cursor)) == From(table, after)
  {
    if table != [] { AllPast(table[1..], after, cursor); }
  }

  /** A page is the beginning of what is left; it names a next page exactly where
      rows are left after it, and those are the rows the next page starts from. */
  lemma APageAndTheRest(table: seq<Row>, after: Option<Id>, limit: Option<int>)
    requires Ordered(table)
    ensures var page := List(table, after, limit);
            && |page.items| <= Clamped(limit)
            && (page.next.None? <==> page.items == From(table, after))
            && (page.next.Some? ==>
                  && |page.items| == Clamped(limit) && page.next == Some(page.items[|page.items| - 1].id)
                  && From(table, page.next) != []
                  && page.items + From(table, page.next) == From(table, after))
  {
    var n, rows := Clamped(limit), From(table, after);
    if |rows| > n {
      FromTheLast(table, after, n);
      assert Query(table, after, n)[..n] == rows[..n];
      assert rows[..n] + rows[n..] == rows;
    }
  }

  // ---- Following the pages ----------------------------------------------------------------------

  /** What a client gathers, asking once of each table as it then is, until a page
      names no next; and whether it got that far. */
  function Visit(tables: seq<seq<Row>>, after: Option<Id>, limit: Option<int>): (seq<Row>, bool)
    decreases |tables|
  {
    if tables == [] then ([], false)
    else
      var page := List(tables[0], after, limit);
      if page.next.None? then (page.items, true)
      else
        var (more, ended) := Visit(tables[1..], page.next, limit);
        (page.items + more, ended)
  }

  predicate AllOrdered(tables: seq<seq<Row>>) {
    forall i :: 0 <= i < |tables| ==> Ordered(tables[i])
  }

  predicate AllPastCursor(rows: seq<Row>, after: Option<Id>) {
    forall i :: 0 <= i < |rows| ==> Past(rows[i], after)
  }

  lemma PageIsPast(table: seq<Row>, after: Option<Id>, limit: Option<int>)
    requires Ordered(table)
    ensures Ordered(List(table, after, limit).items) && AllPastCursor(List(table, after, limit).items, after)
  {
    hide From;
    FromIs(table, after);
    var page, rows := List(table, after, limit), From(table, after);
    assert page.items == rows[..|page.items|];
    assert forall i :: 0 <= i < |rows| ==> rows[i] in rows;
  }

  /** However the table changes between pages, no row is given twice: the ids only
      grow. */
  lemma {:induction false} NoRowTwice(tables: seq<seq<Row>>, after: Option<Id>, limit: Option<int>)
    requires AllOrdered(tables)
    ensures Ordered(Visit(tables, after, limit).0) && AllPastCursor(Visit(tables, after, limit).0, after)
    decreases |tables|
  {
    if tables != [] {
      var page := List(tables[0], after, limit);
      PageIsPast(tables[0], after, limit);
      APageAndTheRest(tables[0], after, limit);
      if page.next.Some? {
        NoRowTwice(tables[1..], page.next, limit);
        var more := Visit(tables[1..], page.next, limit).0;
        PastTheLast(page.items, more);
      }
    }
  }

  lemma PastTheLast(items: seq<Row>, more: seq<Row>)
    requires Ordered(items) && items != [] && Ordered(more) && AllPastCursor(more, Some(items[|items| - 1].id))
    ensures Ordered(items + more)
    ensures forall i :: 0 <= i < |more| ==> more[i].id > items[0].id
  {
  }

  /** And no row is missed that was there throughout. */
  lemma {:induction false} NoRowMissed(tables: seq<seq<Row>>, after: Option<Id>, limit: Option<int>, r: Row)
    requires AllOrdered(tables) && Visit(tables, after, limit).1 && Past(r, after)
    requires forall i :: 0 <= i < |tables| ==> r in tables[i]
    ensures r in Visit(tables, after, limit).0
    decreases |tables|
  {
    var page := List(tables[0], after, limit);
    APageAndTheRest(tables[0], after, limit);
    FromIs(tables[0], after);
    assert r in From(tables[0], after);
    if page.next.Some? {
      FromIs(tables[0], page.next);
      assert r in page.items || r in From(tables[0], page.next);
      if r !in page.items {
        NoRowMissed(tables[1..], page.next, limit, r);
      }
    }
  }

  /** A table that does not change is given whole, in order, and the client ends:
      asking as often as there are rows, and once more, is enough. */
  lemma {:induction false} TheWholeTable(table: seq<Row>, n: nat, after: Option<Id>, limit: Option<int>)
    requires Ordered(table) && |From(table, after)| < n
    ensures Visit(seq(n, i => table), after, limit) == (From(table, after), true)
    decreases n
  {
    var tables := seq(n, i => table);
    var page := List(table, after, limit);
    APageAndTheRest(table, after, limit);
    assert tables[0] == table && tables[1..] == seq(n - 1, i => table);
    if page.next.Some? {
      TheWholeTable(table, n - 1, page.next, limit);
    }
  }

  lemma {:induction false} FromTheBeginning(table: seq<Row>)
    ensures From(table, None) == table
  {
    if table != [] { FromTheBeginning(table[1..]); }
  }

  /** From no cursor, every row once, in order. */
  lemma EveryRowOnce(table: seq<Row>, limit: Option<int>)
    requires Ordered(table)
    ensures Visit(seq(|table| + 1, i => table), None, limit) == (table, true)
  {
    FromTheBeginning(table);
    TheWholeTable(table, |table| + 1, None, limit);
  }
}
