/**
 Keyset-paged lists: internal/api/pagination.go and the page query of
 internal/api/oauth_applications.go. A cursor is the position of the last row of a page.
 */
module Paging {
  import opened Common

  datatype Row = Row(createdAt: Instant, uid: Uid)

  type Table = set<Row>

  /** The row-wise comparison (created_at, uid) < (created_at, uid). */
  predicate Below(a: Row, b: Row) {
    a.createdAt < b.createdAt || (a.createdAt == b.createdAt && a.uid < b.uid)
  }

  predicate Descending(rows: seq<Row>) {
    forall i, j | 0 <= i < j < |rows| :: Below(rows[j], rows[i])
  }

  /** The rows a page query considers. */
  function After(t: Table, cursor: Option<Row>): Table {
    if cursor.None? then t else set r | r in t && Below(r, cursor.value)
  }

  lemma HighestExists(t: Table)
    requires t != {}
    ensures exists m :: m in t && forall r | r in t && r != m :: Below(r, m)
  {
    var m :| m in t;
    if t != {m} {
      HighestExists(t - {m});
      var n :| n in t - {m} && forall r | r in t - {m} && r != n :: Below(r, n);
      var highest := if Below(n, m) then m else n;
      forall r | r in t && r != highest ensures Below(r, highest) {
        assert r == m || r == n || Below(r, n);
      }
    }
  }

  function Highest(t: Table): (m: Row)
    requires t != {}
    ensures m in t && forall r | r in t && r != m :: Below(r, m)
  {
    HighestExists(t);
    var m :| m in t && forall r | r in t && r != m :: Below(r, m);
    m
  }

  /** Newest first, ties broken by the higher uid. */
  function Sorted(t: Table): seq<Row> {
    if t == {} then [] else [Highest(t)] + Sorted(t - {Highest(t)})
  }

  lemma {:induction false} SortedIsTheTable(t: Table)
    ensures Descending(Sorted(t)) && |Sorted(t)| == |t|
    ensures forall r :: r in Sorted(t) <==> r in t
  {
    if t != {} {
      var m, all := Highest(t), Sorted(t);
      SortedIsTheTable(t - {m});
      forall j | 0 < j < |all| ensures Below(all[j], m) {
        assert all[j] in Sorted(t - {m});
      }
    }
  }

  datatype Page = Page(items: seq<Row>, next: Option<Row>)

  /** The handler: query limit + 1 rows, keep limit of them, and point past the last kept one. */
  function PageOf(t: Table, cursor: Option<Row>, limit: nat): Page
    requires limit >= 1
  {
    var all := Sorted(After(t, cursor));
    if |all| > limit then Page(all[..limit], Some(all[limit - 1])) else Page(all, None)
  }

  method ListPage(t: Table, cursor: Option<Row>, limit: nat) returns (page: Page)
    requires 1 <= limit <= 100
    ensures page == PageOf(t, cursor, limit)
  {
    var all := Sorted(After(t, cursor));
    var rows := if |all| > limit + 1 then all[..limit + 1] else all;
    var items: seq<Row> := [];
    for n := 0 to |rows|
      invariant items == rows[..n]
    {
      items := items + [rows[n]];
    }
    var next: Option<Row> := None;
    if |items| > limit {
      var position := items[limit - 1];
      items := items[..limit];
      next := Some(position);
    }
    page := Page(items, next);
  }

  // ----- walking from page to page while the table changes -----

  /** Page i is read from table i, at the cursor page i - 1 returned; the walk stops at the page without one. */
  ghost predicate IsWalk(tables: seq<Table>, pages: seq<Page>, limit: nat) {
    && limit >= 1 && |tables| == |pages| && |pages| >= 1
    && (forall i | 0 <= i < |pages| - 1 :: pages[i].next.Some?)
    && (forall i | 0 <= i < |pages| :: IsPage(tables, pages, limit, i))
  }

  predicate IsPage(tables: seq<Table>, pages: seq<Page>, limit: nat, i: nat)
    requires limit >= 1 && i < |pages| == |tables|
  {
    pages[i] == PageOf(tables[i], CursorAt(pages, i), limit)
  }

  function CursorAt(pages: seq<Page>, i: nat): Option<Row>
    requires i <= |pages|
  {
    if i == 0 then None else pages[i - 1].next
  }

  function Items(pages: seq<Page>): seq<Row> {
    if pages == [] then [] else Items(pages[..|pages| - 1]) + pages[|pages| - 1].items
  }

  /** r comes at or before the cursor, in page order. */
  predicate Passed(r: Row, cursor: Option<Row>) {
    cursor.Some? && !Below(r, cursor.value)
  }

  lemma PageFacts(t: Table, cursor: Option<Row>, limit: nat)
    requires limit >= 1
    ensures var page := PageOf(t, cursor, limit);
            && Descending(page.items)
            && (forall r | r in page.items :: r in t && !Passed(r, cursor))
            && (page.next.Some? ==>
                  && (forall r | r in t && !Passed(r, cursor) :: r in page.items <==> Passed(r, page.next))
                  && (cursor.Some? ==> Below(page.next.value, cursor.value))
                  && (forall r | r in page.items :: Passed(r, page.next)))
            && (page.next.None? ==> forall r | r in t && !Passed(r, cursor) :: r in page.items)
  {
    var all := Sorted(After(t, cursor));
    SortedIsTheTable(After(t, cursor));
    if |all| > limit {
      assert all[limit - 1] in all;
      forall r | r in t && !Passed(r, cursor) ensures r in all[..limit] <==> Passed(r, Some(all[limit - 1])) {
        assert r in all;
        var i :| 0 <= i < |all| && all[i] == r;
        assert i < limit ==> all[..limit][i] == r;
      }
    }
  }

  /** A page has a next cursor exactly when more rows remain than fit, is full then, and else has all that remain. */
  lemma PageSize(t: Table, cursor: Option<Row>, limit: nat)
    requires limit >= 1
    ensures var page, remaining := PageOf(t, cursor, limit), set r | r in t && !Passed(r, cursor);
            && |page.items| == (if |remaining| > limit then limit else |remaining|)
            && (page.next.Some? <==> |remaining| > limit)
            && (page.next.Some? ==> page.next.value == page.items[limit - 1])
  {
    SortedIsTheTable(After(t, cursor));
    assert After(t, cursor) == set r | r in t && !Passed(r, cursor);
  }

  predicate InAll(tables: seq<Table>, r: Row, n: nat)
    requires n <= |tables|
  {
    forall i | 0 <= i < n :: r in tables[i]
  }

  /** What the items listed before a cursor are: descending, passed, and holding every lasting row that is passed. */
  ghost predicate SoFar(tables: seq<Table>, items: seq<Row>, cursor: Option<Row>, n: nat)
    requires n <= |tables|
  {
    && Descending(items)
    && (forall r | r in items :: Passed(r, cursor))
    && (forall r | InAll(tables, r, n) && Passed(r, cursor) :: r in items)
  }

  lemma OneMorePage(tables: seq<Table>, items: seq<Row>, cursor: Option<Row>, n: nat, limit: nat)
    requires n < |tables| && limit >= 1 && SoFar(tables, items, cursor, n)
    requires PageOf(tables[n], cursor, limit).next.Some?
    ensures var page := PageOf(tables[n], cursor, limit); SoFar(tables, items + page.items, page.next, n + 1)
  {
    var page := PageOf(tables[n], cursor, limit);
    PageFacts(tables[n], cursor, limit);
    Joined(items, page.items, cursor);
    forall r | r in items + page.items ensures Passed(r, page.next) {
      assert r in items ==> Passed(r, cursor);
    }
    forall r | InAll(tables, r, n + 1) && Passed(r, page.next) ensures r in items + page.items {
      assert r in tables[n];
      assert InAll(tables, r, n);
    }
  }

  lemma {:induction false} WalkSoFar(tables: seq<Table>, pages: seq<Page>, limit: nat, n: nat)
    requires IsWalk(tables, pages, limit) && n < |pages|
    ensures SoFar(tables, Items(pages[..n]), CursorAt(pages, n), n)
  {
    if n > 0 {
      WalkSoFar(tables, pages, limit, n - 1);
      assert IsPage(tables, pages, limit, n - 1);
      assert pages[..n][..n - 1] == pages[..n - 1];
      OneMorePage(tables, Items(pages[..n - 1]), CursorAt(pages, n - 1), n - 1, limit);
    }
  }

  lemma Joined(xs: seq<Row>, ys: seq<Row>, cursor: Option<Row>)
    requires Descending(xs) && Descending(ys)
    requires forall r | r in xs :: Passed(r, cursor)
    requires forall r | r in ys :: !Passed(r, cursor)
    ensures Descending(xs + ys)
  {
    var all := xs + ys;
    forall i, j | 0 <= i < j < |all| ensures Below(all[j], all[i]) {
      if i < |xs| <= j {
        assert all[i] in xs && all[j] in ys;
      }
    }
  }

  /**
   A finished walk lists its rows in strictly descending order, so none twice, and lists every
   row that was in the table throughout, whatever was inserted or deleted between the pages.
   */
  lemma WalkListsLastingRowsOnce(tables: seq<Table>, pages: seq<Page>, limit: nat)
    requires IsWalk(tables, pages, limit) && pages[|pages| - 1].next.None?
    ensures Descending(Items(pages))
    ensures forall r | InAll(tables, r, |tables|) :: r in Items(pages)
    ensures forall r | r in Items(pages) :: exists i | 0 <= i < |tables| :: r in tables[i]
  {
    var n := |pages| - 1;
    WalkSoFar(tables, pages, limit, n);
    assert IsPage(tables, pages, limit, n);
    var before, cursor := Items(pages[..n]), CursorAt(pages, n);
    PageFacts(tables[n], cursor, limit);
    Joined(before, pages[n].items, cursor);
    forall r | InAll(tables, r, |tables|) ensures r in Items(pages) {
      assert r in tables[n];
      if Passed(r, cursor) {
        assert InAll(tables, r, n);
      }
    }
    ItemsComeFromTables(tables, pages, limit, |pages|);
    assert pages[..|pages|] == pages;
  }

  lemma {:induction false} ItemsComeFromTables(tables: seq<Table>, pages: seq<Page>, limit: nat, n: nat)
    requires IsWalk(tables, pages, limit) && n <= |pages|
    ensures forall r | r in Items(pages[..n]) :: exists i | 0 <= i < n :: r in tables[i]
  {
    if n > 0 {
      ItemsComeFromTables(tables, pages, limit, n - 1);
      assert IsPage(tables, pages, limit, n - 1);
      assert pages[..n][..n - 1] == pages[..n - 1];
      PageFacts(tables[n - 1], CursorAt(pages, n - 1), limit);
    }
  }

  lemma {:induction false} DescendingUnique(xs: seq<Row>, ys: seq<Row>)
    requires Descending(xs) && Descending(ys)
    requires forall r :: r in xs <==> r in ys
    ensures xs == ys
  {
    assert xs == [] || xs[0] in ys;
    assert ys == [] || ys[0] in xs;
    if xs != [] {
      assert xs[0] == ys[0];
      assert xs == [xs[0]] + xs[1..] && ys == [ys[0]] + ys[1..];
      forall r ensures r in xs[1..] <==> r in ys[1..] {
        if r in xs[1..] {
          assert r in ys && r != xs[0];
        }
        if r in ys[1..] {
          assert r in xs && r != ys[0];
        }
      }
      DescendingUnique(xs[1..], ys[1..]);
    }
  }

  /** On an unchanging table the pages, put together, are the whole sorted list. */
  lemma WalkOfStillTable(t: Table, tables: seq<Table>, pages: seq<Page>, limit: nat)
    requires IsWalk(tables, pages, limit) && pages[|pages| - 1].next.None?
    requires forall i | 0 <= i < |tables| :: tables[i] == t
    ensures Items(pages) == Sorted(t)
  {
    WalkListsLastingRowsOnce(tables, pages, limit);
    SortedIsTheTable(t);
    forall r ensures r in Items(pages) <==> r in Sorted(t) {
      if r in t {
        assert InAll(tables, r, |tables|);
      }
    }
    DescendingUnique(Items(pages), Sorted(t));
  }

  /** On an unchanging table every page with a cursor leaves strictly fewer rows to list. */
  lemma StillWalkShrinks(t: Table, cursor: Option<Row>, limit: nat)
    requires limit >= 1 && PageOf(t, cursor, limit).next.Some?
    ensures After(t, PageOf(t, cursor, limit).next) < After(t, cursor)
  {
    PageFacts(t, cursor, limit);
    var next := PageOf(t, cursor, limit).next.value;
    SortedIsTheTable(After(t, cursor));
    assert next in After(t, cursor) && next !in After(t, Some(next));
  }

  /** Following the cursors of an unchanging table ends. */
  function FollowCursors(t: Table, cursor: Option<Row>, limit: nat): seq<Page>
    requires limit >= 1
    decreases After(t, cursor)
  {
    var page := PageOf(t, cursor, limit);
    if page.next.None? then [page]
    else
      StillWalkShrinks(t, cursor, limit);
      [page] + FollowCursors(t, page.next, limit)
  }

  lemma {:induction false} FollowCursorsIsWalk(t: Table, cursor: Option<Row>, limit: nat)
    requires limit >= 1
    ensures var pages := FollowCursors(t, cursor, limit);
            && |pages| >= 1 && pages[|pages| - 1].next.None?
            && pages[0] == PageOf(t, cursor, limit)
            && forall i | 0 <= i < |pages| - 1 :: pages[i].next.Some? && pages[i + 1] == PageOf(t, pages[i].next, limit)
    decreases After(t, cursor)
  {
    var page := PageOf(t, cursor, limit);
    if page.next.Some? {
      StillWalkShrinks(t, cursor, limit);
      FollowCursorsIsWalk(t, page.next, limit);
    }
  }

  /** The walk over an unchanging table terminates and lists the whole table in order. */
  lemma StillWalkListsSortedTable(t: Table, limit: nat)
    requires limit >= 1
    ensures Items(FollowCursors(t, None, limit)) == Sorted(t)
  {
    var pages := FollowCursors(t, None, limit);
    FollowCursorsIsWalk(t, None, limit);
    var tables := seq(|pages|, i => t);
    assert IsWalk(tables, pages, limit);
    WalkOfStillTable(t, tables, pages, limit);
  }
}
