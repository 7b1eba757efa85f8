/**
 Keyset paging of the list endpoints: each request asks for the rows below the cursor in descending id order, one more
 than a page, and hands out the last id of the page as the next cursor.
 */
module Paging {
  import opened Base

  /** Row ids in their total order. */
  type Id = nat

  const DEFAULT_PER_PAGE := 20
  const MAX_PER_PAGE := 100

  /** ParsePagination, given the parsed per_page parameter: absent or not a number is None. */
  function PerPage(requested: Option<int>): (n: nat)
    ensures 1 <= n <= 100
    ensures requested.Some? && 1 <= requested.value <= 100 ==> n == requested.value
    ensures requested.Some? && 100 <= requested.value <= 10000 ==> n == 100
    ensures !(requested.Some? && 1 <= requested.value <= 10000) ==> n == 20
  {
    match requested
    case Some(pp) =>
      // parsePositiveInt refuses what is not between 1 and 10000
      if pp <= 0 || pp > 10000 then DEFAULT_PER_PAGE else if pp > MAX_PER_PAGE then MAX_PER_PAGE else pp
    case None => DEFAULT_PER_PAGE
  }

  // ----- the query -----

  predicate Below(x: Id, cursor: Option<Id>) {
    cursor.Some? ==> x < cursor.value
  }

  /** The rows that the WHERE clause with the cursor selects. */
  function Visible(table: set<Id>, cursor: Option<Id>): set<Id> {
    set x | x in table && Below(x, cursor)
  }

  function Greatest(s: set<Id>): (m: Id)
    requires s != {}
    ensures m in s && forall x :: x in s ==> x <= m
  {
    HasGreatest(s);
    var m :| m in s && forall x :: x in s ==> x <= m;
    m
  }

  lemma {:induction false} HasGreatest(s: set<Id>)
    requires s != {}
    ensures exists m :: m in s && forall x :: x in s ==> x <= m
  {
    var a :| a in s;
    var rest := s - {a};
    if rest == {} {
      assert s == {a};
    } else {
      HasGreatest(rest);
      var m :| m in rest && forall x :: x in rest ==> x <= m;
      var top := if a > m then a else m;
      assert top in s;
      forall x | x in s
        ensures x <= top
      {
        assert x == a || x in rest;
      }
    }
  }

  /** ORDER BY id DESC LIMIT n. */
  function Descending(s: set<Id>, n: nat): seq<Id>
    decreases n
  {
    if n == 0 || s == {} then []
    else
      var m := Greatest(s);
      [m] + Descending(s - {m}, n - 1)
  }

  predicate Falls(ids: seq<Id>) {
    forall i, j :: 0 <= i < j < |ids| ==> ids[i] > ids[j]
  }

  /** The n greatest rows in descending order: their number, their order, and that nothing greater is missing. */
  ghost predicate TopRows(ids: seq<Id>, s: set<Id>, n: nat) {
    && |ids| == (if |s| < n then |s| else n)
    && Falls(ids)
    && (forall x :: x in ids ==> x in s)
    && (forall x, y :: x in s && x !in ids && y in ids ==> x < y)
  }

  lemma {:induction false} DescendingTop(s: set<Id>, n: nat)
    ensures TopRows(Descending(s, n), s, n)
    decreases n
  {
    if n > 0 && s != {} {
      var m := Greatest(s);
      DescendingTop(s - {m}, n - 1);
      var rest := Descending(s - {m}, n - 1);
      assert |s - {m}| == |s| - 1;
      assert forall x :: x in [m] + rest <==> x == m || x in rest;
      assert forall i :: 0 <= i < |rest| ==> rest[i] in rest;
    }
  }

  lemma {:induction false} DescendingPrefix(s: set<Id>, n: nat)
    ensures Descending(s, n) <= Descending(s, n + 1)
    ensures |s| <= n ==> Descending(s, n) == Descending(s, n + 1)
    decreases n
  {
    if s != {} {
      var m := Greatest(s);
      assert |s - {m}| == |s| - 1;
      if n > 0 {
        DescendingPrefix(s - {m}, n - 1);
      }
    }
  }

  lemma {:induction false} DescendingAll(s: set<Id>, n: nat, x: Id)
    requires |s| <= n && x in s
    ensures x in Descending(s, n)
    decreases n
  {
    var m := Greatest(s);
    assert |s - {m}| == |s| - 1;
    if x != m {
      DescendingAll(s - {m}, n - 1, x);
    }
  }

  /** Below the last of the n greatest rows lie all rows but those n. */
  lemma {:induction false} DescendingRest(s: set<Id>, n: nat)
    requires 0 < n <= |s|
    ensures |Descending(s, n)| == n
    ensures |set x | x in s && x < Descending(s, n)[n - 1]| == |s| - n
    decreases n
  {
    var m := Greatest(s);
    var rest := s - {m};
    if n == 1 {
      assert (set x | x in s && x < m) == rest;
    } else {
      DescendingRest(rest, n - 1);
      var last := Descending(rest, n - 1)[n - 2];
      DescendingTop(rest, n - 1);
      assert last in Descending(rest, n - 1);
      assert (set x | x in s && x < last) == (set x | x in rest && x < last);
      assert Descending(s, n)[n - 1] == last;
    }
  }

  // ----- one request -----

  function PageOf(table: set<Id>, cursor: Option<Id>, perPage: nat): seq<Id> {
    Descending(Visible(table, cursor), perPage)
  }

  predicate HasMore(table: set<Id>, cursor: Option<Id>, perPage: nat) {
    |Visible(table, cursor)| > perPage
  }

  /** NewCursorPaginationMeta: there is a next cursor when there are more rows and the page has a last id. */
  function NextCursor(table: set<Id>, cursor: Option<Id>, perPage: nat): Option<Id> {
    var page := PageOf(table, cursor, perPage);
    if HasMore(table, cursor, perPage) && page != [] then Some(page[|page| - 1]) else None
  }

  /** The listing functions after their filters are applied: table is what the filters select. */
  method ListPage(table: set<Id>, cursor: Option<Id>, perPage: nat)
    returns (page: seq<Id>, hasMore: bool, lastId: Option<Id>)
    ensures TopRows(page, Visible(table, cursor), perPage)
    ensures hasMore <==> exists x :: x in Visible(table, cursor) && x !in page
    ensures page == PageOf(table, cursor, perPage) && hasMore == HasMore(table, cursor, perPage)
    ensures (if hasMore then lastId else None) == NextCursor(table, cursor, perPage)
  {
    ghost var s := Visible(table, cursor);
    page := Descending(Visible(table, cursor), perPage + 1);
    DescendingTop(s, perPage + 1);
    DescendingTop(s, perPage);
    DescendingPrefix(s, perPage);
    hasMore := |page| > perPage;
    if hasMore {
      Leftover(s, perPage);
      page := page[..perPage];
    } else {
      forall x | x in s
        ensures x in page
      {
        DescendingAll(s, perPage, x);
      }
    }
    assert page == Descending(s, perPage);
    lastId := if |page| > 0 then Some(page[|page| - 1]) else None;
  }

  lemma Leftover(s: set<Id>, n: nat)
    requires |s| > n
    ensures exists x :: x in s && x !in Descending(s, n)
  {
    if n == 0 {
      var x :| x in s;
      assert x !in Descending(s, 0);
    } else {
      DescendingRest(s, n);
      DescendingTop(s, n);
      var ids := Descending(s, n);
      var below := set x | x in s && x < ids[n - 1];
      assert below != {};
      var x :| x in below;
      LastIsLeast(ids);
    }
  }

  lemma LastIsLeast(ids: seq<Id>)
    requires ids != [] && Falls(ids)
    ensures forall x :: x in ids ==> x >= ids[|ids| - 1]
  {
    forall i | 0 <= i < |ids|
      ensures ids[i] >= ids[|ids| - 1]
    {
      assert i < |ids| - 1 ==> ids[i] > ids[|ids| - 1];
    }
  }

  // ----- following the cursors -----

  /** The rows a client collects: tables[i] is what the i-th request finds. */
  function Walk(tables: seq<set<Id>>, cursor: Option<Id>, perPage: nat): seq<Id> {
    if tables == [] then []
    else
      var next := NextCursor(tables[0], cursor, perPage);
      PageOf(tables[0], cursor, perPage) + (if next.Some? then Walk(tables[1..], next, perPage) else [])
  }

  /** The client reaches a page without a next cursor. */
  predicate Finishes(tables: seq<set<Id>>, cursor: Option<Id>, perPage: nat) {
    && tables != []
    && var next := NextCursor(tables[0], cursor, perPage);
    && (next.Some? ==> Finishes(tables[1..], next, perPage))
  }

  lemma PageFacts(table: set<Id>, cursor: Option<Id>, perPage: nat)
    ensures TopRows(PageOf(table, cursor, perPage), Visible(table, cursor), perPage)
    ensures forall x :: x in PageOf(table, cursor, perPage) ==> x in table && Below(x, cursor)
    ensures var next := NextCursor(table, cursor, perPage);
            next.Some? ==> forall x :: x in PageOf(table, cursor, perPage) ==> x >= next.value
  {
    var page := PageOf(table, cursor, perPage);
    DescendingTop(Visible(table, cursor), perPage);
    if page != [] {
      LastIsLeast(page);
    }
  }

  lemma FallsConcat(a: seq<Id>, b: seq<Id>, m: Id)
    requires Falls(a) && Falls(b)
    requires (forall x :: x in a ==> x >= m) && (forall x :: x in b ==> x < m)
    ensures Falls(a + b)
  {
    forall i, j | 0 <= i < j < |a + b|
      ensures (a + b)[i] > (a + b)[j]
    {
      if i < |a| <= j {
        assert a[i] in a && b[j - |a|] in b;
      }
    }
  }

  /** Whatever happens to the table between requests, the rows come in strictly descending order, so none twice. */
  lemma {:induction false} WalkFalls(tables: seq<set<Id>>, cursor: Option<Id>, perPage: nat)
    ensures Falls(Walk(tables, cursor, perPage))
    ensures forall x :: x in Walk(tables, cursor, perPage) ==> Below(x, cursor) && exists i :: 0 <= i < |tables| && x in tables[i]
  {
    if tables != [] {
      var page, next := PageOf(tables[0], cursor, perPage), NextCursor(tables[0], cursor, perPage);
      PageFacts(tables[0], cursor, perPage);
      if next.Some? {
        var rest := Walk(tables[1..], next, perPage);
        WalkFalls(tables[1..], next, perPage);
        FallsConcat(page, rest, next.value);
        forall x | x in page + rest
          ensures Below(x, cursor) && exists i :: 0 <= i < |tables| && x in tables[i]
        {
          if x in page {
            assert x in tables[0];
          } else {
            var i :| 0 <= i < |tables[1..]| && x in tables[1..][i];
            assert x in tables[i + 1];
            assert page[|page| - 1] in page;
          }
        }
      } else {
        assert Walk(tables, cursor, perPage) == page;
      }
    }
  }

  lemma NextFalls(table: set<Id>, cursor: Id, perPage: nat)
    ensures var next := NextCursor(table, Some(cursor), perPage);
            next.Some? ==> next.value < cursor
  {
    var page := PageOf(table, Some(cursor), perPage);
    PageFacts(table, Some(cursor), perPage);
    if page != [] {
      assert page[|page| - 1] in page;
    }
  }

  lemma {:induction false} FinishesBelow(tables: seq<set<Id>>, cursor: Id, perPage: nat)
    requires |tables| > cursor
    ensures Finishes(tables, Some(cursor), perPage)
  {
    NextFalls(tables[0], cursor, perPage);
    var next := NextCursor(tables[0], Some(cursor), perPage);
    if next.Some? {
      FinishesBelow(tables[1..], next.value, perPage);
    }
  }

  /** Whatever happens to the table between requests, a walk finishes: after its first page it makes no more requests than
      the first cursor has ids at or below it. */
  lemma WalkFinishes(tables: seq<set<Id>>, perPage: nat)
    requires tables != []
    requires var next := NextCursor(tables[0], None, perPage);
             next.Some? ==> |tables| > 1 + next.value
    ensures Finishes(tables, None, perPage)
  {
    var next := NextCursor(tables[0], None, perPage);
    if next.Some? {
      FinishesBelow(tables[1..], next.value, perPage);
    }
  }

  /** A row that is in the table at every request is returned by a walk that finishes. */
  lemma {:induction false} WalkComplete(tables: seq<set<Id>>, cursor: Option<Id>, perPage: nat, x: Id)
    requires perPage > 0 && Finishes(tables, cursor, perPage) && Below(x, cursor)
    requires forall i :: 0 <= i < |tables| ==> x in tables[i]
    ensures x in Walk(tables, cursor, perPage)
  {
    var page, next := PageOf(tables[0], cursor, perPage), NextCursor(tables[0], cursor, perPage);
    PageFacts(tables[0], cursor, perPage);
    if x !in page {
      if HasMore(tables[0], cursor, perPage) {
        assert page[|page| - 1] in page;
        WalkComplete(tables[1..], next, perPage, x);
      } else {
        DescendingAll(Visible(tables[0], cursor), perPage, x);
      }
    }
  }

  /** A row that stays present is returned exactly once. */
  lemma WalkExactlyOnce(tables: seq<set<Id>>, perPage: nat, x: Id)
    requires perPage > 0 && Finishes(tables, None, perPage) && forall i :: 0 <= i < |tables| ==> x in tables[i]
    ensures var w := Walk(tables, None, perPage);
            exists i :: 0 <= i < |w| && w[i] == x && forall j :: 0 <= j < |w| && w[j] == x ==> j == i
  {
    WalkComplete(tables, None, perPage, x);
    WalkFalls(tables, None, perPage);
  }

  // ----- a table that does not change -----

  /** ceil(rows / perPage), but at least one request. */
  function PagesFor(rows: nat, perPage: nat): nat
    requires perPage > 0
  {
    if rows == 0 then 1 else (rows + perPage - 1) / perPage
  }

  lemma DivNext(x: int, p: int)
    requires p > 0
    ensures (x + p) / p == x / p + 1
  {
    var q, r := x / p, x % p;
    assert x + p == p * (q + 1) + r;
    var q', r' := (x + p) / p, (x + p) % p;
    assert p * q' + r' == p * (q + 1) + r;
    if q' > q + 1 {
      MulMonotone(p, q + 2, q');
    } else if q' < q + 1 {
      MulMonotone(p, q', q);
    }
  }

  lemma NextShrinks(table: set<Id>, cursor: Option<Id>, perPage: nat)
    requires perPage > 0 && HasMore(table, cursor, perPage)
    ensures NextCursor(table, cursor, perPage).Some?
    ensures |Visible(table, NextCursor(table, cursor, perPage))| == |Visible(table, cursor)| - perPage
  {
    var s := Visible(table, cursor);
    DescendingRest(s, perPage);
    PageFacts(table, cursor, perPage);
    var last := Descending(s, perPage)[perPage - 1];
    assert last in Descending(s, perPage);
    assert Visible(table, Some(last)) == set x | x in s && x < last;
  }

  lemma PagesStep(rows: nat, perPage: nat)
    requires perPage > 0
    ensures rows > perPage ==> PagesFor(rows, perPage) == 1 + PagesFor(rows - perPage, perPage)
    ensures rows <= perPage ==> PagesFor(rows, perPage) == 1
  {
    DivNext(rows - 1, perPage);
    if 0 < rows <= perPage {
      assert (rows - 1) / perPage == 0;
    }
  }

  /** On a fixed table the client stops after exactly max(1, ceil(n / perPage)) requests. */
  lemma {:induction false} FixedTablePages(table: set<Id>, tables: seq<set<Id>>, cursor: Option<Id>, perPage: nat)
    requires perPage > 0 && forall i :: 0 <= i < |tables| ==> tables[i] == table
    ensures Finishes(tables, cursor, perPage) <==> |tables| >= PagesFor(|Visible(table, cursor)|, perPage)
  {
    PagesStep(|Visible(table, cursor)|, perPage);
    if HasMore(table, cursor, perPage) {
      NextShrinks(table, cursor, perPage);
      PagesStep(|Visible(table, cursor)| - perPage, perPage);
      if tables != [] {
        FixedTablePages(table, tables[1..], NextCursor(table, cursor, perPage), perPage);
      }
    }
  }
}
