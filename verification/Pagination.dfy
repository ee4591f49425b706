/** Keyset pagination: one page, and a whole walk of pages over tables that may change in between. */
module Pagination {
  import opened Common
  import opened Order

  /** A row's key in the keyset column; live and matching rows only. */
  type Key = string

  /** The order of a page: a comes before b. */
  predicate Before(descending: bool, a: Key, b: Key) { if descending then Less(b, a) else Less(a, b) }

  ghost predicate InOrder(descending: bool, s: seq<Key>) { forall i, j :: 0 <= i < j < |s| ==> Before(descending, s[i], s[j]) }

  lemma BeforeTrans(d: bool, a: Key, b: Key, c: Key)
    requires Before(d, a, b) && Before(d, b, c)
    ensures Before(d, a, c)
  {
    if d { LessTrans(c, b, a); } else { LessTrans(a, b, c); }
  }

  /** The empty cursor means the top. */
  predicate Past(d: bool, after: Key, k: Key) { after == "" || Before(d, after, k) }

  /** The query: rows past the cursor, in order, at most n of them, the first ones. */
  ghost predicate Fetched(table: set<Key>, d: bool, after: Key, n: nat, items: seq<Key>) {
    && InOrder(d, items) && |items| <= n
    && (forall k :: k in items ==> k in table && Past(d, after, k))
    && (forall k :: k in table && Past(d, after, k) && k !in items ==> |items| == n && forall i :: 0 <= i < n ==> Before(d, items[i], k))
  }

  datatype Page = Page(items: seq<Key>, nextCursor: Key, hasMore: bool)

  /** Trimming the sentinel row off; items are what the query returned for limit + 1. */
  method PaginateCursor(items: seq<Key>, limit: nat) returns (page: Page)
    requires limit >= 1 && |items| <= limit + 1
    ensures page == Trim(items, limit)
  {
    page := Page(items, "", false);
    if |items| > limit {
      page := page.(items := items[..limit]);
      page := page.(hasMore := true);
      page := page.(nextCursor := page.items[|page.items| - 1]);
    }
  }

  function Trim(items: seq<Key>, limit: nat): Page
    requires limit >= 1
  {
    if |items| > limit then Page(items[..limit], items[limit - 1], true) else Page(items, "", false)
  }

  /** page is what PaginateCursor gives for this table and cursor. */
  ghost predicate IsPage(table: set<Key>, d: bool, after: Key, limit: nat, page: Page)
    requires limit >= 1
  {
    exists items :: Fetched(table, d, after, limit + 1, items) && page == Trim(items, limit)
  }

  // ------------------------------------------------- every page has an answer

  lemma {:induction false} Extreme(d: bool, s: set<Key>) returns (first: Key)
    requires s != {}
    ensures first in s && forall k :: k in s && k != first ==> Before(d, first, k)
    decreases |s|
  {
    first :| first in s;
    var rest := s - {first};
    if rest != {} {
      var other := Extreme(d, rest);
      LessTotal(first, other);
      if Before(d, other, first) {
        forall k | k in s && k != other ensures Before(d, other, k) {
          if k != first { assert k in rest; }
        }
        first := other;
      } else {
        forall k | k in s && k != first ensures Before(d, first, k) {
          if k != other { BeforeTrans(d, first, other, k); }
        }
      }
    }
  }

  lemma {:induction false} FetchExists(table: set<Key>, d: bool, after: Key, n: nat) returns (items: seq<Key>)
    ensures Fetched(table, d, after, n, items)
  {
    var c := set k | k in table && Past(d, after, k);
    items := TakeFirst(c, d, n);
  }

  lemma {:induction false} TakeFirst(c: set<Key>, d: bool, n: nat) returns (items: seq<Key>)
    ensures InOrder(d, items) && |items| <= n && forall k :: k in items ==> k in c
    ensures forall k :: k in c && k !in items ==> |items| == n && forall i :: 0 <= i < n ==> Before(d, items[i], k)
    decreases n
  {
    if n == 0 || c == {} {
      items := [];
    } else {
      var first := Extreme(d, c);
      var rest := TakeFirst(c - {first}, d, n - 1);
      items := [first] + rest;
      forall i, j | 0 <= i < j < |items| ensures Before(d, items[i], items[j]) {
        assert rest[j - 1] in rest;
      }
    }
  }

  /** Whatever the table and the cursor, there is a page. */
  lemma PageExists(table: set<Key>, d: bool, after: Key, limit: nat) returns (page: Page)
    requires limit >= 1
    ensures IsPage(table, d, after, limit, page)
  {
    var items := FetchExists(table, d, after, limit + 1);
    page := Trim(items, limit);
  }

  // --------------------------------------------------------------------- walks

  /** One page of a walk: the table it saw and the cursor it used. */
  datatype Visit = Visit(table: set<Key>, after: Key, page: Page)

  /** Each page follows the cursor of the one before, and the walk goes on only while there is more. */
  ghost predicate IsWalk(d: bool, limit: nat, visits: seq<Visit>)
    requires limit >= 1
  {
    && (forall i :: 0 <= i < |visits| ==> IsPage(visits[i].table, d, visits[i].after, limit, visits[i].page))
    && (forall i, j :: 0 <= i && j == i + 1 < |visits| ==> Continues(visits[i], visits[j]))
  }

  ghost predicate Continues(v: Visit, next: Visit) { v.page.hasMore && next.after == v.page.nextCursor }

  /** Every key of s lies at or before the cursor. */
  ghost predicate UpTo(d: bool, s: seq<Key>, cursor: Key) { forall k :: k in s ==> k == cursor || Before(d, k, cursor) }

  lemma WalkPrefix(d: bool, limit: nat, visits: seq<Visit>)
    requires limit >= 1 && |visits| >= 2 && IsWalk(d, limit, visits) && NoRestart(visits[..|visits| - 1])
    ensures var n := |visits| - 1;
            && IsWalk(d, limit, visits[..n]) && NoRestart(visits[..n][..n - 1]) && Continues(visits[n - 1], visits[n])
            && IsPage(visits[n].table, d, visits[n].after, limit, visits[n].page)
            && IsPage(visits[n - 1].table, d, visits[n - 1].after, limit, visits[n - 1].page)
            && visits[n - 1].page.nextCursor != "" && visits[..n][..n - 1] == visits[..n - 1]
  {
    hide IsPage;
    var n := |visits| - 1;
    assert visits[..n][..n - 1] == visits[..n - 1];
    assert visits[..n][n - 1] == visits[n - 1];
  }

  function Items(visits: seq<Visit>): seq<Key> {
    if visits == [] then [] else Items(visits[..|visits| - 1]) + visits[|visits| - 1].page.items
  }

  /** The walk never meets a page whose last key is the empty string, which would restart it. */
  ghost predicate NoRestart(visits: seq<Visit>) {
    forall i :: 0 <= i < |visits| && visits[i].page.hasMore ==> visits[i].page.nextCursor != ""
  }

  lemma PageFacts(d: bool, limit: nat, v: Visit)
    requires limit >= 1 && IsPage(v.table, d, v.after, limit, v.page)
    ensures InOrder(d, v.page.items) && |v.page.items| <= limit
    ensures forall k :: k in v.page.items ==> k in v.table && Past(d, v.after, k)
    ensures v.page.hasMore ==> |v.page.items| == limit && v.page.nextCursor == v.page.items[limit - 1]
    ensures v.page.hasMore ==> forall k :: k in v.table && Past(d, v.after, k) && k !in v.page.items ==> Before(d, v.page.nextCursor, k)
    ensures !v.page.hasMore ==> forall k :: k in v.table && Past(d, v.after, k) ==> k in v.page.items
  {
    var items :| Fetched(v.table, d, v.after, limit + 1, items) && v.page == Trim(items, limit);
    if v.page.hasMore {
      assert items == v.page.items + [items[limit]];
      forall k | k in v.table && Past(d, v.after, k) && k !in v.page.items ensures Before(d, v.page.nextCursor, k) {
        assert k in items ==> k == items[limit];
      }
    }
  }

  /** Everything visited so far lies at or before the cursor the next page would use. */
  lemma {:induction false} WalkOrdered(d: bool, limit: nat, visits: seq<Visit>)
    requires limit >= 1 && visits != [] && IsWalk(d, limit, visits) && visits[0].after == "" && NoRestart(visits[..|visits| - 1])
    ensures InOrder(d, Items(visits))
    ensures UpTo(d, Items(visits[..|visits| - 1]), visits[|visits| - 1].after)
    ensures visits[|visits| - 1].after == "" ==> Items(visits[..|visits| - 1]) == []
    decreases |visits|
  {
    var n := |visits| - 1;
    var last := visits[n];
    PageFacts(d, limit, last);
    if n > 0 {
      hide Before, IsPage, UpTo, InOrder, IsWalk, NoRestart;
      var prev := visits[n - 1];
      WalkPrefix(d, limit, visits);
      WalkOrdered(d, limit, visits[..n]);
      assert Items(visits[..n]) == Items(visits[..n - 1]) + prev.page.items;
      UpToCursor(d, limit, prev, Items(visits[..n - 1]));
      assert forall k :: k in last.page.items ==> Past(d, last.after, k);
      Appended(d, Items(visits[..n]), last.page.items, last.after);
    } else {
      assert Items(visits) == [] + last.page.items;
      assert visits[..0] == [];
    }
  }

  /** What lies at or before a page's cursor, and the page itself, lie at or before the next cursor. */
  lemma UpToCursor(d: bool, limit: nat, v: Visit, seen: seq<Key>)
    requires limit >= 1 && IsPage(v.table, d, v.after, limit, v.page) && v.page.hasMore
    requires v.after == "" ==> seen == []
    requires UpTo(d, seen, v.after)
    ensures UpTo(d, seen + v.page.items, v.page.nextCursor)
  {
    hide Less, IsPage;
    PageFacts(d, limit, v);
    CursorMoves(d, limit, v);
    forall k | k in seen + v.page.items ensures k == v.page.nextCursor || Before(d, k, v.page.nextCursor) {
      if k in seen {
        if k != v.after { BeforeTrans(d, k, v.after, v.page.nextCursor); }
      } else {
        var i :| 0 <= i < limit && v.page.items[i] == k;
        assert i == limit - 1 || Before(d, v.page.items[i], v.page.items[limit - 1]);
      }
    }
  }

  lemma CursorMoves(d: bool, limit: nat, v: Visit)
    requires limit >= 1 && IsPage(v.table, d, v.after, limit, v.page) && v.page.hasMore
    ensures v.after == "" || Before(d, v.after, v.page.nextCursor)
  {
    PageFacts(d, limit, v);
    assert v.page.items[limit - 1] in v.page.items;
  }

  lemma Appended(d: bool, a: seq<Key>, b: seq<Key>, cursor: Key)
    requires InOrder(d, a) && InOrder(d, b) && UpTo(d, a, cursor)
    requires forall k :: k in b ==> Before(d, cursor, k)
    ensures InOrder(d, a + b)
  {
    forall i, j | 0 <= i < j < |a + b| ensures Before(d, (a + b)[i], (a + b)[j]) {
      if i < |a| <= j {
        assert a[i] in a && b[j - |a|] in b;
        if a[i] != cursor { BeforeTrans(d, a[i], cursor, b[j - |a|]); }
      }
    }
  }

  /** No key is ever returned twice, even if rows come and go between pages. */
  lemma NeverRepeats(d: bool, limit: nat, visits: seq<Visit>)
    requires limit >= 1 && visits != [] && IsWalk(d, limit, visits) && visits[0].after == "" && NoRestart(visits[..|visits| - 1])
    ensures InOrder(d, Items(visits)) && Distinct(Items(visits))
  {
    WalkOrdered(d, limit, visits);
    forall i, j | 0 <= i < j < |Items(visits)| ensures Items(visits)[i] != Items(visits)[j] {
      LessIrreflexive(Items(visits)[i]);
    }
  }

  /** A key present throughout a finished walk is returned. */
  lemma {:induction false} NothingSkipped(d: bool, limit: nat, visits: seq<Visit>, k: Key)
    requires limit >= 1 && visits != [] && IsWalk(d, limit, visits) && visits[0].after == "" && NoRestart(visits[..|visits| - 1])
    requires forall i :: 0 <= i < |visits| ==> k in visits[i].table
    ensures k in Items(visits) || (visits[|visits| - 1].page.hasMore && Before(d, visits[|visits| - 1].page.nextCursor, k))
    decreases |visits|
  {
    var n := |visits| - 1;
    var last := visits[n];
    PageFacts(d, limit, last);
    if n > 0 {
      assert visits[..n][..n - 1] == visits[..n - 1];
      NothingSkipped(d, limit, visits[..n], k);
      assert visits[..n][n - 1] == visits[n - 1];
    }
  }

  /** Over a table that does not change, a finished walk returns every row exactly once, in order. */
  lemma FixedTableExact(table: set<Key>, d: bool, limit: nat, visits: seq<Visit>)
    requires limit >= 1 && visits != [] && IsWalk(d, limit, visits) && visits[0].after == "" && NoRestart(visits[..|visits| - 1])
    requires (forall i :: 0 <= i < |visits| ==> visits[i].table == table) && !visits[|visits| - 1].page.hasMore
    ensures InOrder(d, Items(visits)) && Distinct(Items(visits)) && forall k :: k in table <==> k in Items(visits)
  {
    NeverRepeats(d, limit, visits);
    forall k | k in table ensures k in Items(visits) {
      NothingSkipped(d, limit, visits, k);
    }
    ItemsFromTables(table, d, limit, visits);
  }

  lemma {:induction false} ItemsFromTables(table: set<Key>, d: bool, limit: nat, visits: seq<Visit>)
    requires limit >= 1 && IsWalk(d, limit, visits) && forall i :: 0 <= i < |visits| ==> visits[i].table == table
    ensures forall k :: k in Items(visits) ==> k in table
    decreases |visits|
  {
    if visits != [] {
      ItemsFromTables(table, d, limit, visits[..|visits| - 1]);
      PageFacts(d, limit, visits[|visits| - 1]);
    }
  }

  lemma MulSucc(a: nat, n: nat)
    ensures a * n + a == a * (n + 1)
  {}

  lemma {:induction false} ItemsCount(d: bool, limit: nat, visits: seq<Visit>)
    requires limit >= 1 && IsWalk(d, limit, visits) && forall i :: 0 <= i < |visits| ==> visits[i].page.hasMore
    ensures |Items(visits)| == limit * |visits|
    decreases |visits|
  {
    hide IsPage, InOrder;
    if visits != [] {
      var n := |visits| - 1;
      ItemsCount(d, limit, visits[..n]);
      PageFacts(d, limit, visits[n]);
      MulSucc(limit, n);
    }
  }

  lemma {:induction false} DistinctFit(s: seq<Key>, table: set<Key>)
    requires Distinct(s) && forall k :: k in s ==> k in table
    ensures |s| <= |table|
    decreases |s|
  {
    if s != [] {
      assert s[0] !in s[1..];
      DistinctFit(s[1..], table - {s[0]});
    }
  }

  /** Over a table that does not change the walk ends: pages that promise more fit into the table. */
  lemma WalkEnds(table: set<Key>, d: bool, limit: nat, visits: seq<Visit>)
    requires limit >= 1 && visits != [] && IsWalk(d, limit, visits) && visits[0].after == "" && NoRestart(visits[..|visits| - 1])
    requires (forall i :: 0 <= i < |visits| ==> visits[i].table == table && visits[i].page.hasMore)
    ensures limit * |visits| < |table|
  {
    NeverRepeats(d, limit, visits);
    ItemsFromTables(table, d, limit, visits);
    ItemsCount(d, limit, visits);
    var last := visits[|visits| - 1];
    var items :| Fetched(last.table, d, last.after, limit + 1, items) && last.page == Trim(items, limit);
    var extra := items[limit];
    assert extra in items;
    WalkOrdered(d, limit, visits);
    forall k | k in Items(visits) ensures k != extra {
      if k in last.page.items {
        var i :| 0 <= i < limit && items[i] == k;
        LessIrreflexive(extra);
        assert Before(d, items[i], items[limit]);
      } else {
        assert k in Items(visits[..|visits| - 1]);
        LessIrreflexive(extra);
        if |visits| > 1 {
          assert visits[..|visits| - 1][|visits| - 2].page.nextCursor != "";
          assert Before(d, last.after, extra);
          if k != last.after { BeforeTrans(d, k, last.after, extra); }
        }
      }
    }
    var all := Items(visits) + [extra];
    forall i, j | 0 <= i < j < |all| ensures all[i] != all[j] {
      if j == |Items(visits)| { assert Items(visits)[i] in Items(visits); }
    }
    DistinctFit(all, table);
  }

  /**
    Exactly when a walk over rows with an empty key restarts: the empty key can be
    a page's cursor only as the sole item of an ascending page with more to come,
    and then the next page is the first page again.
   */
  lemma RestartExactly(table: set<Key>, d: bool, after: Key, limit: nat, page: Page)
    requires limit >= 1 && IsPage(table, d, after, limit, page) && page.hasMore
    ensures page.nextCursor == "" <==> !d && limit == 1 && after == "" && "" in table
  {
    PageFacts(d, limit, Visit(table, after, page));
    var items :| Fetched(table, d, after, limit + 1, items) && page == Trim(items, limit);
    NoneBelowEmpty();
    assert Before(d, items[limit - 1], items[limit]) && items[limit - 1] in items;
    assert forall i :: 0 < i < |items| ==> Before(d, items[0], items[i]);
    assert "" in table && after == "" && "" !in items ==> Before(d, items[0], "");
  }

  lemma NoneBelowEmpty()
    ensures forall x :: !Less(x, "")
  {}

  /** Nothing restarts when the walk descends, takes more than one row a page, or meets no empty key. */
  ghost predicate CannotRestart(d: bool, limit: nat, visits: seq<Visit>) {
    d || limit >= 2 || forall i :: 0 <= i < |visits| ==> "" !in visits[i].table
  }

  lemma NoRestartIf(d: bool, limit: nat, visits: seq<Visit>)
    requires limit >= 1 && IsWalk(d, limit, visits) && CannotRestart(d, limit, visits)
    ensures NoRestart(visits)
  {
    forall i | 0 <= i < |visits| && visits[i].page.hasMore ensures visits[i].page.nextCursor != "" {
      RestartExactly(visits[i].table, d, visits[i].after, limit, visits[i].page);
    }
  }

  /**
    End to end: a walk from the top that cannot restart never repeats a key; it
    ends over a fixed table, and once finished it has returned every row.
   */
  lemma WalkComplete(table: set<Key>, d: bool, limit: nat, visits: seq<Visit>)
    requires limit >= 1 && visits != [] && IsWalk(d, limit, visits) && visits[0].after == "" && CannotRestart(d, limit, visits)
    ensures var keys := Items(visits);
            Distinct(keys) && forall i, j :: 0 <= i < j < |keys| ==> if d then Less(keys[j], keys[i]) else Less(keys[i], keys[j])
    ensures (forall i :: 0 <= i < |visits| ==> visits[i].table == table) ==>
              if visits[|visits| - 1].page.hasMore then limit * |visits| < |table|
              else forall k :: k in table <==> k in Items(visits)
  {
    NoRestartIf(d, limit, visits);
    NeverRepeats(d, limit, visits);
    if forall i :: 0 <= i < |visits| ==> visits[i].table == table {
      if visits[|visits| - 1].page.hasMore {
        forall i | 0 <= i < |visits| ensures visits[i].page.hasMore {
          assert i + 1 < |visits| ==> Continues(visits[i], visits[i + 1]);
        }
        WalkEnds(table, d, limit, visits);
      } else {
        FixedTableExact(table, d, limit, visits);
      }
    }
  }
}
