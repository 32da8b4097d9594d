/** The case list when investigation ids repeat: which pages a client that follows
    next_cursor gets, when the end is reported rightly, and how often an id is listed. */
module CasePaging {
  import opened Wrappers
  import opened Paging

  // ----- how many rows an id may have -----

  function Count(rows: seq<Row>, id: int): nat {
    if rows == [] then 0 else Count(rows[..|rows| - 1], id) + if rows[|rows| - 1].id == id then 1 else 0
  }

  /** No id has more than `c` rows. */
  ghost predicate AtMost(rows: seq<Row>, c: nat) { forall id :: Count(rows, id) <= c }

  function Without(rows: seq<Row>, id: int): seq<Row> {
    if rows == [] then []
    else Without(rows[..|rows| - 1], id) + if rows[|rows| - 1].id == id then [] else [rows[|rows| - 1]]
  }

  lemma {:induction false} WithoutCounts(rows: seq<Row>, id: int, other: int)
    ensures |rows| == |Without(rows, id)| + Count(rows, id)
    ensures Count(Without(rows, id), other) == if other == id then 0 else Count(rows, other)
  {
    if rows == [] {
    } else {
      var front, last := rows[..|rows| - 1], rows[|rows| - 1];
      WithoutCounts(front, id, other);
      CountAppend(Without(front, id), [last], other);
      assert [last][..0] == [] && Without(front, id) + [] == Without(front, id);
    }
  }

  lemma {:induction false} CountAppend(a: seq<Row>, b: seq<Row>, id: int)
    ensures Count(a + b, id) == Count(a, id) + Count(b, id)
  {
    if b == [] {
      assert a + b == a;
    } else {
      assert (a + b)[..|a + b| - 1] == a + b[..|b| - 1];
      CountAppend(a, b[..|b| - 1], id);
    }
  }

  lemma {:induction false} CountIsPositive(rows: seq<Row>, id: int)
    ensures Count(rows, id) > 0 <==> HasId(rows, id)
  {
    if rows == [] {
    } else {
      CountIsPositive(rows[..|rows| - 1], id);
      HasIdAppend(rows[..|rows| - 1], rows[|rows| - 1]);
      assert rows == rows[..|rows| - 1] + [rows[|rows| - 1]];
    }
  }

  /** Rows whose ids are all among these, none more than `c` times, are at most `c` for each. */
  lemma {:induction false} IdsBoundRows(rows: seq<Row>, ids: seq<Row>, c: nat)
    requires AtMost(rows, c) && forall id | HasId(rows, id) :: HasId(ids, id)
    ensures |rows| <= c * |ids|
    decreases |ids|
  {
    if ids == [] {
      if rows != [] { assert HasId(rows, rows[0].id); }
    } else {
      var front, id := ids[..|ids| - 1], ids[|ids| - 1].id;
      TakeIdOut(rows, ids, c);
      IdsBoundRows(Without(rows, id), front, c);
      WithoutCounts(rows, id, id);
      Distributes(c, |front|);
    }
  }

  lemma Distributes(c: nat, n: nat)
    ensures c * (n + 1) == c * n + c
  {
  }

  lemma TakeIdOut(rows: seq<Row>, ids: seq<Row>, c: nat)
    requires ids != [] && AtMost(rows, c) && forall id | HasId(rows, id) :: HasId(ids, id)
    ensures var rest, front := Without(rows, ids[|ids| - 1].id), ids[..|ids| - 1];
            AtMost(rest, c) && forall id | HasId(rest, id) :: HasId(front, id)
  {
    var front, id := ids[..|ids| - 1], ids[|ids| - 1].id;
    var rest := Without(rows, id);
    HasIdAppend(front, ids[|ids| - 1]);
    assert ids == front + [ids[|ids| - 1]];
    forall other ensures Count(rest, other) <= c && (HasId(rest, other) ==> HasId(front, other)) {
      WithoutCounts(rows, id, other);
      CountIsPositive(rest, other);
      CountIsPositive(rows, other);
    }
  }

  lemma StretchAtMost(all: seq<Row>, lo: nat, hi: nat, c: nat)
    requires AtMost(all, c) && lo <= hi <= |all|
    ensures AtMost(all[lo..hi], c)
  {
    forall id ensures Count(all[lo..hi], id) <= c {
      assert all == all[..lo] + all[lo..hi] + all[hi..];
      CountAppend(all[..lo] + all[lo..hi], all[hi..], id);
      CountAppend(all[..lo], all[lo..hi], id);
    }
  }

  // ----- the end of the list -----

  function Fetched(rest: seq<Row>, limit: nat): seq<Row> { rest[..Min(FetchSize(limit), |rest|)] }

  /** A page that names no next cursor lists every id of the rows below its cursor. */
  ghost predicate EndIsRight(rest: seq<Row>, limit: nat)
    requires limit >= 1
  {
    var page := PageOf(Unique(Fetched(rest, limit)), limit);
    page.next.None? ==> forall id | HasId(rest, id) :: HasId(page.items, id)
  }

  /** The surplus of four rows per place on the page suffices for three rows per id. */
  lemma SurplusReachesTheEnd(rest: seq<Row>, limit: nat)
    requires limit >= 1 && AtMost(rest, 3) && |Unique(Fetched(rest, limit))| <= limit
    ensures Fetched(rest, limit) == rest
  {
    var fetched := Fetched(rest, limit);
    UniqueKeepsEveryId(fetched);
    StretchAtMost(rest, 0, |fetched|, 3);
    assert rest[0..|fetched|] == fetched;
    IdsBoundRows(fetched, Unique(fetched), 3);
  }

  lemma ThreeRowsEndRightly(rest: seq<Row>, limit: nat)
    requires limit >= 1 && AtMost(rest, 3)
    ensures EndIsRight(rest, limit)
  {
    if |Unique(Fetched(rest, limit))| <= limit {
      SurplusReachesTheEnd(rest, limit);
      UniqueKeepsEveryId(rest);
    }
  }

  lemma {:induction false} OneIdKeepsOneRow(rows: seq<Row>, id: int)
    requires rows != [] && forall i | 0 <= i < |rows| :: rows[i].id == id
    ensures Unique(rows) == [rows[0]]
  {
    var front := rows[..|rows| - 1];
    if front == [] { assert Unique(front) == []; } else {
      OneIdKeepsOneRow(front, id);
      assert Unique(front)[0].id == id;
    }
  }

  /** Five rows of two ids: the first page, of limit 1, ends the list at the first id. */
  lemma RepeatedIdsHideARow() returns (rest: seq<Row>)
    ensures Descending(rest) && HasId(rest, 8) && AtMost(rest, 4)
    ensures var page := PageOf(Unique(Fetched(rest, 1)), 1); page.next.None? && !HasId(page.items, 8)
  {
    rest := [Row(Key(9, 7), 7), Row(Key(8, 7), 7), Row(Key(7, 7), 7), Row(Key(6, 7), 7), Row(Key(5, 8), 8)];
    assert rest[4].id == 8;
    OneIdKeepsOneRow(rest[..4], 7);
    forall id ensures Count(rest, id) <= 4 { OneIdCounts(rest[..4], 7, id); assert rest == rest[..4] + [rest[4]]; CountAppend(rest[..4], [rest[4]], id); }
  }

  lemma {:induction false} OneIdCounts(rows: seq<Row>, id: int, other: int)
    requires forall i | 0 <= i < |rows| :: rows[i].id == id
    ensures Count(rows, other) == if other == id then |rows| else 0
  {
    if rows == [] {
    } else {
      OneIdCounts(rows[..|rows| - 1], id, other);
    }
  }

  /** The end of the list is reported rightly for every list in which no id has more than
      `c` rows, and every page size, if and only if `c` is at most three. */
  lemma EndIsRightUpToThreeRowsExactly(c: nat)
    ensures (forall rest, limit: nat | limit >= 1 && Descending(rest) && AtMost(rest, c) :: EndIsRight(rest, limit)) <==> c <= 3
  {
    if c <= 3 {
      forall rest, limit: nat | limit >= 1 && Descending(rest) && AtMost(rest, c) ensures EndIsRight(rest, limit) {
        ThreeRowsEndRightly(rest, limit);
      }
    } else {
      var rest := RepeatedIdsHideARow();
      assert AtMost(rest, c);
      assert !EndIsRight(rest, 1);
    }
  }

  // ----- following next_cursor -----

  /** The shortest stretch of rows that holds `n` ids. */
  function Reach(rows: seq<Row>, n: nat): (k: nat)
    requires 1 <= n <= |Unique(rows)|
    ensures n <= k <= |rows|
  {
    UniqueIsShorter(rows);
    if |Unique(rows[..|rows| - 1])| >= n then Reach(rows[..|rows| - 1], n) else |rows|
  }

  lemma {:induction false} UniqueIsShorter(rows: seq<Row>)
    ensures |Unique(rows)| <= |rows|
  {
    if rows == [] {
    } else {
      UniqueIsShorter(rows[..|rows| - 1]);
    }
  }

  lemma PrefixCarries(a: seq<Row>, b: seq<Row>, n: nat)
    requires a <= b && 1 <= n <= |a|
    ensures a[..n] == b[..n] && a[n - 1] == b[n - 1]
  {
  }

  /** That stretch ends with the row that brings the n-th id. */
  lemma {:induction false} ReachIsPrefix(rows: seq<Row>, n: nat)
    requires 1 <= n <= |Unique(rows)|
    ensures var k := Reach(rows, n); Unique(rows[..k]) == Unique(rows)[..n] && rows[k - 1] == Unique(rows)[n - 1]
    decreases |rows|
  {
    var front := rows[..|rows| - 1];
    if |Unique(front)| >= n {
      ReachIsPrefix(front, n);
      UniqueGrows(rows, |rows| - 1);
      PrefixCarries(Unique(front), Unique(rows), n);
      PrefixCarries(front, rows, Reach(front, n));
    } else {
      assert rows[..|rows|] == rows && Unique(rows)[..n] == Unique(rows);
    }
  }

  ghost predicate CasePageFrom(db: set<Row>, matches: Row -> bool, cursor: Option<Key>, limit: nat, page: Page)
    requires limit >= 1
  {
    exists rows :: IsQuery(db, matches, cursor, FetchSize(limit), rows) && page == PageOf(Unique(rows), limit)
  }

  ghost predicate CaseFollows(db: set<Row>, matches: Row -> bool, limit: nat, pages: seq<Page>, i: nat)
    requires limit >= 1 && 1 <= i < |pages|
  {
    pages[i - 1].next.Some? && CasePageFrom(db, matches, pages[i - 1].next, limit, pages[i])
  }

  /** The pages of cases a client gets by following next_cursor from the start. */
  ghost predicate IsCaseTraversal(dbs: seq<set<Row>>, matches: Row -> bool, limit: nat, pages: seq<Page>)
    requires limit >= 1
  {
    && 0 < |pages| == |dbs|
    && (forall i | 0 <= i < |dbs| :: Grown(dbs[0], dbs[i]))
    && CasePageFrom(dbs[0], matches, None, limit, pages[0])
    && (forall i | 1 <= i < |pages| :: CaseFollows(dbs[i], matches, limit, pages, i))
  }

  /** The page lists, once each, the ids of the rows from `off` to `end`; a further page
      starts at `end`; and a page that ends the list covers it when no id has more than
      three rows. */
  ghost predicate Covers(all: seq<Row>, limit: nat, off: nat, end: nat, page: Page) {
    && off <= end <= |all| && DistinctIds(page.items)
    && (forall id :: HasId(page.items, id) <==> HasId(all[off..end], id))
    && (page.next.Some? ==> off + limit <= end && page.next == CursorAt(all, end))
    && (page.next.None? && AtMost(all, 3) ==> end == |all|)
  }

  lemma CasePage(db0: set<Row>, db: set<Row>, matches: Row -> bool, limit: nat, all: seq<Row>, off: nat, page: Page)
    requires limit >= 1 && Grown(db0, db) && IsListing(db0, matches, all) && off <= |all|
    requires off == 0 ==> db == db0
    requires CasePageFrom(db, matches, CursorAt(all, off), limit, page)
    ensures page == PageOf(Unique(Fetched(all[off..], limit)), limit)
  {
    var rows :| IsQuery(db, matches, CursorAt(all, off), FetchSize(limit), rows) && page == PageOf(Unique(rows), limit);
    CaseRows(db0, db, matches, limit, all, off, rows);
  }

  lemma CaseRows(db0: set<Row>, db: set<Row>, matches: Row -> bool, limit: nat, all: seq<Row>, off: nat, rows: seq<Row>)
    requires Grown(db0, db) && IsListing(db0, matches, all) && off <= |all|
    requires off == 0 ==> db == db0
    requires IsQuery(db, matches, CursorAt(all, off), FetchSize(limit), rows)
    ensures rows == Fetched(all[off..], limit)
  {
    QueryIsStretch(db0, db, matches, all, off, FetchSize(limit), rows);
    FetchedIsStretch(all, off, limit);
  }

  lemma FetchedIsStretch(all: seq<Row>, off: nat, limit: nat)
    requires off <= |all|
    ensures all[off..Min(off + FetchSize(limit), |all|)] == Fetched(all[off..], limit)
  {
  }

  /** Where the stretch of a page that starts at `off` ends: behind all fetched rows, or
      behind the row that brings its last id. */
  function EndOf(all: seq<Row>, limit: nat, off: nat): (end: nat)
    requires limit >= 1 && off <= |all|
    ensures off <= end <= |all|
  {
    var rows := Fetched(all[off..], limit);
    off + if |Unique(rows)| <= limit then |rows| else Reach(rows, limit)
  }

  /** Where the first `n` pages of a listing start, and where the next one would. */
  function Starts(all: seq<Row>, limit: nat, n: nat): (starts: seq<nat>)
    requires limit >= 1
    ensures |starts| == n + 1 && starts[0] == 0 && starts[n] <= |all|
  {
    if n == 0 then [0]
    else
      var before := Starts(all, limit, n - 1);
      before + [EndOf(all, limit, before[n - 1])]
  }

  lemma PageCovers(all: seq<Row>, limit: nat, off: nat)
    requires limit >= 1 && off <= |all|
    ensures Covers(all, limit, off, EndOf(all, limit, off), PageOf(Unique(Fetched(all[off..], limit)), limit))
  {
    if |Unique(Fetched(all[off..], limit))| <= limit { LastPageCovers(all, limit, off); }
    else { FullPageCovers(all, limit, off); }
  }

  lemma LastPageCovers(all: seq<Row>, limit: nat, off: nat)
    requires limit >= 1 && off <= |all| && |Unique(Fetched(all[off..], limit))| <= limit
    ensures Covers(all, limit, off, EndOf(all, limit, off), PageOf(Unique(Fetched(all[off..], limit)), limit))
  {
    var rest, end := all[off..], EndOf(all, limit, off);
    var rows := Fetched(rest, limit);
    UniqueKeepsEveryId(rows);
    assert all[off..end] == rows;
    if AtMost(all, 3) {
      StretchAtMost(all, off, |all|, 3);
      assert all[off..|all|] == rest;
      SurplusReachesTheEnd(rest, limit);
    }
  }

  lemma FullPageCovers(all: seq<Row>, limit: nat, off: nat)
    requires limit >= 1 && off <= |all| && |Unique(Fetched(all[off..], limit))| > limit
    ensures Covers(all, limit, off, EndOf(all, limit, off), PageOf(Unique(Fetched(all[off..], limit)), limit))
  {
    var rows, end := Fetched(all[off..], limit), EndOf(all, limit, off);
    ReachIsPrefix(rows, limit);
    UniqueKeepsEveryId(rows[..Reach(rows, limit)]);
    assert all[off..end] == rows[..Reach(rows, limit)];
    assert all[end - 1] == rows[Reach(rows, limit) - 1];
  }

  lemma NextCasePage(db0: set<Row>, db: set<Row>, matches: Row -> bool, limit: nat, all: seq<Row>, off: nat, page: Page)
    requires limit >= 1 && Grown(db0, db) && IsListing(db0, matches, all) && off <= |all|
    requires off == 0 ==> db == db0
    requires CasePageFrom(db, matches, CursorAt(all, off), limit, page)
    ensures Covers(all, limit, off, EndOf(all, limit, off), page)
  {
    CasePage(db0, db, matches, limit, all, off, page);
    PageCovers(all, limit, off);
  }

  /** Page i covers the rows from `starts[i]` to `starts[i + 1]`. */
  ghost predicate Tiled(all: seq<Row>, limit: nat, pages: seq<Page>, starts: seq<nat>) {
    && |starts| == |pages| + 1 && starts[0] == 0
    && forall i | 0 <= i < |pages| :: Covers(all, limit, starts[i], starts[i + 1], pages[i])
  }

  /** The pages of a case traversal tile the first table's listing, at places the listing
      and the page size alone determine: each lists, once, the ids of its own stretch of
      rows, whatever newer rows were inserted meanwhile. */
  lemma CaseTraversalTiles(dbs: seq<set<Row>>, matches: Row -> bool, limit: nat, pages: seq<Page>, all: seq<Row>, n: nat)
    requires limit >= 1 && IsCaseTraversal(dbs, matches, limit, pages) && IsListing(dbs[0], matches, all) && n <= |pages|
    ensures Tiled(all, limit, pages[..n], Starts(all, limit, n))
  {
    forall i | 0 <= i < |pages| ensures TileFollows(all, limit, pages, i) {
      if Tiled(all, limit, pages[..i], Starts(all, limit, i)) { OneMoreTile(dbs, matches, limit, pages, all, i); }
    }
    TilesAdd(all, limit, pages, n);
  }

  ghost predicate TileFollows(all: seq<Row>, limit: nat, pages: seq<Page>, i: nat)
    requires limit >= 1 && i < |pages|
  {
    Tiled(all, limit, pages[..i], Starts(all, limit, i)) ==> Tiled(all, limit, pages[..i + 1], Starts(all, limit, i + 1))
  }

  lemma {:induction false} TilesAdd(all: seq<Row>, limit: nat, pages: seq<Page>, n: nat)
    requires limit >= 1 && n <= |pages| && forall i | 0 <= i < |pages| :: TileFollows(all, limit, pages, i)
    ensures Tiled(all, limit, pages[..n], Starts(all, limit, n))
  {
    if n == 0 {
    } else {
      TilesAdd(all, limit, pages, n - 1);
      assert TileFollows(all, limit, pages, n - 1);
    }
  }

  lemma OneMoreTile(dbs: seq<set<Row>>, matches: Row -> bool, limit: nat, pages: seq<Page>, all: seq<Row>, n: nat)
    requires limit >= 1 && IsCaseTraversal(dbs, matches, limit, pages) && IsListing(dbs[0], matches, all) && n < |pages|
    requires Tiled(all, limit, pages[..n], Starts(all, limit, n))
    ensures Tiled(all, limit, pages[..n + 1], Starts(all, limit, n + 1))
  {
    var starts := Starts(all, limit, n);
    TileNext(dbs, matches, limit, pages, all, n, starts);
    TiledStep(all, limit, pages, starts, EndOf(all, limit, starts[n]), n);
  }

  lemma TileNext(dbs: seq<set<Row>>, matches: Row -> bool, limit: nat, pages: seq<Page>, all: seq<Row>, i: nat,
                 starts: seq<nat>)
    requires limit >= 1 && IsCaseTraversal(dbs, matches, limit, pages) && IsListing(dbs[0], matches, all) && i < |pages|
    requires Tiled(all, limit, pages[..i], starts) && starts[i] <= |all|
    ensures Covers(all, limit, starts[i], EndOf(all, limit, starts[i]), pages[i])
  {
    assert Grown(dbs[0], dbs[i]);
    if i == 0 {
      NextCasePage(dbs[0], dbs[0], matches, limit, all, 0, pages[0]);
    } else {
      assert CaseFollows(dbs[i], matches, limit, pages, i);
      assert Covers(all, limit, starts[i - 1], starts[i], pages[..i][i - 1]);
      NextCasePage(dbs[0], dbs[i], matches, limit, all, starts[i], pages[i]);
    }
  }

  lemma TiledStep(all: seq<Row>, limit: nat, pages: seq<Page>, starts: seq<nat>, end: nat, n: nat)
    requires n < |pages| && Tiled(all, limit, pages[..n], starts) && Covers(all, limit, starts[n], end, pages[n])
    ensures Tiled(all, limit, pages[..n + 1], starts + [end])
  {
    var next := starts + [end];
    forall i | 0 <= i < n + 1 ensures Covers(all, limit, next[i], next[i + 1], pages[..n + 1][i]) {
      if i < n { assert Covers(all, limit, starts[i], starts[i + 1], pages[..n][i]); }
    }
  }

  predicate InStretch(starts: seq<nat>, i: nat, j: nat)
    requires i + 1 < |starts|
  {
    starts[i] <= j < starts[i + 1]
  }

  /** All rows of this id lie in page i's stretch. */
  predicate StretchHolds(all: seq<Row>, starts: seq<nat>, id: int, i: nat)
    requires i + 1 < |starts|
  {
    forall j | 0 <= j < |all| && all[j].id == id :: InStretch(starts, i, j)
  }

  /** Page i is the only one that lists this id. */
  ghost predicate ListedOnlyOn(pages: seq<Page>, id: int, i: nat)
    requires i < |pages|
  {
    HasId(pages[i].items, id) && forall j | 0 <= j < |pages| && HasId(pages[j].items, id) :: j == i
  }

  lemma ListedFrom(all: seq<Row>, limit: nat, pages: seq<Page>, starts: seq<nat>, i: nat, id: int)
    requires Tiled(all, limit, pages, starts) && i < |pages|
    ensures HasId(pages[i].items, id) <==> exists j :: 0 <= j < |all| && InStretch(starts, i, j) && all[j].id == id
  {
    var lo, hi := starts[i], starts[i + 1];
    assert Covers(all, limit, lo, hi, pages[i]);
    var stretch := all[lo..hi];
    assert forall j | 0 <= j < |stretch| :: stretch[j] == all[lo + j];
    if j :| 0 <= j < |all| && InStretch(starts, i, j) && all[j].id == id { assert stretch[j - lo].id == id; }
    if HasId(stretch, id) {
      var j :| 0 <= j < |stretch| && stretch[j].id == id;
      assert InStretch(starts, i, lo + j) && all[lo + j].id == id;
    }
  }

  /** Some stretch holds the row at `j`. */
  lemma {:induction false} StretchOf(all: seq<Row>, limit: nat, pages: seq<Page>, starts: seq<nat>, n: nat, j: nat)
    returns (i: nat)
    requires Tiled(all, limit, pages, starts) && 1 <= n <= |pages| && j < starts[n]
    ensures i < n && InStretch(starts, i, j)
  {
    if starts[n - 1] <= j {
      i := n - 1;
    } else {
      i := StretchOf(all, limit, pages, starts, n - 1, j);
    }
  }

  lemma {:induction false} StartsGrow(all: seq<Row>, limit: nat, pages: seq<Page>, starts: seq<nat>, i: nat, j: nat)
    requires Tiled(all, limit, pages, starts) && i <= j <= |pages|
    ensures starts[i] <= starts[j]
  {
    if i == j {
    } else {
      StartsGrow(all, limit, pages, starts, i, j - 1);
      assert Covers(all, limit, starts[j - 1], starts[j], pages[j - 1]);
    }
  }

  lemma StretchesAreApart(all: seq<Row>, limit: nat, pages: seq<Page>, starts: seq<nat>, i: nat, k: nat, j: nat)
    requires Tiled(all, limit, pages, starts) && i < |pages| && k < |pages|
    requires InStretch(starts, i, j) && InStretch(starts, k, j)
    ensures i == k
  {
    if i < k { StartsGrow(all, limit, pages, starts, i + 1, k); }
    if k < i { StartsGrow(all, limit, pages, starts, k + 1, i); }
  }

  /** In a finished traversal of a list in which no id has more than three rows every id
      is listed, and page i is the only one to list it if and only if all the id's rows
      lie between the i-th and the next place of `Starts`, whatever newer rows were
      inserted meanwhile. */
  lemma IdIsListedOnceExactly(dbs: seq<set<Row>>, matches: Row -> bool, limit: nat, pages: seq<Page>, all: seq<Row>, id: int)
    requires limit >= 1 && IsCaseTraversal(dbs, matches, limit, pages) && IsListing(dbs[0], matches, all)
    requires pages[|pages| - 1].next.None? && AtMost(all, 3) && HasId(all, id)
    ensures Starts(all, limit, |pages|)[|pages|] == |all|
    ensures exists i :: 0 <= i < |pages| && HasId(pages[i].items, id)
    ensures forall i | 0 <= i < |pages| ::
              ListedOnlyOn(pages, id, i) <==> StretchHolds(all, Starts(all, limit, |pages|), id, i)
  {
    var starts := Starts(all, limit, |pages|);
    CaseTraversalTiles(dbs, matches, limit, pages, all, |pages|);
    assert pages[..|pages|] == pages;
    TiledOnceExactly(all, limit, pages, starts, id);
  }

  lemma TiledOnceExactly(all: seq<Row>, limit: nat, pages: seq<Page>, starts: seq<nat>, id: int)
    requires limit >= 1 && pages != [] && Tiled(all, limit, pages, starts) && pages[|pages| - 1].next.None?
    requires AtMost(all, 3) && HasId(all, id)
    ensures starts[|pages|] == |all|
    ensures exists i :: 0 <= i < |pages| && HasId(pages[i].items, id)
    ensures forall i | 0 <= i < |pages| :: ListedOnlyOn(pages, id, i) <==> StretchHolds(all, starts, id, i)
  {
    assert Covers(all, limit, starts[|pages| - 1], starts[|pages|], pages[|pages| - 1]);
    var r :| 0 <= r < |all| && all[r].id == id;
    var p := StretchOf(all, limit, pages, starts, |pages|, r);
    ListedFrom(all, limit, pages, starts, p, id);
    forall i | 0 <= i < |pages| ensures ListedOnlyOn(pages, id, i) <==> StretchHolds(all, starts, id, i) {
      if ListedOnlyOn(pages, id, i) { OnlyPageHolds(all, limit, pages, starts, id, i); }
      if StretchHolds(all, starts, id, i) { HoldingPageIsOnly(all, limit, pages, starts, id, i); }
    }
  }

  lemma OnlyPageHolds(all: seq<Row>, limit: nat, pages: seq<Page>, starts: seq<nat>, id: int, i: nat)
    requires pages != [] && Tiled(all, limit, pages, starts) && starts[|pages|] == |all|
    requires i < |pages| && ListedOnlyOn(pages, id, i)
    ensures StretchHolds(all, starts, id, i)
  {
    forall j | 0 <= j < |all| && all[j].id == id ensures InStretch(starts, i, j) {
      var k := StretchOf(all, limit, pages, starts, |pages|, j);
      assert InStretch(starts, k, j);
      ListedFrom(all, limit, pages, starts, k, id);
    }
  }

  lemma HoldingPageIsOnly(all: seq<Row>, limit: nat, pages: seq<Page>, starts: seq<nat>, id: int, i: nat)
    requires Tiled(all, limit, pages, starts) && i < |pages| && HasId(all, id) && StretchHolds(all, starts, id, i)
    ensures ListedOnlyOn(pages, id, i)
  {
    var r :| 0 <= r < |all| && all[r].id == id;
    assert InStretch(starts, i, r);
    ListedFrom(all, limit, pages, starts, i, id);
    forall k | 0 <= k < |pages| && HasId(pages[k].items, id) ensures k == i {
      ListedFrom(all, limit, pages, starts, k, id);
      var j :| 0 <= j < |all| && InStretch(starts, k, j) && all[j].id == id;
      StretchesAreApart(all, limit, pages, starts, i, k, j);
    }
  }

  /** Three rows with ids 7, 8, 7, one to a page: 7 is listed twice, each end right. */
  lemma IdIsListedTwice() returns (all: seq<Row>)
    ensures Descending(all) && |all| == 3 && AtMost(all, 3)
    ensures PageOf(Unique(Fetched(all, 1)), 1) == Page([all[0]], CursorAt(all, 1))
    ensures PageOf(Unique(Fetched(all[1..], 1)), 1) == Page([all[1]], CursorAt(all, 2))
    ensures PageOf(Unique(Fetched(all[2..], 1)), 1) == Page([all[2]], None) && all[2].id == all[0].id != all[1].id
  {
    all := [Row(Key(9, 7), 7), Row(Key(8, 8), 8), Row(Key(7, 7), 7)];
    assert Fetched(all, 1) == all && all[..2] == [all[0], all[1]] && all[..2][..1] == [all[0]];
    TwoIds(all[0], all[1]);
    TwoIds(all[1], all[2]);
    assert Fetched(all[1..], 1) == [all[1], all[2]] && Fetched(all[2..], 1) == [all[2]];
    OneIdKeepsOneRow([all[2]], 7);
    UniqueGrows(all, 2);
    forall id ensures Count(all, id) <= 3 { CountAtMostLength(all, id); }
  }

  lemma TwoIds(a: Row, b: Row)
    requires a.id != b.id
    ensures Unique([a, b]) == [a, b]
  {
    UniqueOfDistinct([a, b]);
  }

  lemma {:induction false} CountAtMostLength(rows: seq<Row>, id: int)
    ensures Count(rows, id) <= |rows|
  {
    if rows == [] {
    } else {
      CountAtMostLength(rows[..|rows| - 1], id);
    }
  }
}
