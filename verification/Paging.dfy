/** Keyset pagination of the dashboard: the audit log by (at, seq), investigations by
    (created_at, investigation_id), both newest first, while rows are being added. */
module Paging {
  import opened Wrappers

  /** A row's sort key: its timestamp, then its sequence number or id. */
  datatype Key = Key(at: int, tie: int)

  datatype Row = Row(key: Key, id: int)

  predicate Before(a: Key, b: Key) { a.at < b.at || (a.at == b.at && a.tie < b.tie) }

  predicate UniqueKeys(db: set<Row>) { forall a, b | a in db && b in db && a.key == b.key :: a == b }

  predicate Descending(rows: seq<Row>) { forall i, j | 0 <= i < j < |rows| :: Before(rows[j].key, rows[i].key) }

  predicate BelowCursor(r: Row, cursor: Option<Key>) { cursor.None? || Before(r.key, cursor.value) }

  /** `rows` is what `ORDER BY key DESC LIMIT n` may return for the rows of `db` that
      match the filter and lie below the cursor. */
  ghost predicate IsQuery(db: set<Row>, matches: Row -> bool, cursor: Option<Key>, n: nat, rows: seq<Row>) {
    && Descending(rows) && |rows| <= n
    && (forall i | 0 <= i < |rows| :: rows[i] in db && matches(rows[i]) && BelowCursor(rows[i], cursor))
    && (forall r | r in db && matches(r) && BelowCursor(r, cursor) && r !in rows ::
          |rows| == n && AllAfter(r, rows))
  }

  /** All matching rows of a table, newest first. */
  ghost predicate IsListing(db: set<Row>, matches: Row -> bool, all: seq<Row>) {
    && Descending(all)
    && (forall i | 0 <= i < |all| :: all[i] in db && matches(all[i]))
    && (forall r | r in db && matches(r) :: r in all)
  }

  datatype Page = Page(items: seq<Row>, next: Option<Key>)

  const AUDIT_MAX_LIMIT := 100
  const CASES_MAX_LIMIT := 50

  /** The page size served for a requested one; 0 asks for the default. */
  function Clamp(requested: int, max: nat): (limit: nat)
    requires max >= 1
    ensures 1 <= limit <= max && (1 <= requested <= max ==> limit == requested)
  {
    var wanted := if requested == 0 then 50 else requested;
    var capped := if wanted < max then wanted else max;
    if capped < 1 then 1 else capped
  }

  /** What both listings make of their rows: a page, and a cursor naming its last row
      when a row follows. */
  function PageOf(rows: seq<Row>, limit: nat): Page
    requires limit >= 1
  {
    if |rows| <= limit then Page(rows, None) else Page(rows[..limit], Some(rows[limit - 1].key))
  }

  /** The tail of `list_audit`: `rows` is the query's answer for limit + 1 rows. */
  method ListAudit(rows: seq<Row>, requested: int) returns (page: Page)
    ensures page == PageOf(rows, Clamp(requested, AUDIT_MAX_LIMIT))
  {
    var limit := Clamp(requested, AUDIT_MAX_LIMIT);
    var items := if |rows| <= limit then rows else rows[..limit];
    var next := None;
    if |rows| > limit { next := Some(items[|items| - 1].key); }
    page := Page(items, next);
  }

  // ----- investigations are de-duplicated -----

  function FetchSize(limit: nat): nat { if limit + 1 > limit * 4 then limit + 1 else limit * 4 }

  predicate HasId(rows: seq<Row>, id: int) { exists i :: 0 <= i < |rows| && rows[i].id == id }

  predicate DistinctIds(rows: seq<Row>) { forall i, j | 0 <= i < j < |rows| :: rows[i].id != rows[j].id }

  /** The first row of each id, in order. */
  function Unique(rows: seq<Row>): seq<Row> {
    if rows == [] then [] else
    var kept := Unique(rows[..|rows| - 1]);
    if HasId(kept, rows[|rows| - 1].id) then kept else kept + [rows[|rows| - 1]]
  }

  lemma {:induction false} UniqueKeepsEveryId(rows: seq<Row>)
    ensures DistinctIds(Unique(rows))
    ensures forall id :: HasId(Unique(rows), id) <==> HasId(rows, id)
  {
    if rows == [] {
    } else {
      var front, last := rows[..|rows| - 1], rows[|rows| - 1];
      UniqueKeepsEveryId(front);
      assert rows == front + [last];
      HasIdAppend(front, last);
      HasIdAppend(Unique(front), last);
    }
  }

  lemma HasIdAppend(rows: seq<Row>, r: Row)
    ensures forall id :: HasId(rows + [r], id) <==> HasId(rows, id) || id == r.id
  {
    forall id ensures HasId(rows + [r], id) <==> HasId(rows, id) || id == r.id {
      assert forall i | 0 <= i < |rows| :: (rows + [r])[i] == rows[i];
      assert (rows + [r])[|rows|] == r;
    }
  }

  lemma {:induction false} UniqueOfDistinct(rows: seq<Row>)
    requires DistinctIds(rows)
    ensures Unique(rows) == rows
  {
    if rows == [] {
    } else {
      UniqueOfDistinct(rows[..|rows| - 1]);
      assert rows == rows[..|rows| - 1] + [rows[|rows| - 1]];
    }
  }

  lemma {:induction false} UniqueGrows(rows: seq<Row>, i: nat)
    requires i <= |rows|
    ensures Unique(rows[..i]) <= Unique(rows)
    decreases |rows|
  {
    if i < |rows| {
      UniqueGrows(rows[..|rows| - 1], i);
      assert rows[..|rows| - 1][..i] == rows[..i];
    } else {
      assert rows[..i] == rows;
    }
  }

  /** The tail of `list_investigations`: keep the first row of each id, stop one row
      past the limit. */
  method ListInvestigations(rows: seq<Row>, requested: int) returns (page: Page)
    ensures page == PageOf(Unique(rows), Clamp(requested, CASES_MAX_LIMIT))
    ensures DistinctIds(rows) ==> page == PageOf(rows, Clamp(requested, CASES_MAX_LIMIT))
  {
    var limit := Clamp(requested, CASES_MAX_LIMIT);
    var seen: set<int> := {};
    var unique: seq<Row> := [];
    var i := 0;
    while i < |rows| && |unique| < limit + 1
      invariant 0 <= i <= |rows| && |unique| <= limit + 1
      invariant unique == Unique(rows[..i])
      invariant forall id :: id in seen <==> HasId(unique, id)
    {
      assert rows[..i + 1][..i] == rows[..i];
      if rows[i].id !in seen {
        HasIdAppend(unique, rows[i]);
        seen := seen + {rows[i].id};
        unique := unique + [rows[i]];
      }
      i := i + 1;
    }
    UniqueGrows(rows, i);
    assert i == |rows| ==> rows[..i] == rows;
    if DistinctIds(rows) { UniqueOfDistinct(rows); }
    var items := if |unique| <= limit then unique else unique[..limit];
    var next := None;
    if |unique| > limit { next := Some(items[|items| - 1].key); }
    page := Page(items, next);
  }

  // ----- following next_cursor -----

  /** `db` is `db0` with rows added, each newer than every row of `db0`. */
  predicate Grown(db0: set<Row>, db: set<Row>) {
    && db0 <= db && UniqueKeys(db)
    && forall r, r0 | r in db && r !in db0 && r0 in db0 :: Before(r0.key, r.key)
  }

  ghost predicate PageFrom(db: set<Row>, matches: Row -> bool, cursor: Option<Key>, limit: nat, fetch: nat, page: Page)
    requires limit >= 1
  {
    exists rows :: IsQuery(db, matches, cursor, fetch, rows) && page == PageOf(rows, limit)
  }

  /** The pages a client gets by following next_cursor from the start. Page i reads the
      table as it then is, `dbs[i]`, asking the database for `fetch` rows. */
  ghost predicate IsTraversal(dbs: seq<set<Row>>, matches: Row -> bool, limit: nat, fetch: nat, pages: seq<Page>)
    requires limit >= 1
  {
    && 0 < |pages| == |dbs|
    && (forall i | 0 <= i < |dbs| :: Grown(dbs[0], dbs[i]))
    && PageFrom(dbs[0], matches, None, limit, fetch, pages[0])
    && (forall i | 1 <= i < |pages| :: Follows(dbs[i], matches, limit, fetch, pages, i))
  }

  ghost predicate Follows(db: set<Row>, matches: Row -> bool, limit: nat, fetch: nat, pages: seq<Page>, i: nat)
    requires limit >= 1 && 1 <= i < |pages|
  {
    pages[i - 1].next.Some? && PageFrom(db, matches, pages[i - 1].next, limit, fetch, pages[i])
  }

  /** Where page i starts in the listing: i * limit. */
  function Start(i: nat, limit: nat): nat { if i == 0 then 0 else Start(i - 1, limit) + limit }

  lemma {:induction false} StartIsProduct(i: nat, limit: nat)
    ensures Start(i, limit) == i * limit
  {
    if i == 0 {
    } else {
      StartIsProduct(i - 1, limit);
      assert i * limit == (i - 1) * limit + limit;
    }
  }

  /** The cursor under which the first `off` rows of the listing have been seen. */
  function CursorAt(all: seq<Row>, off: nat): Option<Key>
    requires off <= |all|
  {
    if off == 0 then None else Some(all[off - 1].key)
  }

  /** `r` is in the listing, at `off` or later. */
  predicate Later(all: seq<Row>, off: nat, r: Row) { exists k :: off <= k < |all| && all[k] == r }

  function Min(a: int, b: int): int { if a < b then a else b }

  lemma IndexOrder(all: seq<Row>, i: nat, j: nat)
    requires Descending(all) && i < |all| && j < |all|
    ensures Before(all[j].key, all[i].key) <==> i < j
    ensures all[i].key == all[j].key <==> i == j
  {
    assert i < j ==> Before(all[j].key, all[i].key);
    assert j < i ==> Before(all[i].key, all[j].key);
  }

  /** The cursor of an already seen prefix leaves exactly the rest of the listing. */
  lemma BelowIsLater(db0: set<Row>, db: set<Row>, matches: Row -> bool, all: seq<Row>, off: nat, r: Row)
    requires IsListing(db0, matches, all) && Grown(db0, db) && off <= |all|
    requires off == 0 ==> db == db0
    ensures (r in db && matches(r) && BelowCursor(r, CursorAt(all, off)))
            <==> Later(all, off, r)
  {
    if k :| 0 <= k < |all| && all[k] == r {
      if off > 0 { IndexOrder(all, off - 1, k); }
      forall j | 0 <= j < |all| ensures all[j] == r <==> j == k { IndexOrder(all, j, k); }
    }
  }

  predicate AllAfter(r: Row, rows: seq<Row>) { forall j | 0 <= j < |rows| :: Before(r.key, rows[j].key) }

  lemma StretchStep(all: seq<Row>, off: nat, rows: seq<Row>, k: nat)
    requires Descending(all) && Descending(rows) && k < |rows| && off + k <= |all|
    requires Later(all, off, rows[k])
    requires off + k < |all| && all[off + k] !in rows ==> AllAfter(all[off + k], rows)
    requires forall i | 0 <= i < k :: rows[i] == all[off + i]
    ensures off + k < |all| && rows[k] == all[off + k]
  {
    var m :| off <= m < |all| && all[m] == rows[k];
    if k > 0 { IndexOrder(rows, k - 1, k); IndexOrder(all, off + k - 1, m); }
    assert off + k <= m;
    var s := all[off + k];
    IndexOrder(all, m, off + k);
    forall i | 0 <= i < k ensures rows[i] != s { IndexOrder(all, off + i, off + k); }
    if s in rows {
      var j :| 0 <= j < |rows| && rows[j] == s;
      IndexOrder(rows, k, j);
      IndexOrder(all, off + k, m);
    }
  }

  lemma {:induction false} StretchByIndex(all: seq<Row>, off: nat, rows: seq<Row>, k: nat)
    requires Descending(all) && Descending(rows) && off <= |all| && k <= |rows|
    requires forall i | 0 <= i < |rows| :: Later(all, off, rows[i])
    requires forall m | off <= m < |all| && all[m] !in rows :: AllAfter(all[m], rows)
    ensures off + k <= |all| && forall i | 0 <= i < k :: rows[i] == all[off + i]
  {
    if k == 0 {
    } else {
      StretchByIndex(all, off, rows, k - 1);
      StretchStep(all, off, rows, k - 1);
    }
  }

  /** A query below the cursor of an already seen prefix returns the next stretch. */
  lemma QueryIsStretch(db0: set<Row>, db: set<Row>, matches: Row -> bool, all: seq<Row>, off: nat, n: nat, rows: seq<Row>)
    requires IsListing(db0, matches, all) && Grown(db0, db) && off <= |all|
    requires off == 0 ==> db == db0
    requires IsQuery(db, matches, CursorAt(all, off), n, rows)
    ensures rows == all[off..Min(off + n, |all|)]
  {
    forall i | 0 <= i < |rows| ensures Later(all, off, rows[i]) {
      BelowIsLater(db0, db, matches, all, off, rows[i]);
    }
    forall m | off <= m < |all| && all[m] !in rows
      ensures |rows| == n && AllAfter(all[m], rows)
    {
      assert Later(all, off, all[m]);
      BelowIsLater(db0, db, matches, all, off, all[m]);
    }
    StretchByIndex(all, off, rows, |rows|);
    if off + |rows| < |all| {
      forall j | 0 <= j < |rows| ensures rows[j] != all[off + |rows|] { IndexOrder(all, off + j, off + |rows|); }
      assert all[off + |rows|] !in rows;
    }
  }

  /** The page holds the i-th stretch of the listing, and names a next cursor exactly
      while rows remain. */
  predicate IsStretch(all: seq<Row>, limit: nat, i: nat, page: Page)
    requires limit >= 1
  {
    && Start(i, limit) <= |all|
    && page.items == all[Start(i, limit)..Min(Start(i + 1, limit), |all|)]
    && page.next == if Start(i + 1, limit) < |all| then CursorAt(all, Start(i + 1, limit)) else None
  }

  lemma NextPage(db0: set<Row>, db: set<Row>, matches: Row -> bool, limit: nat, fetch: nat,
                 all: seq<Row>, off: nat, page: Page)
    requires limit >= 1 && Grown(db0, db) && IsListing(db0, matches, all) && off <= |all|
    requires off == 0 ==> db == db0
    requires PageFrom(db, matches, CursorAt(all, off), limit, fetch, page)
    ensures page == PageOf(all[off..Min(off + fetch, |all|)], limit)
  {
    var rows :| IsQuery(db, matches, CursorAt(all, off), fetch, rows) && page == PageOf(rows, limit);
    QueryIsStretch(db0, db, matches, all, off, fetch, rows);
  }

  lemma PageOfStretch(all: seq<Row>, limit: nat, fetch: nat, i: nat)
    requires limit >= 1 && fetch >= limit + 1 && Start(i, limit) <= |all|
    ensures IsStretch(all, limit, i, PageOf(all[Start(i, limit)..Min(Start(i, limit) + fetch, |all|)], limit))
  {
    var off := Start(i, limit);
    var rows := all[off..Min(off + fetch, |all|)];
    assert |rows| > limit <==> off + limit < |all|;
    assert off + limit < |all| ==> rows[..limit] == all[off..off + limit];
  }

  lemma NextPageIsStretch(db0: set<Row>, db: set<Row>, matches: Row -> bool, limit: nat, fetch: nat,
                          all: seq<Row>, i: nat, page: Page)
    requires limit >= 1 && fetch >= limit + 1 && Grown(db0, db) && IsListing(db0, matches, all)
    requires Start(i, limit) <= |all| && (Start(i, limit) == 0 ==> db == db0)
    requires PageFrom(db, matches, CursorAt(all, Start(i, limit)), limit, fetch, page)
    ensures IsStretch(all, limit, i, page)
  {
    NextPage(db0, db, matches, limit, fetch, all, Start(i, limit), page);
    PageOfStretch(all, limit, fetch, i);
  }

  /** Page i of a traversal is exactly the i-th stretch of the first table's listing. */
  lemma {:induction false} PageIsStretch(dbs: seq<set<Row>>, matches: Row -> bool, limit: nat, fetch: nat,
                                         pages: seq<Page>, all: seq<Row>, i: nat)
    requires limit >= 1 && fetch >= limit + 1 && IsTraversal(dbs, matches, limit, fetch, pages)
    requires IsListing(dbs[0], matches, all) && i < |pages|
    ensures IsStretch(all, limit, i, pages[i])
  {
    if i == 0 {
      NextPageIsStretch(dbs[0], dbs[0], matches, limit, fetch, all, 0, pages[0]);
    } else {
      PageIsStretch(dbs, matches, limit, fetch, pages, all, i - 1);
      assert Follows(dbs[i], matches, limit, fetch, pages, i);
      CursorReached(all, limit, i, pages[i - 1]);
      NextPageIsStretch(dbs[0], dbs[i], matches, limit, fetch, all, i, pages[i]);
    }
  }

  lemma CursorReached(all: seq<Row>, limit: nat, i: nat, page: Page)
    requires limit >= 1 && i > 0 && IsStretch(all, limit, i - 1, page) && page.next.Some?
    ensures 0 < Start(i, limit) <= |all| && page.next == CursorAt(all, Start(i, limit))
  {
    assert Start(i, limit) == Start(i - 1, limit) + limit;
  }

  function Concat(pages: seq<Page>): seq<Row> {
    if pages == [] then [] else Concat(pages[..|pages| - 1]) + pages[|pages| - 1].items
  }

  lemma {:induction false} ConcatPrefix(pages: seq<Page>, all: seq<Row>, limit: nat, n: nat)
    requires limit >= 1 && n <= |pages| && forall i | 0 <= i < |pages| :: Joins(all, limit, i, pages[i])
    ensures Concat(pages[..n]) == all[..Min(Start(n, limit), |all|)]
  {
    if n == 0 {
    } else {
      ConcatPrefix(pages, all, limit, n - 1);
      ConcatNext(pages, n - 1);
      assert Joins(all, limit, n - 1, pages[n - 1]);
    }
  }

  lemma ConcatNext(pages: seq<Page>, n: nat)
    requires n < |pages|
    ensures Concat(pages[..n + 1]) == Concat(pages[..n]) + pages[n].items
  {
    assert pages[..n + 1][..n] == pages[..n];
  }

  /** The page continues the listing up to where it starts. */
  predicate Joins(all: seq<Row>, limit: nat, i: nat, page: Page)
    requires limit >= 1
  {
    all[..Min(Start(i, limit), |all|)] + page.items == all[..Min(Start(i + 1, limit), |all|)]
  }

  lemma StretchJoins(all: seq<Row>, limit: nat, i: nat, page: Page)
    requires limit >= 1 && IsStretch(all, limit, i, page)
    ensures Joins(all, limit, i, page)
  {
    TakeMore(all, Start(i, limit), Min(Start(i + 1, limit), |all|));
  }

  lemma TakeMore(all: seq<Row>, off: nat, end: nat)
    requires off <= end <= |all|
    ensures all[..off] + all[off..end] == all[..end]
  {
  }

  /** Following next_cursor to the page that has none visits every matching row that
      was there at the start exactly once, in descending key order, and nothing else,
      however many newer rows were inserted between pages. */
  lemma TraversalIsTheListing(dbs: seq<set<Row>>, matches: Row -> bool, limit: nat, fetch: nat,
                              pages: seq<Page>, all: seq<Row>)
    requires limit >= 1 && fetch >= limit + 1 && IsTraversal(dbs, matches, limit, fetch, pages)
    requires IsListing(dbs[0], matches, all) && pages[|pages| - 1].next.None?
    ensures Concat(pages) == all
  {
    forall i | 0 <= i < |pages| ensures IsStretch(all, limit, i, pages[i]) {
      PageIsStretch(dbs, matches, limit, fetch, pages, all, i);
    }
    FinishedPages(pages, all, limit);
  }

  lemma FinishedPages(pages: seq<Page>, all: seq<Row>, limit: nat)
    requires limit >= 1 && pages != [] && pages[|pages| - 1].next.None?
    requires forall i | 0 <= i < |pages| :: IsStretch(all, limit, i, pages[i])
    ensures Concat(pages) == all
  {
    forall i | 0 <= i < |pages| ensures Joins(all, limit, i, pages[i]) { StretchJoins(all, limit, i, pages[i]); }
    ConcatPrefix(pages, all, limit, |pages|);
    assert IsStretch(all, limit, |pages| - 1, pages[|pages| - 1]);
    assert pages[..|pages|] == pages && all[..|all|] == all;
  }

  /** Every traversal stops: with n matching rows at the start it has no more than
      n / limit + 1 pages, and one fewer when the rows fill their pages. */
  lemma TraversalStops(dbs: seq<set<Row>>, matches: Row -> bool, limit: nat, fetch: nat,
                       pages: seq<Page>, all: seq<Row>)
    requires limit >= 1 && fetch >= limit + 1 && IsTraversal(dbs, matches, limit, fetch, pages)
    requires IsListing(dbs[0], matches, all)
    ensures |pages| == 1 || Start(|pages| - 1, limit) == (|pages| - 1) * limit < |all|
  {
    if |pages| > 1 {
      PageIsStretch(dbs, matches, limit, fetch, pages, all, |pages| - 2);
      assert Follows(dbs[|pages| - 1], matches, limit, fetch, pages, |pages| - 1);
      StartIsProduct(|pages| - 1, limit);
    }
  }

  // ----- the cursor text -----

  /** Library conversions the codec rests on: a timestamp's isoformat, free of '|', and
      urlsafe base64, each with its inverse. */
  datatype Codec = Codec(iso: int -> string, fromIso: string -> Option<int>,
                         b64: string -> string, unB64: string -> Option<string>)

  ghost predicate CodecSound(c: Codec) {
    && (forall t :: c.fromIso(c.iso(t)) == Some(t) && '|' !in c.iso(t))
    && (forall s :: c.unB64(c.b64(s)) == Some(s))
  }

  function EncodeCursor(c: Codec, at: int, id: string): string { c.b64(c.iso(at) + ['|'] + id) }

  /** `raw.split("|", 1)` */
  function SplitOnce(s: string): Option<(string, string)> {
    if s == [] then None
    else if s[0] == '|' then Some(([], s[1..]))
    else match SplitOnce(s[1..])
         case None => None
         case Some((a, b)) => Some(([s[0]] + a, b))
  }

  /** None is the invalid_cursor error. */
  function DecodeCursor(c: Codec, cursor: string): Option<(int, string)> {
    match c.unB64(cursor)
    case None => None
    case Some(raw) =>
      match SplitOnce(raw)
      case None => None
      case Some((ts, id)) =>
        match c.fromIso(ts)
        case None => None
        case Some(t) => Some((t, id))
  }

  lemma {:induction false} SplitOnceAtBar(a: string, b: string)
    requires '|' !in a
    ensures SplitOnce(a + ['|'] + b) == Some((a, b))
  {
    var s := a + ['|'] + b;
    if a == [] { assert s[1..] == b; }
    else {
      assert s[1..] == a[1..] + ['|'] + b;
      SplitOnceAtBar(a[1..], b);
      assert a == [a[0]] + a[1..];
    }
  }

  /** The cursor codec is lossless, whatever the id text holds. */
  lemma CursorRoundTrip(c: Codec, at: int, id: string)
    requires CodecSound(c)
    ensures DecodeCursor(c, EncodeCursor(c, at, id)) == Some((at, id))
  {
    SplitOnceAtBar(c.iso(at), id);
    assert c.fromIso(c.iso(at)) == Some(at);
    assert c.unB64(c.b64(c.iso(at) + ['|'] + id)) == Some(c.iso(at) + ['|'] + id);
  }
}
