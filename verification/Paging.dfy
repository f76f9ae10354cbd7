/**
 The training-data endpoint and the client loop that walks its cursor. Rows are
 unique by (time, receiver), the index the endpoint pages over. The table may
 change between two requests.
 */
module Paging {
  import opened Wrappers

  const MAX_PAGE_SIZE: int := 5000
  const MAX_ROOMS: nat := 32

  /** A row; `csi` stands for everything the endpoint does not look at. */
  datatype Row = Row(time: int, receiver: int, room: string, csi: nat)

  datatype Key = Key(time: int, receiver: int)

  type Table = set<Row>

  datatype Request = Request(timeStart: int, timeEnd: int, rooms: seq<string>)
  datatype Page = Page(rows: seq<Row>, next: Option<Key>)

  function KeyOf(r: Row): Key {
    Key(r.time, r.receiver)
  }

  predicate Less(a: Key, b: Key) {
    a.time < b.time || (a.time == b.time && a.receiver < b.receiver)
  }

  ghost predicate UniqueKeys(table: Table) {
    forall r, s :: r in table && s in table && KeyOf(r) == KeyOf(s) ==> r == s
  }

  predicate Beyond(cursor: Option<Key>, k: Key) {
    cursor.Some? ==> Less(cursor.value, k)
  }

  predicate Wanted(req: Request, r: Row) {
    req.timeStart <= r.time < req.timeEnd && r.room in req.rooms
  }

  predicate Acceptable(req: Request, pageSize: int) {
    req.timeStart < req.timeEnd && 1 <= |req.rooms| <= MAX_ROOMS && 1 <= pageSize <= MAX_PAGE_SIZE
  }

  ghost predicate Ascending(rows: seq<Row>) {
    forall i, j :: 0 <= i < j < |rows| ==> Less(KeyOf(rows[i]), KeyOf(rows[j]))
  }

  /** Exactly the wanted rows beyond the cursor, in key order. */
  ghost predicate Listing(table: Table, req: Request, cursor: Option<Key>, rows: seq<Row>) {
    Ascending(rows) && forall r :: r in rows <==> r in table && Wanted(req, r) && Beyond(cursor, KeyOf(r))
  }

  // -------------------------------------------------------------------- server

  ghost predicate Least(rows: set<Row>, least: Row) {
    least in rows && forall r :: r in rows && r != least ==> Less(KeyOf(least), KeyOf(r))
  }

  lemma {:induction false} LeastExists(rows: set<Row>) returns (least: Row)
    requires rows != {} && UniqueKeys(rows)
    ensures Least(rows, least)
    decreases rows
  {
    least :| least in rows;
    if rows != {least} {
      var one := least;
      var other := LeastExists(rows - {one});
      least := if Less(KeyOf(one), KeyOf(other)) then one else other;
    }
  }

  /** The ordered query. */
  method Select(table: Table, req: Request, cursor: Option<Key>) returns (rows: seq<Row>)
    requires UniqueKeys(table)
    ensures Listing(table, req, cursor, rows)
  {
    var rest := set r | r in table && Wanted(req, r) && Beyond(cursor, KeyOf(r));
    rows := [];
    while rest != {}
      invariant rest <= table
      invariant forall r :: r in table && Wanted(req, r) && Beyond(cursor, KeyOf(r)) <==> r in rows || r in rest
      invariant forall i, r :: 0 <= i < |rows| && r in rest ==> Less(KeyOf(rows[i]), KeyOf(r))
      invariant Ascending(rows)
      decreases rest
    {
      ghost var first := LeastExists(rest);
      var least :| least in rest && forall r :: r in rest && r != least ==> Less(KeyOf(least), KeyOf(r));
      rows := rows + [least];
      rest := rest - {least};
    }
  }

  /** A page is a prefix of the listing; its cursor is the last key, if rows are left. */
  ghost predicate PageOf(listing: seq<Row>, pageSize: nat, page: Page)
    requires pageSize >= 1
  {
    if |listing| > pageSize then
      page.rows == listing[..pageSize] && page.next == Some(KeyOf(listing[pageSize - 1]))
    else
      page.rows == listing && page.next == None
  }

  method GetTrainingData(table: Table, req: Request, cursor: Option<Key>, pageSize: int)
      returns (answer: Option<Page>, ghost listing: seq<Row>)
    requires UniqueKeys(table)
    ensures answer.Some? <==> Acceptable(req, pageSize)
    ensures answer.Some? ==> Listing(table, req, cursor, listing) && PageOf(listing, pageSize, answer.value)
  {
    listing := [];
    if pageSize < 1 || pageSize > MAX_PAGE_SIZE || req.timeEnd <= req.timeStart || |req.rooms| == 0 || |req.rooms| > MAX_ROOMS {
      return None, listing;
    }
    var selected := Select(table, req, cursor);
    listing := selected;
    var samples := if |selected| > pageSize + 1 then selected[..pageSize + 1] else selected;
    var hasMore := |samples| > pageSize;
    var page := if hasMore then samples[..pageSize] else samples;
    var next := if hasMore && |page| > 0 then Some(KeyOf(page[|page| - 1])) else None;
    return Some(Page(page, next)), listing;
  }

  // -------------------------------------------------------------------- client

  ghost predicate InAll(tables: seq<Table>, r: Row) {
    forall i :: 0 <= i < |tables| ==> r in tables[i]
  }

  /** Present at every request and wanted. */
  ghost predicate Steady(tables: seq<Table>, req: Request, r: Row) {
    Wanted(req, r) && InAll(tables, r)
  }

  predicate UpTo(cursor: Option<Key>, k: Key) {
    cursor.Some? && !Less(cursor.value, k)
  }

  /** What the loop has delivered when it stands at the cursor. */
  ghost predicate Delivered(tables: seq<Table>, req: Request, cursor: Option<Key>, rows: seq<Row>) {
    && Ascending(rows)
    && (forall r :: r in rows ==> Wanted(req, r) && UpTo(cursor, KeyOf(r)) && exists i :: 0 <= i < |tables| && r in tables[i])
    && (forall r :: Steady(tables, req, r) && UpTo(cursor, KeyOf(r)) ==> r in rows)
  }

  /** What the loop has delivered when it ends. */
  ghost predicate DeliveredAll(tables: seq<Table>, req: Request, rows: seq<Row>) {
    && Ascending(rows)
    && (forall r :: r in rows ==> Wanted(req, r) && exists i :: 0 <= i < |tables| && r in tables[i])
    && (forall r :: Steady(tables, req, r) ==> r in rows)
  }

  lemma AppendFullPage(tables: seq<Table>, at: nat, req: Request, cursor: Option<Key>, rows: seq<Row>,
                       listing: seq<Row>, pageSize: nat, page: Page)
    requires Delivered(tables, req, cursor, rows) && at < |tables| && pageSize >= 1
    requires Listing(tables[at], req, cursor, listing) && PageOf(listing, pageSize, page) && page.next.Some?
    ensures Delivered(tables, req, page.next, rows + page.rows)
  {
    assert forall i :: 0 <= i < |page.rows| ==> page.rows[i] in listing;
    forall r | Steady(tables, req, r) && UpTo(page.next, KeyOf(r)) ensures r in rows + page.rows {
      if !UpTo(cursor, KeyOf(r)) {
        assert r in listing;
        var j :| 0 <= j < |listing| && listing[j] == r;
        assert j < pageSize;
        assert r == page.rows[j];
      }
    }
  }

  lemma AppendLastPage(tables: seq<Table>, at: nat, req: Request, cursor: Option<Key>, rows: seq<Row>,
                       listing: seq<Row>, pageSize: nat, page: Page)
    requires Delivered(tables, req, cursor, rows) && at < |tables| && pageSize >= 1
    requires Listing(tables[at], req, cursor, listing) && PageOf(listing, pageSize, page) && page.next.None?
    ensures DeliveredAll(tables, req, rows + page.rows)
  {
    forall r | Steady(tables, req, r) ensures r in rows + page.rows {
      if !UpTo(cursor, KeyOf(r)) {
        assert r in listing;
      }
    }
  }

  function Remaining(table: Table, req: Request, cursor: Option<Key>): set<Row> {
    set r | r in table && Wanted(req, r) && Beyond(cursor, KeyOf(r))
  }

  lemma RemainingShrinks(table: Table, req: Request, cursor: Option<Key>, listing: seq<Row>, pageSize: nat, page: Page)
    requires pageSize >= 1 && Listing(table, req, cursor, listing) && PageOf(listing, pageSize, page) && page.next.Some?
    ensures Remaining(table, req, page.next) < Remaining(table, req, cursor)
  {
    var last := listing[pageSize - 1];
    assert last in Remaining(table, req, cursor) && last !in Remaining(table, req, page.next);
  }

  /**
   The client loop. `tables[i]` is the table at the i-th request; from the last one
   on it no longer changes. Every row present throughout comes exactly once, whatever
   was inserted or removed between the pages.
   */
  method IterTrainingData(tables: seq<Table>, req: Request, pageSize: int) returns (rows: Option<seq<Row>>)
    requires |tables| > 0 && forall i :: 0 <= i < |tables| ==> UniqueKeys(tables[i])
    ensures rows.Some? <==> Acceptable(req, pageSize)
    ensures rows.Some? ==> DeliveredAll(tables, req, rows.value)
    ensures rows.Some? && |tables| == 1 ==> Listing(tables[0], req, None, rows.value)
    // the same in plain terms
    ensures rows.Some? <==> req.timeStart < req.timeEnd && 1 <= |req.rooms| <= 32 && 1 <= pageSize <= 5000
    ensures rows.Some? ==> forall i, j :: 0 <= i < j < |rows.value| ==>
      || rows.value[i].time < rows.value[j].time
      || (rows.value[i].time == rows.value[j].time && rows.value[i].receiver < rows.value[j].receiver)
    ensures rows.Some? ==> forall r: Row :: r in rows.value ==> req.timeStart <= r.time < req.timeEnd && r.room in req.rooms
    ensures rows.Some? ==> forall r: Row :: r.room in req.rooms && req.timeStart <= r.time < req.timeEnd && InAll(tables, r) ==>
      r in rows.value
  {
    var cursor: Option<Key> := None;
    var got: seq<Row> := [];
    var at: nat := 0;
    while true
      invariant at < |tables| && Delivered(tables, req, cursor, got)
      invariant cursor.Some? ==> Acceptable(req, pageSize)
      decreases |tables| - at, Remaining(tables[at], req, cursor)
    {
      var answer, listing := GetTrainingData(tables[at], req, cursor, pageSize);
      if answer.None? {
        return None;
      }
      var page := answer.value;
      if page.next.None? {
        AppendLastPage(tables, at, req, cursor, got, listing, pageSize, page);
        got := got + page.rows;
        return Some(got);
      }
      AppendFullPage(tables, at, req, cursor, got, listing, pageSize, page);
      RemainingShrinks(tables[at], req, cursor, listing, pageSize, page);
      got := got + page.rows;
      cursor := page.next;
      if at + 1 < |tables| {
        at := at + 1;
      }
    }
  }

  lemma NoneIn(rows: seq<Row>)
    ensures rows == [] || exists r :: r in rows
  {
    if rows != [] {
      assert rows[0] in rows;
    }
  }

  /** A table has one listing, so the stream does not depend on the page size. */
  lemma {:induction false} ListingIsUnique(one: seq<Row>, two: seq<Row>)
    requires Ascending(one) && Ascending(two) && forall r :: r in one <==> r in two
    ensures one == two
    decreases |one|
  {
    if one == [] {
      NoneIn(two);
    } else {
      assert one[0] in two;
      assert two != [] && two[0] in one;
      assert one[0] == two[0];
      forall r ensures r in one[1..] <==> r in two[1..] {
        assert r in one[1..] ==> r in one && r != one[0];
        assert r in two[1..] ==> r in two && r != two[0];
        assert r in one && r != one[0] ==> r in one[1..];
        assert r in two && r != two[0] ==> r in two[1..];
      }
      ListingIsUnique(one[1..], two[1..]);
    }
  }

  // ------------------------------------------------------- sessions on one table

  /** The answers of a session, each asked for with the cursor of the one before. */
  datatype Pages = Final(page: Page) | More(page: Page, rest: Pages)

  function Streamed(pages: Pages): seq<Row> {
    if pages.Final? then pages.page.rows else pages.page.rows + Streamed(pages.rest)
  }

  ghost predicate Answered(table: Table, req: Request, cursor: Option<Key>, pageSize: nat, page: Page)
    requires pageSize >= 1
  {
    exists listing :: Listing(table, req, cursor, listing) && PageOf(listing, pageSize, page)
  }

  /** The client starts at the cursor and asks for pages of one size until there is no next cursor. */
  ghost predicate Session(table: Table, req: Request, cursor: Option<Key>, pageSize: nat, pages: Pages)
    requires pageSize >= 1
    decreases pages
  {
    && Answered(table, req, cursor, pageSize, pages.page)
    && match pages
       case Final(page) => page.next.None?
       case More(page, rest) => page.next.Some? && Session(table, req, page.next, pageSize, rest)
  }

  /** For every page size the pages of a session concatenate to the listing. */
  lemma {:induction false} SessionIsListing(table: Table, req: Request, cursor: Option<Key>, pageSize: nat, pages: Pages)
    requires pageSize >= 1 && Session(table, req, cursor, pageSize, pages)
    ensures Listing(table, req, cursor, Streamed(pages))
    decreases pages
  {
    var listing :| Listing(table, req, cursor, listing) && PageOf(listing, pageSize, pages.page);
    if pages.More? {
      SessionIsListing(table, req, pages.page.next, pageSize, pages.rest);
      PageAndRest(table, req, cursor, listing, pageSize, pages.page, Streamed(pages.rest));
    }
  }

  lemma PageAndRest(table: Table, req: Request, cursor: Option<Key>, listing: seq<Row>, pageSize: nat, page: Page, rest: seq<Row>)
    requires pageSize >= 1 && Listing(table, req, cursor, listing) && PageOf(listing, pageSize, page)
    requires page.next.Some? && Listing(table, req, page.next, rest)
    ensures Listing(table, req, cursor, page.rows + rest)
  {
    var all := page.rows + rest;
    assert forall i :: 0 <= i < |page.rows| ==> page.rows[i] in listing;
    forall r ensures r in all <==> r in table && Wanted(req, r) && Beyond(cursor, KeyOf(r)) {
      if r in listing {
        var j :| 0 <= j < |listing| && listing[j] == r;
        assert j < pageSize ==> r == page.rows[j];
      }
    }
    assert forall i :: 0 <= i < |rest| ==> rest[i] in rest;
  }
}
