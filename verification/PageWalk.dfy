/**
 * Keyset pagination over a table that changes underneath the walk
 * (apps/registry/src/cursor.ts:1-41, 157-185, and the page query at
 * apps/registry/src/queries.ts:598-618).
 */
module PageWalk {
  import opened Cursor
  import opened Wrappers

  /** A row, and its place in the total order. */
  datatype Row = Row(position: LogPosition, payload: string)

  /** A table in the query's order: positions strictly falling, so no two rows share one. */
  ghost predicate Falling(rows: seq<Row>) {
    forall i, j :: 0 <= i < j < |rows| ==> Below(rows[j].position, rows[i].position)
  }

  /** Every position the index can hold is a pair of safe integers. */
  ghost predicate SafeRows(rows: seq<Row>) {
    forall i :: 0 <= i < |rows| ==> Safe(rows[i].position)
  }

  // ----------------------------------------------------------------- one page

  /** WHERE (block, log) < after: every row when there is no cursor. */
  function RowsAfter(rows: seq<Row>, after: Option<LogPosition>): seq<Row> {
    if after.None? then rows
    else if rows == [] then []
    else if Below(rows[0].position, after.value) then [rows[0]] + RowsAfter(rows[1..], after)
    else RowsAfter(rows[1..], after)
  }

  function Take<T>(s: seq<T>, n: nat): seq<T> {
    if n <= |s| then s[..n] else s
  }

  /** The page query: one row more than the page, so that a further page is known to exist. */
  function Query(rows: seq<Row>, after: Option<LogPosition>, pageSize: nat): seq<Row> {
    Take(RowsAfter(rows, after), pageSize + 1)
  }

  datatype Page = Page(items: seq<Row>, nextCursor: Option<string>)

  function ToPage(rows: seq<Row>, pageSize: nat): Page {
    var items := Take(rows, pageSize);
    Page(items, if |rows| > pageSize && items != [] then Some(EncodeCursor(items[|items| - 1].position)) else None)
  }

  lemma {:induction false} RowsAfterFacts(rows: seq<Row>, after: Option<LogPosition>)
    requires Falling(rows)
    ensures Falling(RowsAfter(rows, after))
    ensures forall r :: r in RowsAfter(rows, after) <==> r in rows && (after.Some? ==> Below(r.position, after.value))
  {
    if after.Some? && rows != [] {
      RowsAfterFacts(rows[1..], after);
      var rest := RowsAfter(rows[1..], after);
      assert forall r :: r in rows <==> r == rows[0] || r in rows[1..];
      forall i | 0 <= i < |rest|
        ensures Below(rest[i].position, rows[0].position)
      {
        assert rest[i] in rest;
        var j :| 0 <= j < |rows[1..]| && rows[1..][j] == rest[i];
        assert rows[j + 1] == rest[i];
      }
    }
  }

  /** A page of falling rows is a prefix of them, and its token says where the rest begins. */
  lemma PageOfRows(rows: seq<Row>, pageSize: nat)
    requires Falling(rows) && pageSize > 0
    ensures
      var page := ToPage(Take(rows, pageSize + 1), pageSize);
      && page.items <= rows && |page.items| == (if |rows| < pageSize then |rows| else pageSize)
      && (page.nextCursor.Some? <==> |rows| > pageSize)
      && (page.nextCursor.None? ==> page.items == rows)
      && (page.nextCursor.Some? ==>
            && |page.items| == pageSize
            && page.nextCursor.value == EncodeCursor(rows[pageSize - 1].position)
            && forall r :: r in rows && r !in page.items ==> Below(r.position, rows[pageSize - 1].position))
  {
  }

  // ----------------------------------------------------------------- the walk

  /** The table as each page request finds it. */
  type Tables = nat -> seq<Row>

  ghost predicate Readable(tables: Tables) {
    forall i: nat :: Falling(tables(i)) && SafeRows(tables(i))
  }

  /** One page of a walk, as the client sees it: the i-th request, with the token it was given. */
  function PageAt(tables: Tables, i: nat, token: Option<LogPosition>, pageSize: nat): Page {
    ToPage(Query(tables(i), token, pageSize), pageSize)
  }

  /** What one page promises the next. */
  lemma PageFacts(tables: Tables, i: nat, after: Option<LogPosition>, pageSize: nat)
    requires Readable(tables) && pageSize > 0
    ensures
      var page := PageAt(tables, i, after, pageSize);
      && Falling(page.items)
      && (forall r :: r in page.items ==> r in tables(i) && (after.Some? ==> Below(r.position, after.value)))
      && (page.nextCursor.Some? ==>
            && page.items != []
            && DecodeCursor(page.nextCursor.value) == Ok(page.items[|page.items| - 1].position)
            && exists r :: r in tables(i) && (after.Some? ==> Below(r.position, after.value)) && r !in page.items)
      && |page.items| <= pageSize
      && (forall r :: r in tables(i) && (after.Some? ==> Below(r.position, after.value)) && r !in page.items ==>
            page.nextCursor.Some? && Below(r.position, page.items[|page.items| - 1].position))
  {
    var rows := RowsAfter(tables(i), after);
    RowsAfterFacts(tables(i), after);
    PageOfRows(rows, pageSize);
    var page := PageAt(tables, i, after, pageSize);
    if page.nextCursor.Some? {
      var last := page.items[|page.items| - 1];
      assert last in rows;
      assert Safe(last.position);
      CursorRoundTrip(last.position);
      RowRemains(rows, pageSize);
    }
  }

  /** Past a full page of falling rows there is one that the page does not hold. */
  lemma RowRemains(rows: seq<Row>, pageSize: nat)
    requires Falling(rows) && |rows| > pageSize
    ensures rows[pageSize] in rows && rows[pageSize] !in rows[..pageSize]
  {
  }

  /**
   * The walk a client makes: ask, take the page, follow the token while there is one. It ends
   * because positions fall in a well-founded order, however fast rows arrive above it.
   */
  function Walk(tables: Tables, i: nat, after: Option<LogPosition>, pageSize: nat): seq<Page>
    requires pageSize > 0 && Readable(tables)
    decreases after.None?, if after.Some? then after.value.blockNumber
        else 0, if after.Some? then after.value.logIndex else 0
  {
    var page := PageAt(tables, i, after, pageSize);
    PageFacts(tables, i, after, pageSize);
    match page.nextCursor
    case None => [page]
    case Some(token) =>
      assert page.items[|page.items| - 1] in page.items;
      [page] + Walk(tables, i + 1, Some(DecodeCursor(token).value), pageSize)
  }

  function Served(pages: seq<Page>): seq<Row> {
    if pages == [] then [] else pages[0].items + Served(pages[1..])
  }

  /** One page of a walk, and the pages after it from the position it ends on. */
  datatype Leg = Leg(page: Page, last: LogPosition, rest: seq<Page>)

  /** What a leg is of a walk's first request, over the table as it was then. */
  ghost predicate FirstLeg(leg: Leg, pages: seq<Page>, table: seq<Row>, after: Option<LogPosition>) {
    && pages == [leg.page] + leg.rest
    && Falling(leg.page.items)
    && (forall r :: r in leg.page.items ==> after.Some? ==> Below(r.position, after.value))
    && (leg.rest != [] ==> leg.page.items != [] && leg.page.items[|leg.page.items| - 1].position == leg.last)
    && (forall r :: r in table && (after.Some? ==> Below(r.position, after.value)) && r !in leg.page.items ==>
          leg.rest != [] && Below(r.position, leg.last))
  }

  /** A page and the position the next one is asked from. */
  lemma WalkStep(tables: Tables, i: nat, after: Option<LogPosition>, pageSize: nat)
    requires pageSize > 0 && Readable(tables)
    ensures
      var page := PageAt(tables, i, after, pageSize);
      Walk(tables, i, after, pageSize)
      == [page] + if page.nextCursor.None? || page.items == [] then []
                  else Walk(tables, i + 1, Some(page.items[|page.items| - 1].position), pageSize)
  {
    PageFacts(tables, i, after, pageSize);
  }

  lemma WalkUnfolds(tables: Tables, i: nat, after: Option<LogPosition>, pageSize: nat) returns (leg: Leg)
    requires pageSize > 0 && Readable(tables)
    ensures FirstLeg(leg, Walk(tables, i, after, pageSize), tables(i), after)
    ensures leg.rest != [] ==>
          leg.rest == Walk(tables, i + 1, Some(leg.last), pageSize) && (after.Some? ==> Below(leg.last, after.value))
  {
    var page := PageAt(tables, i, after, pageSize);
    WalkStep(tables, i, after, pageSize);
    if page.nextCursor.Some? {
      var last := TokenPosition(tables, i, after, pageSize);
      leg := Leg(page, last, Walk(tables, i + 1, Some(last), pageSize));
      WalkStep(tables, i + 1, Some(last), pageSize);
    } else {
      leg := Leg(page, LogPosition(0, 0), []);
    }
    LegFacts(tables, i, after, pageSize, leg);
  }

  lemma TokenPosition(tables: Tables, i: nat, after: Option<LogPosition>, pageSize: nat) returns (last: LogPosition)
    requires pageSize > 0 && Readable(tables) && PageAt(tables, i, after, pageSize).nextCursor.Some?
    ensures
      var items := PageAt(tables, i, after, pageSize).items;
      items != [] && last == items[|items| - 1].position && (after.Some? ==> Below(last, after.value))
  {
    PageFacts(tables, i, after, pageSize);
    var items := PageAt(tables, i, after, pageSize).items;
    assert items[|items| - 1] in items;
    last := items[|items| - 1].position;
  }

  lemma LegFacts(tables: Tables, i: nat, after: Option<LogPosition>, pageSize: nat, leg: Leg)
    requires pageSize > 0 && Readable(tables) && leg.page == PageAt(tables, i, after, pageSize)
    requires leg.page.nextCursor.Some? <==> leg.rest != []
    requires leg.rest != [] && leg.page.items != [] ==> leg.last == leg.page.items[|leg.page.items| - 1].position
    ensures FirstLeg(leg, [leg.page] + leg.rest, tables(i), after)
  {
    PageFacts(tables, i, after, pageSize);
  }

  /** A walk as its legs: each begins where the one before it ended. */
  ghost predicate Legs(pages: seq<Page>, tables: Tables, i: nat, after: Option<LogPosition>)
    decreases |pages|
  {
    exists leg ::
        FirstLeg(leg, pages, tables(i), after) && (leg.rest != [] ==> Legs(leg.rest, tables, i + 1, Some(leg.last)))
  }

  lemma {:induction false} WalkIsLegs(tables: Tables, i: nat, after: Option<LogPosition>, pageSize: nat,
      pages: seq<Page>)
    requires pageSize > 0 && Readable(tables) && pages == Walk(tables, i, after, pageSize)
    ensures Legs(pages, tables, i, after)
    decreases |pages|
  {
    var leg := WalkUnfolds(tables, i, after, pageSize);
    if leg.rest != [] {
      WalkIsLegs(tables, i + 1, Some(leg.last), pageSize, leg.rest);
    }
  }

  lemma ServedOfLeg(page: Page, rest: seq<Page>)
    ensures Served([page] + rest) == page.items + Served(rest)
  {
    assert ([page] + rest)[1..] == rest;
  }

  lemma {:induction false} LegsFall(tables: Tables, i: nat, after: Option<LogPosition>, pages: seq<Page>)
    requires Legs(pages, tables, i, after)
    ensures Falling(Served(pages))
    ensures after.Some? ==> forall r :: r in Served(pages) ==> Below(r.position, after.value)
    decreases |pages|
  {
    var leg :| FirstLeg(leg, pages, tables(i), after) && (leg.rest != [] ==>
        Legs(leg.rest, tables, i + 1, Some(leg.last)));
    ServedOfLeg(leg.page, leg.rest);
    if leg.rest != [] {
      LegsFall(tables, i + 1, Some(leg.last), leg.rest);
      JoinFalling(leg.page.items, Served(leg.rest), leg.last);
    } else {
      assert leg.page.items + [] == leg.page.items;
    }
  }

  /** Everything served lies below the cursor it was asked from, in strictly falling order. */
  lemma ServedFalls(tables: Tables, i: nat, after: Option<LogPosition>, pageSize: nat, pages: seq<Page>)
    requires pageSize > 0 && Readable(tables) && pages == Walk(tables, i, after, pageSize)
    ensures Falling(Served(pages))
    ensures after.Some? ==> forall r :: r in Served(pages) ==> Below(r.position, after.value)
  {
    WalkIsLegs(tables, i, after, pageSize, pages);
    LegsFall(tables, i, after, pages);
  }

  lemma JoinFalling(a: seq<Row>, b: seq<Row>, last: LogPosition)
    requires a != [] && Falling(a) && Falling(b) && a[|a| - 1].position == last
    requires forall r :: r in b ==> Below(r.position, last)
    ensures Falling(a + b)
    ensures forall r :: r in a + b ==> r in a || Below(r.position, last)
  {
  }

  /** The table held the row at each of n requests. */
  ghost predicate Present(tables: Tables, i: nat, n: nat, r: Row) {
    forall k :: i <= k < i + n ==> r in tables(k)
  }

  lemma PresentOnLeg(tables: Tables, i: nat, leg: Leg, pages: seq<Page>, after: Option<LogPosition>, r: Row)
    requires FirstLeg(leg, pages, tables(i), after) && Present(tables, i, |pages|, r)
    requires after.Some? ==> Below(r.position, after.value)
    ensures Served(pages) == leg.page.items + Served(leg.rest)
    ensures r !in leg.page.items ==>
          leg.rest != [] && Below(r.position, leg.last) && Present(tables, i + 1, |leg.rest|, r)
  {
    ServedOfLeg(leg.page, leg.rest);
    assert r in tables(i);
  }

  lemma {:induction false} LegsServe(tables: Tables, i: nat, after: Option<LogPosition>, pages: seq<Page>, r: Row)
    requires Legs(pages, tables, i, after) && Present(tables, i, |pages|, r)
    requires after.Some? ==> Below(r.position, after.value)
    ensures r in Served(pages)
    decreases |pages|
  {
    var leg :| FirstLeg(leg, pages, tables(i), after) && (leg.rest != [] ==>
        Legs(leg.rest, tables, i + 1, Some(leg.last)));
    PresentOnLeg(tables, i, leg, pages, after, r);
    if r !in leg.page.items {
      LegsServe(tables, i + 1, Some(leg.last), leg.rest, r);
    }
  }

  /** A row the table held at every request of the walk, below where the walk began, is served. */
  lemma PresentIsServed(tables: Tables, i: nat, after: Option<LogPosition>, pageSize: nat, pages: seq<Page>, r: Row)
    requires pageSize > 0 && Readable(tables) && pages == Walk(tables, i, after, pageSize)
    requires Present(tables, i, |pages|, r)
    requires after.Some? ==> Below(r.position, after.value)
    ensures r in Served(pages)
  {
    WalkIsLegs(tables, i, after, pageSize, pages);
    LegsServe(tables, i, after, pages, r);
  }

  ghost predicate ServedOnce(served: seq<Row>, r: Row) {
    exists i :: 0 <= i < |served| && served[i] == r &&
      forall j :: 0 <= j < |served| && served[j].position == r.position ==> j == i
  }

  /**
   * A whole walk, under any inserts and deletes between its pages: no position is served twice,
   * and every row present throughout is served exactly once.
   */
  lemma WalkServesOnce(tables: Tables, pageSize: nat)
    requires pageSize > 0 && Readable(tables)
    ensures
      var pages := Walk(tables, 0, None, pageSize);
      && (forall i, j :: 0 <= i < j < |Served(pages)| ==> Served(pages)[i].position != Served(pages)[j].position)
      && (forall r :: Present(tables, 0, |pages|, r) ==> ServedOnce(Served(pages), r))
  {
    var pages := Walk(tables, 0, None, pageSize);
    ServedFalls(tables, 0, None, pageSize, pages);
    forall r | Present(tables, 0, |pages|, r)
      ensures ServedOnce(Served(pages), r)
    {
      PresentIsServed(tables, 0, None, pageSize, pages, r);
      var i :| 0 <= i < |Served(pages)| && Served(pages)[i] == r;
    }
  }
}
