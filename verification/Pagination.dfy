/** Keyset pagination: pages of a table sorted by (sort value descending, nulls last; id descending). */
module Pagination {
  import opened Wrappers
  import opened Json
  import opened Cursor
  import L = Lexicographic

  // ----- The page helper -----

  const DEFAULT_PAGE_LIMIT := 20
  const MAX_PAGE_LIMIT := 100

  datatype LimitError = NotAPositiveInteger

  /** A `limit` query parameter: missing, or what `Number` makes of it when that is an integer. */
  datatype LimitParameter = Missing | Integer(n: int) | NotAnInteger

  function ParsePageLimit(raw: LimitParameter, fallback: int, max: int): Result<int, LimitError> {
    match raw
    case Missing => Ok(fallback)
    case NotAnInteger => Err(NotAPositiveInteger)
    case Integer(n) => if n < 1 then Err(NotAPositiveInteger) else Ok(if n <= max then n else max)
  }

  datatype Page<T> = Page(items: seq<T>, nextCursor: Option<Text>)

  function BuildPage<T>(rows: seq<T>, limit: nat, cursorOf: T -> KeysetCursor): Page<T> {
    var hasMore := |rows| > limit;
    var items := if hasMore then rows[..limit] else rows;
    Page(items, if hasMore && |items| > 0 then Some(EncodeCursor(cursorOf(items[|items| - 1]))) else None)
  }

  // ----- The query behind it -----

  datatype Row = Row(key: KeysetCursor, payload: string)

  function KeyOf(r: Row): KeysetCursor {
    r.key
  }

  /** `ORDER BY sortValue DESC NULLS LAST, id DESC`. */
  predicate Precedes(a: KeysetCursor, b: KeysetCursor) {
    match (a.sortValue, b.sortValue)
    case (Some(x), Some(y)) => LexLess(y, x) || (x == y && LexLess(b.id, a.id))
    case (Some(_), None) => true
    case (None, Some(_)) => false
    case (None, None) => LexLess(b.id, a.id)
  }

  /** A table in sort order.  Ids are never empty. */
  ghost predicate Table(rows: seq<Row>) {
    && (forall i, j :: 0 <= i < j < |rows| ==> Precedes(rows[i].key, rows[j].key))
    && forall i :: 0 <= i < |rows| ==> rows[i].key.id != []
  }

  /** The rows strictly after `after`, in order; all rows when there is no cursor. */
  function RowsAfter(rows: seq<Row>, after: Option<KeysetCursor>): seq<Row> {
    if rows == [] then []
    else
      (if after.None? || Precedes(after.value, rows[0].key) then [rows[0]] else []) + RowsAfter(rows[1..], after)
  }

  /** `take: limit + 1`. */
  function Fetch(rows: seq<Row>, after: Option<KeysetCursor>, limit: nat): seq<Row> {
    var matching := RowsAfter(rows, after);
    if |matching| <= limit + 1 then matching else matching[..limit + 1]
  }

  /** One request, with the cursor as the client holds it: rejected if the cursor does not decode. */
  function Request(rows: seq<Row>, cursor: Option<Text>, limit: nat): Result<Page<Row>, Error> {
    match cursor
    case None => Ok(BuildPage(Fetch(rows, None, limit), limit, KeyOf))
    case Some(raw) =>
      match DecodeCursor(raw)
      case Err(e) => Err(e)
      case Ok(c) => Ok(BuildPage(Fetch(rows, Some(c), limit), limit, KeyOf))
  }

  /** The outcome of a walk: the rows of its pages, and whether it reached the last page. */
  datatype Walked = Walked(rows: seq<Row>, complete: bool)

  /**
    A walk from a cursor on, `tables[k]` being the table as the k-th request finds it.  The walk follows
    `nextCursor` until there is none, or until the tables run out.
   */
  function Walk(tables: seq<seq<Row>>, cursor: Option<Text>, limit: nat): Walked {
    if tables == [] then Walked([], false)
    else
      match Request(tables[0], cursor, limit)
      case Err(_) => Walked([], false)
      case Ok(page) =>
        if page.nextCursor.None? then Walked(page.items, true)
        else
          var later := Walk(tables[1..], page.nextCursor, limit);
          Walked(page.items + later.rows, later.complete)
  }

  // ----- The sort order -----

  lemma TextOrder(a: Text, b: Text, c: Text)
    ensures !LexLess(a, a)
    ensures LexLess(a, b) || LexLess(b, a) || a == b
    ensures LexLess(a, b) && LexLess(b, c) ==> LexLess(a, c)
  {
    L.Order(CodeUnit, a, b, c);
  }

  function SortText(c: KeysetCursor): Text {
    if c.sortValue.Some? then c.sortValue.value else []
  }

  /** The sort order is a strict total order on keys. */
  lemma PrecedesOrder(a: KeysetCursor, b: KeysetCursor, c: KeysetCursor)
    ensures !Precedes(a, a)
    ensures Precedes(a, b) || Precedes(b, a) || a == b
    ensures Precedes(a, b) && Precedes(b, c) ==> Precedes(a, c)
    ensures !(Precedes(a, b) && Precedes(b, a))
  {
    var x, y, z := SortText(a), SortText(b), SortText(c);
    TextOrder(c.id, b.id, a.id);
    TextOrder(a.id, b.id, a.id);
    TextOrder(z, y, x);
    TextOrder(x, y, x);
  }

  // ----- Requests -----

  lemma {:induction false} RowsAfterMembers(rows: seq<Row>, after: Option<KeysetCursor>, r: Row)
    ensures r in RowsAfter(rows, after) <==> r in rows && (after.None? || Precedes(after.value, r.key))
  {
    if rows != [] {
      RowsAfterMembers(rows[1..], after, r);
      assert rows == [rows[0]] + rows[1..];
    }
  }

  lemma {:induction false} RowsAfterIsTable(rows: seq<Row>, after: Option<KeysetCursor>)
    requires Table(rows)
    ensures Table(RowsAfter(rows, after))
  {
    if rows != [] {
      RowsAfterIsTable(rows[1..], after);
      var rest := RowsAfter(rows[1..], after);
      forall i | 0 <= i < |rest| ensures Precedes(rows[0].key, rest[i].key) {
        RowsAfterMembers(rows[1..], after, rest[i]);
        assert rest[i] in rows[1..];
        var j :| 0 <= j < |rows[1..]| && rows[1..][j] == rest[i];
        assert Precedes(rows[0].key, rows[j + 1].key);
      }
    }
  }

  /** The walk as the server sees it: `after` is the key the cursor stands for. */
  function KeyWalk(tables: seq<seq<Row>>, after: Option<KeysetCursor>, limit: nat): Walked
    requires limit >= 1
  {
    if tables == [] then Walked([], false)
    else
      var matching := RowsAfter(tables[0], after);
      if |matching| <= limit then Walked(matching, true)
      else
        var later := KeyWalk(tables[1..], Some(matching[limit - 1].key), limit);
        Walked(matching[..limit] + later.rows, later.complete)
  }

  function Sent(after: Option<KeysetCursor>): Option<Text> {
    if after.None? then None else Some(EncodeCursor(after.value))
  }

  ghost predicate Decodable(after: Option<KeysetCursor>) {
    after.Some? ==> after.value.id != []
  }

  function PageOf(matching: seq<Row>, limit: nat): Page<Row>
    requires limit >= 1
  {
    if |matching| <= limit then Page(matching, None)
    else Page(matching[..limit], Sent(Some(matching[limit - 1].key)))
  }

  /** One row more than the page tells whether there is more, and changes nothing on the page. */
  lemma OneRowMore<T>(matching: seq<T>, limit: nat)
    requires |matching| > limit
    ensures var fetched := if |matching| <= limit + 1 then matching else matching[..limit + 1];
            |fetched| > limit && fetched[..limit] == matching[..limit]
  {
  }

  lemma FetchedPage(rows: seq<Row>, after: Option<KeysetCursor>, limit: nat)
    requires limit >= 1
    ensures BuildPage(Fetch(rows, after, limit), limit, KeyOf) == PageOf(RowsAfter(rows, after), limit)
  {
    var matching := RowsAfter(rows, after);
    if |matching| > limit {
      OneRowMore(matching, limit);
      FullPage(Fetch(rows, after, limit), limit, matching[limit - 1]);
    }
  }

  lemma FullPage(fetched: seq<Row>, limit: nat, last: Row)
    requires |fetched| > limit >= 1 && fetched[limit - 1] == last
    ensures BuildPage(fetched, limit, KeyOf) == Page(fetched[..limit], Sent(Some(last.key)))
  {
    assert fetched[..limit][limit - 1] == last;
  }

  /** A request finds the first rows past the cursor, and hands out a cursor exactly when it leaves some over. */
  lemma RequestServes(rows: seq<Row>, after: Option<KeysetCursor>, limit: nat)
    requires limit >= 1 && Decodable(after)
    ensures Request(rows, Sent(after), limit) == Ok(PageOf(RowsAfter(rows, after), limit))
  {
    FetchedPage(rows, after, limit);
    if after.Some? {
      CursorRoundTrip(after.value);
      assert DecodeCursor(Sent(after).value) == Ok(after.value);
    }
  }

  ghost predicate AllTables(tables: seq<seq<Row>>) {
    forall k :: 0 <= k < |tables| ==> Table(tables[k])
  }

  /** No request of a walk is refused: every cursor handed out decodes to the key of the page's last row. */
  lemma {:induction false} WalkFollowsKeys(tables: seq<seq<Row>>, after: Option<KeysetCursor>, limit: nat)
    requires AllTables(tables) && limit >= 1 && Decodable(after)
    ensures Walk(tables, Sent(after), limit) == KeyWalk(tables, after, limit)
  {
    if tables != [] {
      var matching := RowsAfter(tables[0], after);
      RequestServes(tables[0], after, limit);
      if |matching| > limit {
        RowsAfterIsTable(tables[0], after);
        WalkFollowsKeys(tables[1..], Some(matching[limit - 1].key), limit);
      }
    }
  }

  // ----- An unchanging table -----

  /** Past the last row of a page lie exactly the rows that the page left over. */
  lemma {:induction false} RowsAfterPrefix(rows: seq<Row>, k: nat)
    requires Table(rows) && 0 < k <= |rows|
    ensures RowsAfter(rows, Some(rows[k - 1].key)) == rows[k..]
    decreases k
  {
    var after := Some(rows[k - 1].key);
    PrecedesOrder(rows[0].key, rows[k - 1].key, rows[0].key);
    if k == 1 {
      AllAfter(rows[1..], rows[0].key);
    } else {
      RowsAfterPrefix(rows[1..], k - 1);
      assert Precedes(rows[0].key, rows[k - 1].key);
      assert rows[1..][k - 2] == rows[k - 1] && rows[1..][k - 1..] == rows[k..];
    }
  }

  lemma {:induction false} AllAfter(rows: seq<Row>, key: KeysetCursor)
    requires forall i :: 0 <= i < |rows| ==> Precedes(key, rows[i].key)
    ensures RowsAfter(rows, Some(key)) == rows
  {
    if rows != [] {
      AllAfter(rows[1..], key);
      assert rows == [rows[0]] + rows[1..];
    }
  }

  lemma {:induction false} NoCursorTakesAll(rows: seq<Row>)
    ensures RowsAfter(rows, None) == rows
  {
    if rows != [] {
      NoCursorTakesAll(rows[1..]);
      assert rows == [rows[0]] + rows[1..];
    }
  }

  /** The tables of `requests` requests between which nothing changes. */
  function Unchanging(rows: seq<Row>, requests: nat): (tables: seq<seq<Row>>)
    ensures |tables| == requests && forall k :: 0 <= k < requests ==> tables[k] == rows
  {
    if requests == 0 then [] else [rows] + Unchanging(rows, requests - 1)
  }

  function KeyBefore(rows: seq<Row>, k: nat): Option<KeysetCursor>
    requires k <= |rows|
  {
    if k == 0 then None else Some(rows[k - 1].key)
  }

  lemma RestAfter(rows: seq<Row>, k: nat)
    requires Table(rows) && k <= |rows|
    ensures RowsAfter(rows, KeyBefore(rows, k)) == rows[k..]
  {
    if k == 0 {
      NoCursorTakesAll(rows);
    } else {
      RowsAfterPrefix(rows, k);
    }
  }

  lemma WalkOn(rows: seq<Row>, limit: nat, k: nat, requests: nat)
    requires Table(rows) && limit >= 1 && k + limit < |rows| && requests >= 1
    ensures var later := KeyWalk(Unchanging(rows, requests - 1), KeyBefore(rows, k + limit), limit);
            KeyWalk(Unchanging(rows, requests), KeyBefore(rows, k), limit)
            == Walked(rows[k..k + limit] + later.rows, later.complete)
  {
    RestAfter(rows, k);
    assert Unchanging(rows, requests)[1..] == Unchanging(rows, requests - 1);
    assert rows[k..][limit - 1] == rows[k + limit - 1] && rows[k..][..limit] == rows[k..k + limit];
  }

  /** Walking an unchanging table from the key of row `k - 1` on: exactly the rest, given enough requests. */
  lemma {:induction false} WalkFrom(rows: seq<Row>, limit: nat, k: nat, requests: nat)
    requires Table(rows) && limit >= 1 && k <= |rows|
    requires requests >= 1 && requests * limit >= |rows| - k
    ensures KeyWalk(Unchanging(rows, requests), KeyBefore(rows, k), limit) == Walked(rows[k..], true)
    decreases requests
  {
    if |rows| - k > limit {
      OneRequestLess(requests, limit, |rows| - k);
      WalkFrom(rows, limit, k + limit, requests - 1);
      WalkOn(rows, limit, k, requests);
      assert rows[k..k + limit] + rows[k + limit..] == rows[k..];
    } else {
      RestAfter(rows, k);
    }
  }

  lemma OneRequestLess(requests: nat, limit: nat, left: nat)
    requires requests * limit >= left > limit
    ensures requests >= 2 && (requests - 1) * limit >= left - limit
  {
    assert (requests - 1) * limit == requests * limit - limit;
  }

  /**
    The page walk of an unchanging table terminates, after at most as many requests as its size over the
    limit rounded up (and one when it is empty), and returns the whole table in order, every row exactly once.
   */
  lemma WalkReturnsTheTable(rows: seq<Row>, limit: nat, requests: nat)
    requires Table(rows) && limit >= 1 && requests >= 1 && requests * limit >= |rows|
    ensures Walk(Unchanging(rows, requests), None, limit) == Walked(rows, true)
  {
    WalkFrom(rows, limit, 0, requests);
    WalkFollowsKeys(Unchanging(rows, requests), None, limit);
    assert rows[0..] == rows;
  }

  /** With a limit of zero a walk ends at once with nothing, whatever the table holds. */
  lemma ZeroLimitReturnsNothing(tables: seq<seq<Row>>)
    requires tables != []
    ensures Walk(tables, None, 0) == Walked([], true)
  {
    var fetched := Fetch(tables[0], None, 0);
    assert fetched == [] || fetched[..0] == [];
  }

  // ----- A table that changes between requests -----

  ghost predicate AllPast(rows: seq<Row>, after: Option<KeysetCursor>) {
    after.Some? ==> forall i :: 0 <= i < |rows| ==> Precedes(after.value, rows[i].key)
  }

  lemma MatchingIsPast(rows: seq<Row>, after: Option<KeysetCursor>)
    ensures AllPast(RowsAfter(rows, after), after)
  {
    var matching := RowsAfter(rows, after);
    forall i | after.Some? && 0 <= i < |matching| ensures Precedes(after.value, matching[i].key) {
      RowsAfterMembers(rows, after, matching[i]);
    }
  }

  lemma PastIsTransitive(rows: seq<Row>, a: Option<KeysetCursor>, b: KeysetCursor)
    requires AllPast(rows, Some(b)) && (a.Some? ==> Precedes(a.value, b))
    ensures AllPast(rows, a)
  {
    forall i | a.Some? && 0 <= i < |rows| ensures Precedes(a.value, rows[i].key) {
      PrecedesOrder(a.value, b, rows[i].key);
    }
  }

  /** A page followed by rows past its last key is a table. */
  lemma PageThenLater(page: seq<Row>, later: seq<Row>)
    requires Table(page) && Table(later) && page != [] && AllPast(later, Some(page[|page| - 1].key))
    ensures Table(page + later)
  {
    forall i, j | 0 <= i < j < |page + later| ensures Precedes((page + later)[i].key, (page + later)[j].key) {
      if i < |page| <= j {
        PrecedesOrder(page[i].key, page[|page| - 1].key, later[j - |page|].key);
      }
    }
  }

  /** Everything a walk returns is past its cursor and in sort order. */
  lemma {:induction false} WalkAdvances(tables: seq<seq<Row>>, after: Option<KeysetCursor>, limit: nat)
    requires AllTables(tables) && limit >= 1
    ensures Table(KeyWalk(tables, after, limit).rows) && AllPast(KeyWalk(tables, after, limit).rows, after)
  {
    if tables != [] {
      var matching := RowsAfter(tables[0], after);
      MatchingIsPast(tables[0], after);
      RowsAfterIsTable(tables[0], after);
      if |matching| > limit {
        var page, last := matching[..limit], matching[limit - 1].key;
        WalkAdvances(tables[1..], Some(last), limit);
        var later := KeyWalk(tables[1..], Some(last), limit).rows;
        assert page[|page| - 1].key == last;
        PageThenLater(page, later);
        PastIsTransitive(later, after, last);
      }
    }
  }

  /** Whatever is inserted or deleted between requests, no row key is ever returned twice. */
  lemma NoRowRepeats(tables: seq<seq<Row>>, limit: nat)
    requires AllTables(tables) && limit >= 1
    ensures var walked := Walk(tables, None, limit).rows;
            forall i, j :: 0 <= i < j < |walked| ==> walked[i].key != walked[j].key
  {
    WalkFollowsKeys(tables, None, limit);
    WalkAdvances(tables, None, limit);
    var walked := KeyWalk(tables, None, limit).rows;
    forall i, j | 0 <= i < j < |walked| ensures walked[i].key != walked[j].key {
      PrecedesOrder(walked[i].key, walked[j].key, walked[i].key);
    }
  }

  /** A row with this key, whatever its payload. */
  ghost predicate HoldsKey(rows: seq<Row>, key: KeysetCursor) {
    exists i :: 0 <= i < |rows| && rows[i].key == key
  }

  lemma {:induction false} WalkMisses(
      tables: seq<seq<Row>>, after: Option<KeysetCursor>, limit: nat, key: KeysetCursor)
    requires AllTables(tables) && limit >= 1
    requires forall k :: 0 <= k < |tables| ==> HoldsKey(tables[k], key)
    requires after.None? || Precedes(after.value, key)
    ensures KeyWalk(tables, after, limit).complete ==> HoldsKey(KeyWalk(tables, after, limit).rows, key)
  {
    if tables != [] {
      var matching := RowsAfter(tables[0], after);
      RowsAfterIsTable(tables[0], after);
      var table := tables[0];
      var j :| 0 <= j < |table| && table[j].key == key;
      RowsAfterMembers(tables[0], after, tables[0][j]);
      var i :| 0 <= i < |matching| && matching[i] == tables[0][j];
      if |matching| > limit {
        var page: seq<Row> := matching[..limit];
        var last := matching[limit - 1].key;
        var later := KeyWalk(tables[1..], Some(last), limit).rows;
        if i < limit {
          FoundAt(page, later, i);
        } else {
          assert Precedes(last, key);
          WalkMisses(tables[1..], Some(last), limit, key);
          FoundLater(page, later, key);
        }
      }
    }
  }

  lemma FoundAt(page: seq<Row>, later: seq<Row>, i: nat)
    requires i < |page|
    ensures HoldsKey(page + later, page[i].key)
  {
    assert (page + later)[i] == page[i];
  }

  lemma FoundLater(page: seq<Row>, later: seq<Row>, key: KeysetCursor)
    ensures HoldsKey(later, key) ==> HoldsKey(page + later, key)
  {
    if HoldsKey(later, key) {
      var i :| 0 <= i < |later| && later[i].key == key;
      assert (page + later)[|page| + i] == later[i];
    }
  }

  /**
    A walk that reaches its last page has returned every row that was there, under one key, at all of its
    requests, however often the rest of the row was edited in between.
   */
  lemma NoLastingRowIsMissed(tables: seq<seq<Row>>, limit: nat, key: KeysetCursor)
    requires AllTables(tables) && limit >= 1
    requires forall k :: 0 <= k < |tables| ==> HoldsKey(tables[k], key)
    ensures Walk(tables, None, limit).complete ==> HoldsKey(Walk(tables, None, limit).rows, key)
  {
    WalkFollowsKeys(tables, None, limit);
    WalkMisses(tables, None, limit, key);
  }

  lemma {:induction false} WalkInvents(tables: seq<seq<Row>>, after: Option<KeysetCursor>, limit: nat, r: Row)
    requires limit >= 1 && r in KeyWalk(tables, after, limit).rows
    ensures exists k :: 0 <= k < |tables| && r in tables[k]
  {
    var matching := RowsAfter(tables[0], after);
    if r in matching {
      RowsAfterMembers(tables[0], after, r);
    } else {
      assert r !in matching[..limit];
      WalkInvents(tables[1..], Some(matching[limit - 1].key), limit, r);
      var k :| 0 <= k < |tables[1..]| && r in tables[1..][k];
      assert r in tables[k + 1];
    }
  }

  /** Nothing is made up: a returned row was in the table at one of the requests. */
  lemma ReturnedRowsWereThere(tables: seq<seq<Row>>, limit: nat, r: Row)
    requires AllTables(tables) && limit >= 1 && r in Walk(tables, None, limit).rows
    ensures exists k :: 0 <= k < |tables| && r in tables[k]
  {
    WalkFollowsKeys(tables, None, limit);
    WalkInvents(tables, None, limit, r);
  }

  /** A missing limit means twenty; a positive one is kept up to a hundred; anything else is refused. */
  lemma LimitsAreKeptUpToAHundred(raw: LimitParameter)
    ensures var r := ParsePageLimit(raw, DEFAULT_PAGE_LIMIT, MAX_PAGE_LIMIT);
            && (raw.Missing? ==> r == Ok(20))
            && (raw.Integer? && 1 <= raw.n <= 100 ==> r == Ok(raw.n))
            && (raw.Integer? && raw.n > 100 ==> r == Ok(100))
            && (raw.NotAnInteger? || (raw.Integer? && raw.n < 1) ==> r.Err?)
  {
  }

  /** Whenever the limit parameter is accepted, with the default bounds, a walk can make progress. */
  lemma AcceptedLimitsArePositive(raw: LimitParameter)
    ensures ParsePageLimit(raw, DEFAULT_PAGE_LIMIT, MAX_PAGE_LIMIT).Ok? <==> raw.Missing? || (raw.Integer? && raw.n >= 1)
    ensures ParsePageLimit(raw, DEFAULT_PAGE_LIMIT, MAX_PAGE_LIMIT).Ok? ==>
      1 <= ParsePageLimit(raw, DEFAULT_PAGE_LIMIT, MAX_PAGE_LIMIT).value <= MAX_PAGE_LIMIT
  {
  }
}
