/**
 Keyset pagination of a session's classifications
 (repositories/dialog_classification_repository.py).
 */
module Pagination {
  import opened Wrappers
  import opened Cursor
  import opened Sorting
  import Decimal

  const SORTABLE: map<string, Column> := map["sequence_number" := SequenceNumber, "created_at" := CreatedAt]
  const MAX_PAGE: nat := 500

  /** How timestamps are written into a cursor and read back (`isoformat`, `fromisoformat`). */
  datatype Iso = Iso(format: int -> string, parse: string -> Option<int>) {
    ghost predicate Inverse() {
      forall t :: parse(format(t)) == Some(t)
    }
  }

  datatype Query = Query(organization: nat, session: nat, sort: Option<SortSpec>, limit: nat) {
    /** The requested sort, or the endpoint's default. */
    function Sort(): (string, string) {
      (if sort.Some? then sort.value else SortSpec(None, "asc")).Effective("sequence_number", "asc")
    }

    predicate SortIsValid() {
      Sort().0 in SORTABLE && IsDirection(Sort().1)
    }

    function Clauses(): seq<Clause>
      requires SortIsValid()
    {
      [Clause(SORTABLE[Sort().0], Sort().1 == "asc"), Clause(Id, true)]
    }

    function PageSize(): nat {
      if limit < MAX_PAGE then limit else MAX_PAGE
    }
  }

  predicate Matches(q: Query, row: Row) {
    row.session == q.session && row.organization == q.organization && !row.deleted && !row.archived
  }

  datatype Page = Page(rows: seq<Row>, next: Option<string>)

  datatype Position = Position(value: int, id: Uuid)

  function Format(iso: Iso, column: Column, value: int): string {
    if column == SequenceNumber then Decimal.Text(value) else iso.format(value)
  }

  function Parse(iso: Iso, column: Column, text: string): Option<int> {
    if column == SequenceNumber then Decimal.Parse(text) else iso.parse(text)
  }

  /** The position that the request's cursor stands for. */
  function Resume(iso: Iso, key: string, dir: string, cursor: Option<string>): Result<Option<Position>, Error>
    requires key in SORTABLE
  {
    if cursor.None? then Success(None)
    else
      match DecodePageCursor(cursor.value)
      case Failure(e) => Failure(e)
      case Success(c) =>
        if c.sortBy != key || c.sortDir != dir then Failure(SortMismatch)
        else
          match Parse(iso, SORTABLE[key], c.value)
          case None => Failure(InvalidCursor)
          case Some(value) => Success(Some(Position(value, c.id)))
  }

  /** The keyset predicate of the query. */
  predicate After(column: Column, ascending: bool, from: Position, row: Row) {
    var value := KeyOf(row, column);
    (if ascending then value > from.value else value < from.value) || (value == from.value && row.id > from.id)
  }

  function CursorAt(iso: Iso, key: string, dir: string, row: Row): string
    requires key in SORTABLE
  {
    EncodeCursor(PagePayload(PageCursor(key, dir, Format(iso, SORTABLE[key], KeyOf(row, SORTABLE[key])), row.id)))
  }

  /** One row more than the page is fetched, to see whether there is a next page. */
  function CutPage(iso: Iso, key: string, dir: string, size: nat, listing: seq<Row>): Page
    requires key in SORTABLE
  {
    var pairs := if |listing| < size + 1 then listing else listing[..size + 1];
    var hasMore := |pairs| == size + 1;
    var page := if hasMore then pairs[..size] else pairs;
    Page(page, if hasMore && page != [] then Some(CursorAt(iso, key, dir, page[|page| - 1])) else None)
  }

  /** The WHERE clause. */
  ghost function Filter(table: set<Row>, q: Query, column: Column, ascending: bool, from: Option<Position>): set<Row> {
    set r | r in table && Matches(q, r) && (from.Some? ==> After(column, ascending, from.value, r))
  }

  ghost function GetBySession(iso: Iso, table: set<Row>, q: Query, cursor: Option<string>): Result<Page, Error> {
    var (key, dir) := q.Sort();
    if key !in SORTABLE || !IsDirection(dir) then Failure(InvalidSort)
    else
      match Resume(iso, key, dir, cursor)
      case Failure(e) => Failure(e)
      case Success(from) =>
        var rows := Filter(table, q, SORTABLE[key], dir == "asc", from);
        match ResolveOrderBy(SORTABLE, Some(key), dir, "sequence_number", "asc")
        case Failure(e) => Failure(e)
        case Success(clauses) => Success(CutPage(iso, key, dir, q.PageSize(), SortRows(clauses, rows)))
  }

  /** A classification exists once per organization and episode. */
  ghost predicate UniqueIds(table: set<Row>) {
    forall a, b :: a in table && b in table && a.organization == b.organization && a.id == b.id ==> a == b
  }

  lemma PositionRoundTrip(iso: Iso, q: Query, row: Row)
    requires iso.Inverse() && q.SortIsValid()
    ensures var (key, dir) := q.Sort();
            Resume(iso, key, dir, Some(CursorAt(iso, key, dir, row)))
              == Success(Some(Position(KeyOf(row, SORTABLE[key]), row.id)))
  {
    hide EncodeCursor, DecodePageCursor, PagePayload, Decimal.Text, Decimal.Parse;
    var (key, dir) := q.Sort();
    var value := KeyOf(row, SORTABLE[key]);
    PageCursorRoundTrip(PageCursor(key, dir, Format(iso, SORTABLE[key], value), row.id));
    Decimal.RoundTrip(value);
  }

  /** The keyset predicate is the listing's order, for both columns and both directions. */
  lemma ResumeFollowsOrder(q: Query, from: Row, row: Row)
    requires q.SortIsValid()
    ensures var column := SORTABLE[q.Sort().0];
            After(column, q.Sort().1 == "asc", Position(KeyOf(from, column), from.id), row) <==>
              Less(q.Clauses(), from, row)
  {
    assert Less(q.Clauses()[1..], from, row) <==> from.id < row.id;
  }

  /** A cursor handed out for one sort is accepted by a request exactly if the request has the same sort. */
  lemma CursorIsBoundToItsSort(iso: Iso, table: set<Row>, minted: Query, q: Query, row: Row)
    requires iso.Inverse() && minted.SortIsValid() && q.SortIsValid()
    ensures var r := GetBySession(iso, table, q, Some(CursorAt(iso, minted.Sort().0, minted.Sort().1, row)));
            if q.Sort() == minted.Sort() then r.Success? else r == Failure(SortMismatch)
  {
    hide EncodeCursor, DecodePageCursor, PagePayload, Decimal.Text, Decimal.Parse, CutPage, SortRows;
    var (key, dir) := minted.Sort();
    PageCursorRoundTrip(PageCursor(key, dir, Format(iso, SORTABLE[key], KeyOf(row, SORTABLE[key])), row.id));
    PositionRoundTrip(iso, minted, row);
  }

  /** The rows a walk has still to list when it stands at `from`. */
  ghost function Remaining(table: set<Row>, q: Query, from: Option<Row>): set<Row>
    requires q.SortIsValid()
  {
    set r | r in table && r.session == q.session && r.organization == q.organization && !r.deleted && !r.archived &&
            (from.Some? ==> Less(q.Clauses(), from.value, r))
  }

  ghost function Listing(table: set<Row>, q: Query, from: Option<Row>): seq<Row>
    requires q.SortIsValid()
  {
    SortRows(q.Clauses(), Remaining(table, q, from))
  }

  function Standing(iso: Iso, q: Query, from: Option<Row>): Option<string>
    requires q.SortIsValid()
  {
    if from.None? then None else Some(CursorAt(iso, q.Sort().0, q.Sort().1, from.value))
  }

  lemma ClausesResolve(q: Query)
    requires q.SortIsValid()
    ensures ResolveOrderBy(SORTABLE, Some(q.Sort().0), q.Sort().1, "sequence_number", "asc") == Success(q.Clauses())
    ensures OrdersAllIds(q.Clauses())
  {
    ResolvedOrderIsTotal(SORTABLE, Some(q.Sort().0), q.Sort().1, "sequence_number", "asc");
  }

  lemma FilterIsRemaining(iso: Iso, table: set<Row>, q: Query, from: Option<Row>)
    requires iso.Inverse() && q.SortIsValid()
    ensures var (key, dir) := q.Sort();
            var r := Resume(iso, key, dir, Standing(iso, q, from));
            r.Success? && Filter(table, q, SORTABLE[key], dir == "asc", r.value) == Remaining(table, q, from)
  {
    if from.Some? {
      hide Resume, After, CursorAt, Less;
      PositionRoundTrip(iso, q, from.value);
      forall r: Row {
        ResumeFollowsOrder(q, from.value, r);
      }
    }
  }

  /** What a page holds: the first rows of what is left, and a cursor at its last row if more is left. */
  lemma PageIsPrefix(iso: Iso, table: set<Row>, q: Query, from: Option<Row>)
    requires iso.Inverse() && q.SortIsValid() && UniqueIds(table)
    ensures var listing, size := Listing(table, q, from), if q.limit < 500 then q.limit else 500;
            Lists(q.Clauses(), Remaining(table, q, from), listing) &&
            GetBySession(iso, table, q, Standing(iso, q, from)) == Success(
              if |listing| <= size then Page(listing, None)
              else Page(listing[..size], if q.limit == 0 then None else Standing(iso, q, Some(listing[size - 1]))))
  {
    hide Resume, After, CursorAt, Less, ResolveOrderBy, SortRows;
    ClausesResolve(q);
    SortLists(q.Clauses(), Remaining(table, q, from));
    FilterIsRemaining(iso, table, q, from);
    var listing, size := Listing(table, q, from), q.PageSize();
    if size < |listing| {
      assert listing[..size + 1][..size] == listing[..size];
    }
  }


  datatype Tour = Tour(rows: seq<Row>, finished: bool)

  /** Follow next_cursor: page `k` is read from `tables[k]`, since the table may change between pages. */
  ghost function Walk(iso: Iso, tables: seq<set<Row>>, q: Query, cursor: Option<string>): Result<Tour, Error> {
    if tables == [] then Success(Tour([], false))
    else
      match GetBySession(iso, tables[0], q, cursor)
      case Failure(e) => Failure(e)
      case Success(page) =>
        if page.next.None? then Success(Tour(page.rows, true))
        else
          match Walk(iso, tables[1..], q, page.next)
          case Failure(e) => Failure(e)
          case Success(tour) => Success(Tour(page.rows + tour.rows, tour.finished))
  }

  ghost predicate Walkable(iso: Iso, tables: seq<set<Row>>, q: Query) {
    iso.Inverse() && q.SortIsValid() && forall t :: t in tables ==> UniqueIds(t)
  }

  /** The pages of a walk that stands at `from`. */
  ghost function WalkFrom(iso: Iso, tables: seq<set<Row>>, q: Query, from: Option<Row>): Result<Tour, Error>
    requires q.SortIsValid()
  {
    Walk(iso, tables, q, Standing(iso, q, from))
  }

  /** The cursors that a walk follows are its own, so they are never refused. */
  lemma {:induction false} WalkSucceeds(iso: Iso, tables: seq<set<Row>>, q: Query, from: Option<Row>)
    requires Walkable(iso, tables, q)
    ensures WalkFrom(iso, tables, q, from).Success?
    decreases |tables|
  {
    if tables != [] {
      hide GetBySession, Lists, Remaining, CursorAt;
      PageIsPrefix(iso, tables[0], q, from);
      var listing, size := Listing(tables[0], q, from), q.PageSize();
      if 0 < size < |listing| {
        WalkSucceeds(iso, tables[1..], q, Some(listing[size - 1]));
      }
    }
  }

  /** One step of a walk: its first page, and the walk that stands at the end of that page. */
  lemma WalkUnfolds(iso: Iso, tables: seq<set<Row>>, q: Query, from: Option<Row>)
    requires Walkable(iso, tables, q) && tables != []
    ensures var listing, size := Listing(tables[0], q, from), q.PageSize();
            Lists(q.Clauses(), Remaining(tables[0], q, from), listing) &&
            if |listing| <= size then WalkFrom(iso, tables, q, from) == Success(Tour(listing, true))
            else if size == 0 then WalkFrom(iso, tables, q, from) == Success(Tour([], true))
            else
              var rest := WalkFrom(iso, tables[1..], q, Some(listing[size - 1]));
              rest.Success? &&
              WalkFrom(iso, tables, q, from) == Success(Tour(listing[..size] + rest.value.rows, rest.value.finished))
  {
    hide GetBySession, Lists, Remaining, CursorAt;
    PageIsPrefix(iso, tables[0], q, from);
    var listing, size := Listing(tables[0], q, from), q.PageSize();
    if 0 < size < |listing| {
      WalkSucceeds(iso, tables[1..], q, Some(listing[size - 1]));
    }
  }

  lemma EmptyWalk(iso: Iso, q: Query, from: Option<Row>)
    requires q.SortIsValid()
    ensures WalkFrom(iso, [], q, from) == Success(Tour([], false))
  {
  }

  /** Every row of a walk comes after the row it stands at. */
  lemma {:induction false} WalkGoesForward(iso: Iso, tables: seq<set<Row>>, q: Query, from: Row, row: Row)
    requires Walkable(iso, tables, q)
    requires var w := WalkFrom(iso, tables, q, Some(from)); w.Success? && row in w.value.rows
    ensures Less(q.Clauses(), from, row)
    decreases |tables|
  {
    hide Less, Walk, WalkFrom;
    if tables == [] {
      EmptyWalk(iso, q, Some(from));
    } else {
      WalkUnfolds(iso, tables, q, Some(from));
      var listing, size := Listing(tables[0], q, Some(from)), q.PageSize();
      assert forall x :: x in listing ==> x in Remaining(tables[0], q, Some(from));
      if row !in listing {
        var last := listing[size - 1];
        WalkGoesForward(iso, tables[1..], q, last, row);
        assert last in listing;
        LessIsStrictOrder(q.Clauses(), from, last, row);
      }
    }
  }

  lemma JoinIsSorted(clauses: seq<Clause>, before: seq<Row>, last: Row, rest: seq<Row>)
    requires StrictlySorted(clauses, before + [last]) && StrictlySorted(clauses, rest)
    requires forall y :: y in rest ==> Less(clauses, last, y)
    ensures StrictlySorted(clauses, before + [last] + rest)
  {
    forall x, y | x in before && y in rest ensures Less(clauses, x, y) {
      var i :| 0 <= i < |before| && before[i] == x;
      var all := before + [last];
      assert all[i] == x && all[|before|] == last;
      assert Less(clauses, x, last) && Less(clauses, last, y);
      LessIsStrictOrder(clauses, x, last, y);
    }
  }

  /** Rows come in strictly increasing (key, id) order, whatever happens to the table between pages. */
  lemma {:induction false} WalkIsSorted(iso: Iso, tables: seq<set<Row>>, q: Query, from: Option<Row>)
    requires Walkable(iso, tables, q)
    ensures WalkFrom(iso, tables, q, from).Success?
    ensures StrictlySorted(q.Clauses(), WalkFrom(iso, tables, q, from).value.rows)
    decreases |tables|
  {
    hide Less, Walk, WalkFrom;
    if tables == [] {
      EmptyWalk(iso, q, from);
    } else {
      WalkUnfolds(iso, tables, q, from);
      var listing, size := Listing(tables[0], q, from), q.PageSize();
      if 0 < size < |listing| {
        var last := listing[size - 1];
        WalkIsSorted(iso, tables[1..], q, Some(last));
        var rest := WalkFrom(iso, tables[1..], q, Some(last)).value.rows;
        forall y | y in rest ensures Less(q.Clauses(), last, y) {
          WalkGoesForward(iso, tables[1..], q, last, y);
        }
        assert listing[..size] == listing[..size - 1] + [last];
        JoinIsSorted(q.Clauses(), listing[..size - 1], last, rest);
      }
    }
  }

  /** Every listed row belongs to the session and tenant asked for, and was in one of the tables read. */
  lemma {:induction false} WalkIsSound(iso: Iso, tables: seq<set<Row>>, q: Query, from: Option<Row>, row: Row)
    requires Walkable(iso, tables, q)
    requires WalkFrom(iso, tables, q, from).Success? && row in WalkFrom(iso, tables, q, from).value.rows
    ensures row.session == q.session && row.organization == q.organization && !row.deleted && !row.archived
    ensures exists k :: 0 <= k < |tables| && row in tables[k]
    decreases |tables|
  {
    hide Less, Walk, WalkFrom;
    if tables == [] {
      EmptyWalk(iso, q, from);
    } else {
      WalkUnfolds(iso, tables, q, from);
      var listing, size := Listing(tables[0], q, from), q.PageSize();
      assert forall x :: x in listing ==> x in Remaining(tables[0], q, from);
      if row in listing {
        assert row in tables[0];
      } else {
        WalkIsSound(iso, tables[1..], q, Some(listing[size - 1]), row);
        var k :| 0 <= k < |tables[1..]| && row in tables[1..][k];
        assert row in tables[k + 1];
      }
    }
  }

  /** A walk that ends has listed every row that was there, and after `from`, at each of its pages. */
  lemma {:induction false} WalkIsComplete(iso: Iso, tables: seq<set<Row>>, q: Query, from: Option<Row>, row: Row)
    requires Walkable(iso, tables, q) && q.limit >= 1
    requires row.session == q.session && row.organization == q.organization && !row.deleted && !row.archived
    requires from.Some? ==> Less(q.Clauses(), from.value, row)
    requires forall t :: t in tables ==> row in t
    ensures var w := WalkFrom(iso, tables, q, from);
            w.Success? && (w.value.finished ==> row in w.value.rows)
    decreases |tables|
  {
    hide Less, Walk, WalkFrom;
    if tables != [] {
      WalkUnfolds(iso, tables, q, from);
      var listing, size := Listing(tables[0], q, from), q.PageSize();
      assert row in Remaining(tables[0], q, from) && row in listing;
      if size < |listing| && row !in listing[..size] {
        var last := listing[size - 1];
        assert exists i :: 0 <= i < |listing| && listing[i] == row;
        assert Less(q.Clauses(), last, row);
        WalkIsComplete(iso, tables[1..], q, Some(last), row);
      }
    } else {
      EmptyWalk(iso, q, from);
    }
  }

  /** The request names no column, or one of the two and a direction. */
  predicate NamesSort(q: Query) {
    q.sort.None? || q.sort.value.sortBy.None? ||
    ((q.sort.value.sortBy.value == "sequence_number" || q.sort.value.sortBy.value == "created_at") &&
     (q.sort.value.sortDir == "asc" || q.sort.value.sortDir == "desc"))
  }

  /** Exactly such a request is served; any other is refused, whatever its cursor. */
  lemma NamedSortsAreServed(iso: Iso, table: set<Row>, q: Query, cursor: Option<string>)
    ensures NamesSort(q) <==> q.SortIsValid()
    ensures GetBySession(iso, table, q, cursor) == Failure(InvalidSort) <==> !NamesSort(q)
  {
    hide CutPage, SortRows, DecodePageCursor;
    DecodeIsNoSortError(iso, q, cursor);
  }

  lemma DecodeIsNoSortError(iso: Iso, q: Query, cursor: Option<string>)
    requires q.SortIsValid() ==> q.Sort().0 in SORTABLE
    ensures q.SortIsValid() ==> Resume(iso, q.Sort().0, q.Sort().1, cursor) != Failure(InvalidSort)
    ensures q.SortIsValid() ==>
              ResolveOrderBy(SORTABLE, Some(q.Sort().0), q.Sort().1, "sequence_number", "asc").Success?
  {
    hide Parse, DecodeCursor, ParseUuid, Partition, RPartition;
  }

  /**
   Where a row comes in the requested direction: by the column that is named, the sequence number if none is, upwards
   unless "desc" is asked for with a column, and then by id.
   */
  predicate InRequestedOrder(q: Query, a: Row, b: Row) {
    var named := q.sort.Some? && q.sort.value.sortBy.Some?;
    var byCreation := named && q.sort.value.sortBy.value == "created_at";
    var x, y := if byCreation then a.createdAt else a.sequenceNumber, if byCreation then b.createdAt else b.sequenceNumber;
    (if named && q.sort.value.sortDir == "desc" then y < x else x < y) || (x == y && a.id < b.id)
  }

  ghost predicate StableKeys(tables: seq<set<Row>>) {
    forall i, j, a, b :: 0 <= i < |tables| && 0 <= j < |tables| && a in tables[i] && b in tables[j] ==>
      (a.organization == b.organization && a.id == b.id ==>
         a.sequenceNumber == b.sequenceNumber && a.createdAt == b.createdAt)
  }

  /**
   A walk from the first page, over a table in which rows come and go between pages: its rows are in the
   requested order; if keys never change no id comes twice; and once it ends it has every row present throughout.
   */
  lemma WalkEnumerates(iso: Iso, tables: seq<set<Row>>, q: Query)
    requires Walkable(iso, tables, q)
    ensures var w := Walk(iso, tables, q, None);
            w.Success? &&
            (forall i, j :: 0 <= i < j < |w.value.rows| ==> InRequestedOrder(q, w.value.rows[i], w.value.rows[j])) &&
            (forall x :: x in w.value.rows ==>
               x.session == q.session && x.organization == q.organization && !x.deleted && !x.archived &&
               exists k :: 0 <= k < |tables| && x in tables[k]) &&
            (StableKeys(tables) ==>
               forall i, j :: 0 <= i < j < |w.value.rows| ==> w.value.rows[i].id != w.value.rows[j].id) &&
            (q.limit >= 1 && w.value.finished ==>
               forall x: Row ::
                 (x.session == q.session && x.organization == q.organization && !x.deleted && !x.archived &&
                  forall t :: t in tables ==> x in t) ==> x in w.value.rows)
  {
    hide Less, Walk;
    WalkIsSorted(iso, tables, q, None);
    assert WalkFrom(iso, tables, q, None) == Walk(iso, tables, q, None);
    var w := Walk(iso, tables, q, None).value;
    forall x | x in w.rows
      ensures x.session == q.session && x.organization == q.organization && !x.deleted && !x.archived
      ensures exists k :: 0 <= k < |tables| && x in tables[k]
    {
      WalkIsSound(iso, tables, q, None, x);
    }
    forall i, j | 0 <= i < j < |w.rows|
      ensures InRequestedOrder(q, w.rows[i], w.rows[j])
      ensures StableKeys(tables) ==> w.rows[i].id != w.rows[j].id
    {
      LessIsRequestedOrder(q, w.rows[i], w.rows[j]);
      assert w.rows[i] in w.rows && w.rows[j] in w.rows;
    }
    if q.limit >= 1 && w.finished {
      forall x: Row | x.session == q.session && x.organization == q.organization && !x.deleted && !x.archived &&
                 (forall t :: t in tables ==> x in t)
        ensures x in w.rows
      {
        WalkIsComplete(iso, tables, q, None, x);
      }
    }
  }

  lemma LessIsRequestedOrder(q: Query, a: Row, b: Row)
    requires q.SortIsValid()
    ensures Less(q.Clauses(), a, b) <==> InRequestedOrder(q, a, b)
  {
    assert Less(q.Clauses()[1..], a, b) <==> a.id < b.id;
  }

  /** What is left after the `n`th row of a listing is the rest of the listing. */
  lemma RestOfListing(table: set<Row>, q: Query, from: Option<Row>, n: nat)
    requires q.SortIsValid() && UniqueIds(table)
    requires 0 < n <= |Listing(table, q, from)|
    ensures Listing(table, q, Some(Listing(table, q, from)[n - 1])) == Listing(table, q, from)[n..]
  {
    hide Less, SortRows;
    ClausesResolve(q);
    var clauses, listing := q.Clauses(), Listing(table, q, from);
    var last := listing[n - 1];
    SortLists(clauses, Remaining(table, q, from));
    SortLists(clauses, Remaining(table, q, Some(last)));
    forall x ensures x in listing[n..] <==> x in Remaining(table, q, Some(last)) {
      if x in listing[n..] {
        var i :| n <= i < |listing| && listing[i] == x;
        assert Less(clauses, last, x) && x in listing;
      }
      if x in Remaining(table, q, Some(last)) {
        assert last in listing;
        if from.Some? {
          LessIsStrictOrder(clauses, from.value, last, x);
        }
        assert x in listing;
        var i :| 0 <= i < |listing| && listing[i] == x;
        LessIsStrictOrder(clauses, last, x, x);
        assert i >= n;
        assert listing[n..][i - n] == x;
      }
    }
    ListingIsUnique(clauses, Remaining(table, q, Some(last)), Listing(table, q, Some(last)), listing[n..]);
  }

  function Repeat(table: set<Row>, n: nat): seq<set<Row>> {
    seq(n, _ => table)
  }

  lemma OneMorePage(n: nat, size: nat)
    requires n > 0
    ensures n * size == (n - 1) * size + size
  {
  }

  function Front(q: seq<Row>, most: nat): seq<Row> {
    if |q| <= most then q else q[..most]
  }

  lemma FrontOfPages(q: seq<Row>, size: nat, most: nat)
    requires size < |q|
    ensures q[..size] + Front(q[size..], most) == Front(q, most + size)
  {
  }

  /**
   On a table that does not change, `n` pages hold exactly the first rows of the full sorted listing, and the
   walk ends as soon as they hold all of it.
   */
  lemma {:induction false} FixedTableWalk(iso: Iso, table: set<Row>, q: Query, from: Option<Row>, n: nat)
    requires iso.Inverse() && q.SortIsValid() && UniqueIds(table) && q.limit >= 1
    ensures var listing, most := Listing(table, q, from), n * (if q.limit < 500 then q.limit else 500);
            WalkFrom(iso, Repeat(table, n), q, from)
              == Success(Tour(Front(listing, most), |listing| <= most && n > 0))
    decreases n
  {
    hide Less, Walk, WalkFrom, Listing, Lists, Remaining;
    var listing, size := Listing(table, q, from), q.PageSize();
    if n == 0 {
      assert Repeat(table, n) == [];
      EmptyWalk(iso, q, from);
    } else {
      WalkUnfolds(iso, Repeat(table, n), q, from);
      assert Repeat(table, n)[0] == table && Repeat(table, n)[1..] == Repeat(table, n - 1);
      OneMorePage(n, size);
      if size < |listing| {
        FixedTableWalk(iso, table, q, Some(listing[size - 1]), n - 1);
        RestOfListing(table, q, from, size);
        FrontOfPages(listing, size, (n - 1) * size);
      }
    }
  }

  /** The first page on has the same shape: the whole listing is the pages put together. */
  lemma PagesConcatenate(iso: Iso, table: set<Row>, q: Query, n: nat)
    requires iso.Inverse() && q.SortIsValid() && UniqueIds(table) && q.limit >= 1
    requires var wanted := set r | r in table && r.session == q.session && r.organization == q.organization &&
                                   !r.deleted && !r.archived;
             n >= 1 && n * (if q.limit < 500 then q.limit else 500) >= |wanted|
    ensures var w := Walk(iso, Repeat(table, n), q, None);
            w.Success? && w.value.finished &&
            (forall x :: x in w.value.rows <==>
               x in table && x.session == q.session && x.organization == q.organization && !x.deleted && !x.archived) &&
            (forall i, j :: 0 <= i < j < |w.value.rows| ==> InRequestedOrder(q, w.value.rows[i], w.value.rows[j]))
  {
    hide Less, SortRows, Walk;
    ClausesResolve(q);
    var listing := Listing(table, q, None);
    SortLists(q.Clauses(), Remaining(table, q, None));
    assert Remaining(table, q, None)
        == set r | r in table && r.session == q.session && r.organization == q.organization && !r.deleted && !r.archived;
    ListingLength(q.Clauses(), Remaining(table, q, None), listing);
    FixedTableWalk(iso, table, q, None, n);
    assert WalkFrom(iso, Repeat(table, n), q, None) == Walk(iso, Repeat(table, n), q, None);
    forall i, j | 0 <= i < j < |listing| ensures InRequestedOrder(q, listing[i], listing[j]) {
      LessIsRequestedOrder(q, listing[i], listing[j]);
    }
  }

  lemma {:induction false} ListingLength(clauses: seq<Clause>, rows: set<Row>, listing: seq<Row>)
    requires Lists(clauses, rows, listing)
    ensures |listing| == |rows|
    decreases |listing|
  {
    EmptyListing(clauses, rows, listing);
    if listing != [] {
      TailLists(clauses, rows, listing);
      ListingLength(clauses, rows - {listing[0]}, listing[1..]);
      assert listing[0] in rows;
    }
  }
}
