/**
 The ORDER BY resolver (core/sorting.py): a whitelist of sortable columns, with the id as a
 tiebreak so that every listing has exactly one order.
 */
module Sorting {
  import opened Wrappers
  import opened Cursor

  /** An episode with its classification: what the listing query joins, filters and sorts. */
  datatype Row = Row(organization: nat, session: nat, id: Uuid, sequenceNumber: int, createdAt: int,
                     deleted: bool, archived: bool)

  datatype Column = SequenceNumber | CreatedAt | Id

  datatype Clause = Clause(column: Column, ascending: bool)

  function KeyOf(row: Row, column: Column): int {
    match column
    case SequenceNumber => row.sequenceNumber
    case CreatedAt => row.createdAt
    case Id => row.id
  }

  datatype SortSpec = SortSpec(sortBy: Option<string>, sortDir: string) {
    function Effective(defaultSort: string, defaultDir: string): (string, string) {
      if sortBy.None? then (defaultSort, defaultDir) else (sortBy.value, sortDir)
    }
  }

  predicate IsDirection(dir: string) {
    dir == "asc" || dir == "desc"
  }

  function ResolveOrderBy(sortable: map<string, Column>, sortBy: Option<string>, sortDir: string,
                          defaultSortBy: string, defaultDir: string): Result<seq<Clause>, Error> {
    var key := if sortBy.Some? then sortBy.value else defaultSortBy;
    if key !in sortable || !IsDirection(sortDir) || defaultSortBy !in sortable || !IsDirection(defaultDir) then
      Failure(InvalidSort)
    else
      var direction := if sortBy.Some? then sortDir else defaultDir;
      var primary := Clause(sortable[key], direction == "asc");
      Success(if sortable[key] != Id && key != "id" then [primary, Clause(Id, true)] else [primary])
  }

  /** Whether the clauses put `a` strictly before `b`. */
  predicate Less(clauses: seq<Clause>, a: Row, b: Row) {
    clauses != [] &&
    var x, y := KeyOf(a, clauses[0].column), KeyOf(b, clauses[0].column);
    if x == y then Less(clauses[1..], a, b) else (x < y) == clauses[0].ascending
  }

  lemma {:induction false} LessIsStrictOrder(clauses: seq<Clause>, a: Row, b: Row, c: Row)
    ensures !Less(clauses, a, a)
    ensures Less(clauses, a, b) && Less(clauses, b, c) ==> Less(clauses, a, c)
    ensures !(Less(clauses, a, b) && Less(clauses, b, a))
  {
    if clauses != [] {
      LessIsStrictOrder(clauses[1..], a, b, c);
    }
  }

  /** Rows with different ids are always ordered one way or the other. */
  ghost predicate OrdersAllIds(clauses: seq<Clause>) {
    forall a: Row, b: Row :: a.id != b.id ==> Less(clauses, a, b) || Less(clauses, b, a)
  }

  /**
   The resolved clauses order every two rows, whatever the whitelist, exactly when the key "id" is not
   used as a name for another column: for that name no tiebreak is added.
   */
  lemma ResolvedOrderIsTotal(sortable: map<string, Column>, sortBy: Option<string>, sortDir: string,
                             defaultSortBy: string, defaultDir: string)
    ensures var r := ResolveOrderBy(sortable, sortBy, sortDir, defaultSortBy, defaultDir);
            var key := if sortBy.Some? then sortBy.value else defaultSortBy;
            r.Success? ==> (OrdersAllIds(r.value) <==> (key == "id" ==> sortable[key] == Id))
  {
    var r := ResolveOrderBy(sortable, sortBy, sortDir, defaultSortBy, defaultDir);
    var key := if sortBy.Some? then sortBy.value else defaultSortBy;
    if r.Success? && key == "id" && sortable[key] != Id {
      var a, b := Row(0, 0, 0, 0, 0, false, false), Row(0, 0, 1, 0, 0, false, false);
      assert !Less(r.value[1..], a, b) && !Less(r.value[1..], b, a);
      assert !Less(r.value, a, b) && !Less(r.value, b, a);
    } else if r.Success? {
      forall a: Row, b: Row | a.id != b.id ensures Less(r.value, a, b) || Less(r.value, b, a) {
        if sortable[key] != Id {
          assert r.value[1..] == [Clause(Id, true)];
          assert Less(r.value[1..], a, b) || Less(r.value[1..], b, a);
        }
      }
    }
  }

  /** What the resolver accepts, and the column and direction it then sorts by first: the named ones, or the defaults. */
  lemma ResolvesToNamedColumn(sortable: map<string, Column>, sortBy: Option<string>, sortDir: string,
                              defaultSortBy: string, defaultDir: string, a: Row, b: Row)
    ensures var r := ResolveOrderBy(sortable, sortBy, sortDir, defaultSortBy, defaultDir);
            var key := if sortBy.Some? then sortBy.value else defaultSortBy;
            (r.Success? <==> key in sortable && defaultSortBy in sortable && (sortDir == "asc" || sortDir == "desc") &&
                             (defaultDir == "asc" || defaultDir == "desc")) &&
            (r.Success? && KeyOf(a, sortable[key]) != KeyOf(b, sortable[key]) ==>
               (Less(r.value, a, b) <==>
                  if (if sortBy.Some? then sortDir else defaultDir) == "asc"
                  then KeyOf(a, sortable[key]) < KeyOf(b, sortable[key])
                  else KeyOf(a, sortable[key]) > KeyOf(b, sortable[key])))
  {
  }

  ghost predicate StrictlySorted(clauses: seq<Clause>, q: seq<Row>) {
    forall i, j :: 0 <= i < j < |q| ==> Less(clauses, q[i], q[j])
  }

  /** `q` lists the rows of `rows` in the order of `clauses`. */
  ghost predicate Lists(clauses: seq<Clause>, rows: set<Row>, q: seq<Row>) {
    StrictlySorted(clauses, q) && (forall x :: x in q <==> x in rows)
  }

  ghost predicate DistinctIds(rows: set<Row>) {
    forall a, b :: a in rows && b in rows && a.id == b.id ==> a == b
  }

  function Insert(clauses: seq<Clause>, row: Row, q: seq<Row>): (r: seq<Row>)
    ensures forall x :: x in r <==> x == row || x in q
  {
    if q == [] || Less(clauses, row, q[0]) then [row] + q else
      assert q == [q[0]] + q[1..];
      [q[0]] + Insert(clauses, row, q[1..])
  }

  /** What the database returns for ORDER BY: a listing (see SortLists), of which there is only one. */
  ghost function SortRows(clauses: seq<Clause>, rows: set<Row>): seq<Row> {
    if rows == {} then [] else
      var row :| row in rows;
      Insert(clauses, row, SortRows(clauses, rows - {row}))
  }

  lemma {:induction false} InsertKeepsSorted(clauses: seq<Clause>, row: Row, q: seq<Row>)
    requires StrictlySorted(clauses, q)
    requires forall x :: x in q ==> Less(clauses, x, row) || Less(clauses, row, x)
    ensures StrictlySorted(clauses, Insert(clauses, row, q))
  {
    if q != [] {
      if Less(clauses, row, q[0]) {
        forall x | x in q[1..] ensures Less(clauses, row, x) {
          LessIsStrictOrder(clauses, row, q[0], x);
        }
      } else {
        InsertKeepsSorted(clauses, row, q[1..]);
        assert Less(clauses, q[0], row);
        assert forall x :: x in q[1..] ==> Less(clauses, q[0], x);
      }
    }
  }

  lemma {:induction false} SortLists(clauses: seq<Clause>, rows: set<Row>)
    requires OrdersAllIds(clauses) && DistinctIds(rows)
    ensures Lists(clauses, rows, SortRows(clauses, rows))
  {
    if rows != {} {
      var row :| row in rows && SortRows(clauses, rows) == Insert(clauses, row, SortRows(clauses, rows - {row}));
      SortLists(clauses, rows - {row});
      InsertKeepsSorted(clauses, row, SortRows(clauses, rows - {row}));
    }
  }

  lemma EmptyListing(clauses: seq<Clause>, rows: set<Row>, p: seq<Row>)
    requires Lists(clauses, rows, p)
    ensures p == [] <==> rows == {}
  {
    if p != [] {
      assert p[0] in rows;
    }
  }

  /** Two listings of the same rows are equal: a total order leaves the database no choice. */
  lemma {:induction false} ListingIsUnique(clauses: seq<Clause>, rows: set<Row>, p: seq<Row>, q: seq<Row>)
    requires Lists(clauses, rows, p) && Lists(clauses, rows, q)
    ensures p == q
    decreases |p|
  {
    EmptyListing(clauses, rows, p);
    EmptyListing(clauses, rows, q);
    if p != [] && q != [] {
      FirstIsLeast(clauses, rows, p, q);
      TailLists(clauses, rows, p);
      TailLists(clauses, rows, q);
      ListingIsUnique(clauses, rows - {p[0]}, p[1..], q[1..]);
      assert p == [p[0]] + p[1..] && q == [q[0]] + q[1..];
    }
  }

  lemma FirstIsLeast(clauses: seq<Clause>, rows: set<Row>, p: seq<Row>, q: seq<Row>)
    requires Lists(clauses, rows, p) && Lists(clauses, rows, q) && p != [] && q != []
    ensures p[0] == q[0]
  {
    assert p[0] in rows && q[0] in rows;
    LessIsStrictOrder(clauses, p[0], q[0], p[0]);
  }

  lemma TailLists(clauses: seq<Clause>, rows: set<Row>, p: seq<Row>)
    requires Lists(clauses, rows, p) && p != []
    ensures Lists(clauses, rows - {p[0]}, p[1..])
  {
    forall x ensures x in p[1..] <==> x in rows - {p[0]} {
      assert p == [p[0]] + p[1..];
      LessIsStrictOrder(clauses, p[0], p[0], x);
    }
  }
}
