/** Table rows keyed by an integer primary key, and reading them back in key order. */
module Rows {

  datatype Row<T> = Row(id: int, cols: T)

  predicate Ascends<T>(rows: seq<Row<T>>) {
    forall i, j :: 0 <= i < j < |rows| ==> rows[i].id < rows[j].id
  }

  predicate DistinctKeys<T>(rows: seq<Row<T>>) {
    forall i, j :: 0 <= i < j < |rows| ==> rows[i].id != rows[j].id
  }

  function Place<T>(rows: seq<Row<T>>, row: Row<T>): seq<Row<T>> {
    if rows == [] || rows[|rows| - 1].id < row.id then rows + [row]
    else Place(rows[..|rows| - 1], row) + [rows[|rows| - 1]]
  }

  /** The rows in ascending key order. */
  function OrderById<T>(rows: seq<Row<T>>): seq<Row<T>> {
    if rows == [] then [] else Place(OrderById(rows[..|rows| - 1]), rows[|rows| - 1])
  }

  lemma ConcatAssociates<T>(a: seq<T>, b: seq<T>, c: seq<T>)
    ensures (a + b) + c == a + (b + c)
  {
  }

  lemma {:induction false} PlaceKeeps<T(!new)>(rows: seq<Row<T>>, row: Row<T>)
    requires Ascends(rows) && forall i :: 0 <= i < |rows| ==> rows[i].id != row.id
    ensures Ascends(Place(rows, row)) && |Place(rows, row)| == |rows| + 1
    ensures forall r :: r in Place(rows, row) <==> r in rows || r == row
  {
    if rows != [] && row.id <= rows[|rows| - 1].id {
      var init, last := rows[..|rows| - 1], rows[|rows| - 1];
      assert rows == init + [last];
      PlaceKeeps(init, row);
      var placed := Place(init, row);
      forall i | 0 <= i < |placed|
        ensures placed[i].id < last.id
      {
        var r := placed[i];
        assert r in placed;
        if r in init {
          var j :| 0 <= j < |init| && init[j] == r;
        }
      }
    }
  }

  /** Ordering keeps the rows and sorts them. */
  lemma {:induction false} OrderKeeps<T(!new)>(rows: seq<Row<T>>)
    requires DistinctKeys(rows)
    ensures Ascends(OrderById(rows)) && |OrderById(rows)| == |rows|
    ensures forall r :: r in OrderById(rows) <==> r in rows
  {
    if rows != [] {
      var init, last := rows[..|rows| - 1], rows[|rows| - 1];
      assert rows == init + [last];
      OrderKeeps(init);
      var sorted := OrderById(init);
      forall i | 0 <= i < |sorted|
        ensures sorted[i].id != last.id
      {
        var r := sorted[i];
        assert r in sorted;
        assert r in init;
        var j :| 0 <= j < |init| && init[j] == r;
      }
      PlaceKeeps(sorted, last);
    }
  }

  /** Rows written in key order are read back as they were written. */
  lemma {:induction false} OrderAscending<T(!new)>(rows: seq<Row<T>>)
    requires Ascends(rows)
    ensures OrderById(rows) == rows
  {
    if rows != [] {
      var init, last := rows[..|rows| - 1], rows[|rows| - 1];
      assert rows == init + [last];
      OrderAscending(init);
    }
  }

  /** The order in which rows were inserted does not show when they are read back. */
  lemma OrderCanonical<T(!new)>(a: seq<Row<T>>, b: seq<Row<T>>)
    requires DistinctKeys(a) && DistinctKeys(b)
    requires forall r :: r in a <==> r in b
    ensures OrderById(a) == OrderById(b)
  {
    OrderKeeps(a);
    OrderKeeps(b);
    AscendsUnique(OrderById(a), OrderById(b));
  }

  lemma {:induction false} AscendsUnique<T(!new)>(a: seq<Row<T>>, b: seq<Row<T>>)
    requires Ascends(a) && Ascends(b)
    requires forall r :: r in a <==> r in b
    ensures a == b
  {
    if a != [] && b != [] {
      var p, q := a[|a| - 1], b[|b| - 1];
      assert p in a && q in b;
      assert p in b && q in a;
      LastIsHighest(a, q);
      LastIsHighest(b, p);
      var a', b' := a[..|a| - 1], b[..|b| - 1];
      forall r
        ensures r in a' <==> r in b'
      {
        InitOf(a, r);
        InitOf(b, r);
      }
      AscendsUnique(a', b');
      assert a == a[..|a| - 1] + [p] && b == b[..|b| - 1] + [q];
    } else {
      NoRows(a);
      NoRows(b);
    }
  }

  lemma NoRows<T(!new)>(a: seq<Row<T>>)
    ensures a != [] ==> exists r :: r in a
  {
    if a != [] {
      var r := a[0];
      assert r in a;
    }
  }

  lemma LastIsHighest<T(!new)>(a: seq<Row<T>>, r: Row<T>)
    requires Ascends(a) && r in a
    ensures r == a[|a| - 1] || r.id < a[|a| - 1].id
  {
  }

  lemma InitOf<T(!new)>(a: seq<Row<T>>, r: Row<T>)
    requires a != [] && Ascends(a)
    ensures r in a[..|a| - 1] <==> r in a && r != a[|a| - 1]
  {
    if r in a && r != a[|a| - 1] {
      var i :| 0 <= i < |a| && a[i] == r;
      assert a[..|a| - 1][i] == r;
    }
  }

  function MapCols<T, U>(rows: seq<Row<T>>, f: T -> U): (r: seq<Row<U>>)
    ensures |r| == |rows|
    ensures forall i :: 0 <= i < |rows| ==> r[i] == Row(rows[i].id, f(rows[i].cols))
  {
    seq(|rows|, i requires 0 <= i < |rows| => Row(rows[i].id, f(rows[i].cols)))
  }

  lemma {:induction false} PlaceMapped<T(!new), U(!new)>(rows: seq<Row<T>>, row: Row<T>, f: T -> U)
    ensures Place(MapCols(rows, f), Row(row.id, f(row.cols))) == MapCols(Place(rows, row), f)
  {
    if rows != [] && row.id <= rows[|rows| - 1].id {
      var init := rows[..|rows| - 1];
      PlaceMapped(init, row, f);
      assert MapCols(rows, f)[..|rows| - 1] == MapCols(init, f);
    } else {
      assert Place(MapCols(rows, f), Row(row.id, f(row.cols))) == MapCols(rows, f) + [Row(row.id, f(row.cols))];
    }
  }

  /** Ordering looks at keys only. */
  lemma {:induction false} OrderMapped<T(!new), U(!new)>(rows: seq<Row<T>>, f: T -> U)
    ensures OrderById(MapCols(rows, f)) == MapCols(OrderById(rows), f)
  {
    if rows != [] {
      var init := rows[..|rows| - 1];
      OrderMapped(init, f);
      assert MapCols(rows, f)[..|rows| - 1] == MapCols(init, f);
      PlaceMapped(OrderById(init), rows[|rows| - 1], f);
    }
  }
}
