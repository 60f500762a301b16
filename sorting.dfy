/** `sorted(...)` on the rows of the status page, specified by an insertion sort: the result is
  * ordered and a permutation of the input, and no other sequence is both. */
module Sorting {
  import opened Values
  import opened Ordering

  type Row = seq<Value>

  /** No row is smaller than one before it. */
  predicate Sorted(rows: seq<Row>) {
    forall i, j :: 0 <= i < j < |rows| ==> !RowLess(rows[j], rows[i])
  }

  /** `x` put into the sorted `rows` before the first row that is not smaller than it. */
  function Insert(x: Row, rows: seq<Row>): (r: seq<Row>)
    ensures multiset(r) == multiset(rows) + multiset{x}
    ensures |r| == |rows| + 1
  {
    if rows == [] then [x]
    else if !RowLess(rows[0], x) then [x] + rows
    else
      assert rows == [rows[0]] + rows[1..];
      [rows[0]] + Insert(x, rows[1..])
  }

  lemma InsertSorted(x: Row, rows: seq<Row>)
    requires Sorted(rows)
    ensures Sorted(Insert(x, rows))
    decreases |rows|
  {
    if rows == [] {
    } else if !RowLess(rows[0], x) {
      var r := [x] + rows;
      forall i, j | 0 <= i < j < |r| ensures !RowLess(r[j], r[i]) {
        if i == 0 {
          if j > 1 {
            RowLeTransitive(x, rows[0], rows[j - 1]);
          }
        }
      }
    } else {
      InsertSorted(x, rows[1..]);
      var tail := Insert(x, rows[1..]);
      var r := [rows[0]] + tail;
      forall i, j | 0 <= i < j < |r| ensures !RowLess(r[j], r[i]) {
        if i == 0 {
          var y := tail[j - 1];
          assert y in multiset(tail);
          if y == x {
            RowLessIrreflexive(x);
            if RowLess(x, rows[0]) {
              RowLessTransitive(x, rows[0], x);
            }
          } else {
            assert y in multiset(rows[1..]);
            var k :| 0 <= k < |rows[1..]| && rows[1..][k] == y;
            assert rows[k + 1] == y;
          }
        }
      }
    }
  }

  /** The rows in ascending order. */
  function Sort(rows: seq<Row>): (r: seq<Row>)
    ensures |r| == |rows|
    ensures Sorted(r)
    ensures multiset(r) == multiset(rows)
  {
    if rows == [] then []
    else
      assert rows == [rows[0]] + rows[1..];
      InsertSorted(rows[0], Sort(rows[1..]));
      Insert(rows[0], Sort(rows[1..]))
  }

  lemma SortedHeadSmallest(rows: seq<Row>, y: Row)
    requires Sorted(rows) && rows != [] && y in multiset(rows)
    ensures !RowLess(y, rows[0])
  {
    var k :| 0 <= k < |rows| && rows[k] == y;
    if k == 0 {
      RowLessIrreflexive(y);
    }
  }

  /** Sorting is determined by the multiset of rows: two sorted sequences holding the same rows
    * are equal, so any correct sort agrees with `Sort`. */
  lemma {:induction false} SortedUnique(a: seq<Row>, b: seq<Row>)
    requires Sorted(a) && Sorted(b) && multiset(a) == multiset(b)
    ensures a == b
    decreases |a|
  {
    if a != [] {
      assert a[0] in multiset(a);
      assert b != [];
      assert b[0] in multiset(b);
      SortedHeadSmallest(b, a[0]);
      SortedHeadSmallest(a, b[0]);
      RowLessAntisymmetric(a[0], b[0]);
      assert a == [a[0]] + a[1..] && b == [b[0]] + b[1..];
      assert multiset(a) == multiset{a[0]} + multiset(a[1..]);
      assert multiset(b) == multiset{b[0]} + multiset(b[1..]);
      assert multiset(a[1..]) == multiset(a) - multiset{a[0]};
      assert multiset(b[1..]) == multiset(b) - multiset{b[0]};
      SortedUnique(a[1..], b[1..]);
    }
  }
}
