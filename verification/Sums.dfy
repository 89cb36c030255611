/** Sums over the rows of a table. A count is a sum of zeros and ones. */
module Sums {
  /** Row ids are positions. */
  predicate IsRow<T>(id: int, rows: seq<T>) { 0 <= id < |rows| }

  function Sum<T>(rows: seq<T>, f: T -> int): int {
    if rows == [] then 0
    else Sum(rows[..|rows| - 1], f) + f(rows[|rows| - 1])
  }

  lemma SumAppend<T>(rows: seq<T>, row: T, f: T -> int)
    ensures Sum(rows + [row], f) == Sum(rows, f) + f(row)
  {
    assert (rows + [row])[..|rows|] == rows;
  }

  lemma {:induction false} SumUpdate<T>(rows: seq<T>, i: nat, row: T, f: T -> int)
    requires i < |rows|
    ensures Sum(rows[i := row], f) == Sum(rows, f) - f(rows[i]) + f(row)
  {
    var n := |rows| - 1;
    if i < n {
      assert rows[i := row][..n] == rows[..n][i := row];
      SumUpdate(rows[..n], i, row, f);
    } else {
      assert rows[i := row][..n] == rows[..n];
    }
  }

  lemma {:induction false} SumZero<T>(rows: seq<T>, f: T -> int)
    requires forall r :: r in rows ==> f(r) == 0
    ensures Sum(rows, f) == 0
  {
    if rows != [] { SumZero(rows[..|rows| - 1], f); }
  }

  /** The ids of the rows counted with one. */
  function Counted<T>(rows: seq<T>, f: T -> int): set<int> { set i | 0 <= i < |rows| && f(rows[i]) == 1 }

  /** A sum of zeros and ones counts rows. */
  lemma {:induction false} SumCounts<T>(rows: seq<T>, f: T -> int)
    requires forall r :: r in rows ==> f(r) == 0 || f(r) == 1
    ensures Sum(rows, f) == |Counted(rows, f)|
  {
    if rows == [] {
      assert Counted(rows, f) == {};
    } else {
      var n := |rows| - 1;
      SumCounts(rows[..n], f);
      assert n !in Counted(rows[..n], f);
      assert Counted(rows, f) == Counted(rows[..n], f) + (if f(rows[n]) == 1 then {n} else {});
    }
  }

  lemma {:induction false} SumAtLeast<T>(rows: seq<T>, i: nat, f: T -> int)
    requires i < |rows|
    requires forall r :: r in rows ==> f(r) >= 0
    ensures Sum(rows, f) >= f(rows[i]) >= 0
    ensures forall k :: 0 <= k < |rows| && k != i ==> Sum(rows, f) >= f(rows[i]) + f(rows[k])
  {
    var n := |rows| - 1;
    SumNonNegative(rows[..n], f);
    if i < n {
      SumAtLeast(rows[..n], i, f);
    } else {
      forall k | 0 <= k < n ensures Sum(rows[..n], f) >= f(rows[k]) {
        SumAtLeast(rows[..n], k, f);
      }
    }
  }

  lemma {:induction false} SumNonNegative<T>(rows: seq<T>, f: T -> int)
    requires forall r :: r in rows ==> f(r) >= 0
    ensures Sum(rows, f) >= 0
  {
    if rows != [] { SumNonNegative(rows[..|rows| - 1], f); }
  }

  lemma {:induction false} SumSame<T>(rows: seq<T>, f: T -> int, g: T -> int)
    requires forall r :: r in rows ==> f(r) == g(r)
    ensures Sum(rows, f) == Sum(rows, g)
  {
    if rows != [] { SumSame(rows[..|rows| - 1], f, g); }
  }

  /** If no row adds less under `f` than under `g`, the sums agree exactly when every row adds the same. */
  lemma {:induction false} SumEqualIff<T>(rows: seq<T>, f: T -> int, g: T -> int)
    requires forall r :: r in rows ==> f(r) >= g(r)
    ensures Sum(rows, f) >= Sum(rows, g)
    ensures Sum(rows, f) == Sum(rows, g) <==> forall r :: r in rows ==> f(r) == g(r)
  {
    if rows != [] {
      var n := |rows| - 1;
      SumEqualIff(rows[..n], f, g);
      assert rows == rows[..n] + [rows[n]];
    }
  }

  lemma {:induction false} SumConcat<T>(a: seq<T>, b: seq<T>, f: T -> int)
    ensures Sum(a + b, f) == Sum(a, f) + Sum(b, f)
  {
    if b == [] {
      assert a + b == a;
    } else {
      var n := |b| - 1;
      assert (a + b)[..|a + b| - 1] == a + b[..n];
      SumConcat(a, b[..n], f);
    }
  }
}
