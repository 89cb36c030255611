/** `sort.SliceStable` and `ORDER BY`: insertion after every element that the new one does not come before. */
module StableSort {
  function Insert<T>(sorted: seq<T>, x: T, less: (T, T) -> bool): seq<T> {
    if sorted == [] then [x]
    else
      var n := |sorted| - 1;
      if less(x, sorted[n]) then Insert(sorted[..n], x, less) + [sorted[n]] else sorted + [x]
  }

  function Sorted<T>(xs: seq<T>, less: (T, T) -> bool): seq<T> {
    if xs == [] then [] else Insert(Sorted(xs[..|xs| - 1], less), xs[|xs| - 1], less)
  }

  ghost predicate WeakOrder<T(!new)>(less: (T, T) -> bool) {
    && (forall a, b :: less(a, b) ==> !less(b, a))
    && (forall a, b, c :: less(a, c) ==> less(a, b) || less(b, c))
  }

  ghost predicate InOrder<T>(xs: seq<T>, less: (T, T) -> bool) {
    forall i, j :: 0 <= i < j < |xs| ==> !less(xs[j], xs[i])
  }

  predicate Ties<T>(a: T, b: T, less: (T, T) -> bool) { !less(a, b) && !less(b, a) }

  /** The elements that tie with `k`, in order. */
  function TiesWith<T>(xs: seq<T>, k: T, less: (T, T) -> bool): seq<T> {
    if xs == [] then []
    else
      var last := xs[|xs| - 1];
      TiesWith(xs[..|xs| - 1], k, less) + (if Ties(last, k, less) then [last] else [])
  }

  lemma {:induction false} InsertAdds<T>(sorted: seq<T>, x: T, less: (T, T) -> bool)
    ensures multiset(Insert(sorted, x, less)) == multiset(sorted) + multiset{x}
  {
    if sorted != [] {
      var n := |sorted| - 1;
      assert sorted == sorted[..n] + [sorted[n]];
      if less(x, sorted[n]) { InsertAdds(sorted[..n], x, less); }
    }
  }

  lemma {:induction false} InsertInOrder<T(!new)>(sorted: seq<T>, x: T, less: (T, T) -> bool)
    requires WeakOrder(less) && InOrder(sorted, less)
    ensures InOrder(Insert(sorted, x, less), less)
  {
    if sorted != [] {
      var n := |sorted| - 1;
      var front, last := sorted[..n], sorted[n];
      assert sorted == front + [last];
      if less(x, last) {
        InsertInOrder(front, x, less);
        InsertAdds(front, x, less);
        InsertedBefore(front, x, last, less);
      }
    }
  }

  lemma InsertedBefore<T(!new)>(front: seq<T>, x: T, last: T, less: (T, T) -> bool)
    requires WeakOrder(less) && InOrder(front + [last], less) && less(x, last)
    requires multiset(Insert(front, x, less)) == multiset(front) + multiset{x}
    ensures forall y :: y in Insert(front, x, less) ==> !less(last, y)
  {
    forall y | y in Insert(front, x, less) ensures !less(last, y) {
      assert y in multiset(Insert(front, x, less));
      if y != x {
        assert y in multiset(front);
        var i :| 0 <= i < |front| && front[i] == y;
        assert (front + [last])[i] == y && (front + [last])[|front|] == last;
      }
    }
  }

  lemma {:induction false} InsertIsStable<T(!new)>(sorted: seq<T>, x: T, k: T, less: (T, T) -> bool)
    requires WeakOrder(less)
    ensures TiesWith(Insert(sorted, x, less), k, less) == TiesWith(sorted, k, less)
        + (if Ties(x, k, less) then [x] else [])
  {
    if sorted != [] {
      var n := |sorted| - 1;
      if less(x, sorted[n]) {
        InsertIsStable(sorted[..n], x, k, less);
        var inner := Insert(sorted[..n], x, less);
        assert (inner + [sorted[n]])[..|inner|] == inner;
        assert !(Ties(x, k, less) && Ties(sorted[n], k, less));
      } else {
        assert (sorted + [x])[..|sorted|] == sorted;
      }
    }
  }

  lemma {:induction false} SortedIsStable<T(!new)>(xs: seq<T>, k: T, less: (T, T) -> bool)
    requires WeakOrder(less)
    ensures TiesWith(Sorted(xs, less), k, less) == TiesWith(xs, k, less)
  {
    hide WeakOrder, Insert;
    if xs != [] {
      var n := |xs| - 1;
      SortedIsStable(xs[..n], k, less);
      InsertIsStable(Sorted(xs[..n], less), xs[n], k, less);
    }
  }

  lemma LastInBag<T>(xs: seq<T>)
    requires xs != []
    ensures multiset(xs) == multiset(xs[..|xs| - 1]) + multiset{xs[|xs| - 1]}
  {
    assert xs == xs[..|xs| - 1] + [xs[|xs| - 1]];
  }

  lemma {:induction false} SortedPermutes<T>(xs: seq<T>, less: (T, T) -> bool)
    ensures multiset(Sorted(xs, less)) == multiset(xs)
  {
    hide Insert;
    if xs == [] {
      assert Sorted(xs, less) == xs;
    } else {
      var front, last := xs[..|xs| - 1], xs[|xs| - 1];
      SortedPermutes(front, less);
      InsertAdds(Sorted(front, less), last, less);
      LastInBag(xs);
    }
  }

  lemma {:induction false} SortedInOrder<T(!new)>(xs: seq<T>, less: (T, T) -> bool)
    requires WeakOrder(less)
    ensures InOrder(Sorted(xs, less), less)
  {
    hide Insert, WeakOrder;
    if xs != [] {
      var n := |xs| - 1;
      SortedInOrder(xs[..n], less);
      InsertInOrder(Sorted(xs[..n], less), xs[n], less);
    }
  }

  /** Sorting permutes into order and keeps the order of ties. */
  lemma SortedIsStableSort<T(!new)>(xs: seq<T>, less: (T, T) -> bool)
    requires WeakOrder(less)
    ensures InOrder(Sorted(xs, less), less) && multiset(Sorted(xs, less)) == multiset(xs)
    ensures forall k :: TiesWith(Sorted(xs, less), k, less) == TiesWith(xs, k, less)
  {
    hide *;
    SortedInOrder(xs, less);
    SortedPermutes(xs, less);
    forall k { SortedIsStable(xs, k, less); }
  }

  // ---- Permutations keep elements apart ----

  ghost predicate Distinct<T>(xs: seq<T>) { forall i, j :: 0 <= i < j < |xs| ==> xs[i] != xs[j] }

  ghost predicate DistinctBy<T, K>(xs: seq<T>, id: T -> K) {
    forall i, j :: 0 <= i < j < |xs| ==> id(xs[i]) != id(xs[j])
  }

  lemma {:induction false} DistinctBag<T>(xs: seq<T>)
    ensures Distinct(xs) <==> forall x :: multiset(xs)[x] <= 1
  {
    if xs != [] {
      var n := |xs| - 1;
      var front, last := xs[..n], xs[n];
      LastInBag(xs);
      DistinctBag(front);
      assert last in multiset(front) <==> exists i :: 0 <= i < n && xs[i] == last by {
        assert forall i :: 0 <= i < n ==> front[i] == xs[i];
        assert last in multiset(front) <==> last in front;
      }
      if forall x :: multiset(xs)[x] <= 1 {
        forall x ensures multiset(front)[x] <= 1 { assert multiset(xs)[x] <= 1; }
        assert multiset(xs)[last] <= 1;
      }
    }
  }

  lemma {:induction false} DistinctCount<T>(xs: seq<T>)
    requires Distinct(xs)
    ensures |set x | x in xs| == |xs|
  {
    if xs == [] {
      assert (set x | x in xs) == {};
    } else {
      var n := |xs| - 1;
      DistinctCount(xs[..n]);
      assert xs == xs[..n] + [xs[n]];
      assert (set x | x in xs) == (set x | x in xs[..n]) + {xs[n]};
      assert xs[n] !in xs[..n];
    }
  }

  lemma PermutationKeepsDistinct<T, K>(a: seq<T>, b: seq<T>, id: T -> K)
    requires multiset(a) == multiset(b) && DistinctBy(a, id)
    ensures DistinctBy(b, id)
  {
    DistinctBag(a);
    DistinctBag(b);
    assert Distinct(a);
    forall i, j | 0 <= i < j < |b| ensures id(b[i]) != id(b[j]) {
      assert b[i] in multiset(b) && b[j] in multiset(b);
      var p :| 0 <= p < |a| && a[p] == b[i];
      var q :| 0 <= q < |a| && a[q] == b[j];
    }
  }
}
