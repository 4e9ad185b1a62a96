/** Sorting one element at a time, under any strict order. */
module Sorting {

  type Order<!T> = (T, T) -> bool

  ghost predicate Transitive<T(!new)>(less: Order<T>) {
    forall a, b, c :: less(a, b) && less(b, c) ==> less(a, c)
  }

  ghost predicate Ascending<T>(s: seq<T>, less: Order<T>) {
    forall i, j :: 0 <= i < j < |s| ==> less(s[i], s[j])
  }

  /** x differs from all of s under the order. */
  ghost predicate Fits<T>(s: seq<T>, x: T, less: Order<T>) {
    forall k :: 0 <= k < |s| ==> less(s[k], x) || less(x, s[k])
  }

  /** One step of sorting. */
  method Insert<T(!new)>(sorted: seq<T>, x: T, less: Order<T>) returns (s: seq<T>)
    requires Transitive(less) && Ascending(sorted, less) && Fits(sorted, x, less)
    ensures Ascending(s, less) && forall y :: y in s <==> y in sorted || y == x
  {
    var i := |sorted|;
    while i > 0 && less(x, sorted[i - 1])
      invariant 0 <= i <= |sorted|
      invariant forall k :: i <= k < |sorted| ==> less(x, sorted[k])
    {
      i := i - 1;
    }
    Inserted(sorted, x, i, less);
    s := sorted[..i] + [x] + sorted[i..];
  }

  lemma Inserted<T(!new)>(sorted: seq<T>, x: T, i: nat, less: Order<T>)
    requires Transitive(less) && Ascending(sorted, less) && i <= |sorted|
    requires i > 0 ==> less(sorted[i - 1], x)
    requires forall k :: i <= k < |sorted| ==> less(x, sorted[k])
    ensures Ascending(sorted[..i] + [x] + sorted[i..], less)
    ensures forall y :: y in sorted[..i] + [x] + sorted[i..] <==> y in sorted || y == x
  {
    var s := sorted[..i] + [x] + sorted[i..];
    forall k | 0 <= k < i ensures less(sorted[k], x) {
      assert k < i - 1 ==> less(sorted[k], sorted[i - 1]);
    }
    forall j, k | 0 <= j < k < |s| ensures less(s[j], s[k]) {
      assert s[j] == if j < i then sorted[j] else if j == i then x else sorted[j - 1];
      assert s[k] == if k < i then sorted[k] else if k == i then x else sorted[k - 1];
    }
    assert sorted == sorted[..i] + sorted[i..];
  }
}
