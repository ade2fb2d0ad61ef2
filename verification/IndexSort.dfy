/** Sorting positions by a key: the index permutation std::sort produces with a key
    comparator. */
module IndexSort {

  ghost predicate Permutation(order: seq<nat>, n: nat) {
    && |order| == n
    && (forall k :: 0 <= k < n ==> order[k] < n)
    && (forall k, m :: 0 <= k < m < n ==> order[k] != order[m])
    && (forall t: nat :: t < n ==> t in order)
  }

  ghost predicate ByKey(keys: seq<nat>, order: seq<nat>, n: nat)
    requires Permutation(order, n) && n <= |keys|
  {
    forall k, m :: 0 <= k < m < n ==> keys[order[k]] <= keys[order[m]]
  }

  lemma {:induction false} InsertPermutes(order: seq<nat>, n: nat, at: nat)
    requires Permutation(order, n) && at <= n
    ensures Permutation(order[..at] + [n] + order[at..], n + 1)
  {
    var r := order[..at] + [n] + order[at..];
    forall t: nat | t < n + 1 ensures t in r {
      if t == n {
        assert r[at] == n;
      } else {
        assert t in order;
        var k :| 0 <= k < n && order[k] == t;
        assert r[if k < at then k else k + 1] == t;
      }
    }
  }

  ghost predicate NonDecreasing(a: seq<nat>) {
    forall i, j :: 0 <= i < j < |a| ==> a[i] <= a[j]
  }

  lemma {:induction false} InsertSorted(a: seq<nat>, x: nat, at: nat)
    requires NonDecreasing(a) && at <= |a| && (forall k :: at <= k < |a| ==> a[k] > x) && (at > 0 ==> a[at - 1] <= x)
    ensures NonDecreasing(a[..at] + [x] + a[at..])
  {
    var r := a[..at] + [x] + a[at..];
    assert forall k :: 0 <= k < at ==> r[k] == a[k] <= x;
    assert forall k :: at < k < |r| ==> r[k] == a[k - 1] > x;
  }

  function KeysOf(keys: seq<nat>, order: seq<nat>): (r: seq<nat>)
    requires forall k :: 0 <= k < |order| ==> order[k] < |keys|
    ensures |r| == |order| && forall k :: 0 <= k < |order| ==> r[k] == keys[order[k]]
  {
    seq(|order|, k requires 0 <= k < |order| => keys[order[k]])
  }

  lemma {:induction false} InsertByKey(keys: seq<nat>, order: seq<nat>, n: nat, at: nat)
    requires n < |keys| && Permutation(order, n) && ByKey(keys, order, n) && at <= n
    requires forall k :: at <= k < n ==> keys[order[k]] > keys[n]
    requires at > 0 ==> keys[order[at - 1]] <= keys[n]
    ensures Permutation(order[..at] + [n] + order[at..], n + 1) && ByKey(keys, order[..at] + [n] + order[at..], n + 1)
  {
    InsertPermutes(order, n, at);
    var r, a := order[..at] + [n] + order[at..], KeysOf(keys, order);
    InsertSorted(a, keys[n], at);
    assert KeysOf(keys, r) == a[..at] + [keys[n]] + a[at..];
  }

  /** Inserts index after index at its place by key. */
  method SortByKey(keys: seq<nat>) returns (order: seq<nat>)
    ensures Permutation(order, |keys|) && ByKey(keys, order, |keys|)
  {
    order := [];
    for n := 0 to |keys|
      invariant Permutation(order, n) && ByKey(keys, order, n)
    {
      var at := PlaceFor(keys, order, n);
      InsertByKey(keys, order, n, at);
      order := order[..at] + [n] + order[at..];
    }
  }

  method PlaceFor(keys: seq<nat>, order: seq<nat>, n: nat) returns (at: nat)
    requires n < |keys| && Permutation(order, n)
    ensures at <= n && forall k :: at <= k < n ==> keys[order[k]] > keys[n]
    ensures at > 0 ==> keys[order[at - 1]] <= keys[n]
  {
    at := n;
    while at > 0 && keys[order[at - 1]] > keys[n]
      invariant 0 <= at <= n && forall k :: at <= k < n ==> keys[order[k]] > keys[n]
    {
      at := at - 1;
    }
  }
}
