/** Dictionary order of terms: byte-wise string comparison, the rank table built from it,
    and sorting by rank. */
module TermOrder {
  import opened Common

  /** std::string's order. */
  predicate Less(a: Bytes, b: Bytes) {
    if b == [] then false
    else if a == [] then true
    else a[0] < b[0] || (a[0] == b[0] && Less(a[1..], b[1..]))
  }

  /** The strings agree on the first `k` bytes, and then `a` ends or has the smaller byte. */
  predicate SmallerAt(a: Bytes, b: Bytes, k: nat) {
    k <= |a| && k < |b| && a[..k] == b[..k] && (k < |a| ==> a[k] < b[k])
  }

  lemma {:induction false} LessMeans(a: Bytes, b: Bytes)
    ensures Less(a, b) <==> exists k :: SmallerAt(a, b, k)
  {
    if Less(a, b) {
      var k := WhereLess(a, b);
    } else if k :| SmallerAt(a, b, k) {
      SmallerIsLess(a, b, k);
    }
  }

  lemma {:induction false} WhereLess(a: Bytes, b: Bytes) returns (k: nat)
    requires Less(a, b)
    ensures SmallerAt(a, b, k)
  {
    k := 0;
    if a != [] && a[0] == b[0] {
      var n := WhereLess(a[1..], b[1..]);
      Prefixed(a, b, n);
      k := n + 1;
    }
  }

  lemma {:induction false} Prefixed(a: Bytes, b: Bytes, n: nat)
    requires a != [] && b != [] && a[0] == b[0] && SmallerAt(a[1..], b[1..], n)
    ensures SmallerAt(a, b, n + 1)
  {
    assert a[..n + 1] == [a[0]] + a[1..][..n] && b[..n + 1] == [b[0]] + b[1..][..n];
  }

  lemma {:induction false} SmallerIsLess(a: Bytes, b: Bytes, k: nat)
    requires SmallerAt(a, b, k)
    ensures Less(a, b)
  {
    if k > 0 {
      assert a[0] == a[..k][0] && b[0] == b[..k][0];
      assert a[1..][..k - 1] == a[..k][1..] && b[1..][..k - 1] == b[..k][1..];
      SmallerIsLess(a[1..], b[1..], k - 1);
    }
  }

  lemma {:induction false} LessIrreflexive(a: Bytes)
    ensures !Less(a, a)
  {
    if a != [] {
      LessIrreflexive(a[1..]);
    }
  }

  lemma {:induction false} LessTransitive(a: Bytes, b: Bytes, c: Bytes)
    requires Less(a, b) && Less(b, c)
    ensures Less(a, c)
  {
    if a != [] && a[0] == b[0] == c[0] {
      LessTransitive(a[1..], b[1..], c[1..]);
    }
  }

  lemma {:induction false} LessTotal(a: Bytes, b: Bytes)
    ensures a == b || Less(a, b) || Less(b, a)
  {
    if a != [] && b != [] && a[0] == b[0] {
      LessTotal(a[1..], b[1..]);
      assert a == [a[0]] + a[1..] && b == [b[0]] + b[1..];
    }
  }

  // ----- ranks

  /** `order` lists the ids by string and `rank` is its inverse. */
  ghost predicate RankTable(vocab: seq<Bytes>, order: seq<nat>, rank: seq<nat>) {
    && |order| == |rank| == |vocab|
    && (forall i :: 0 <= i < |order| ==> order[i] < |vocab| && rank[order[i]] == i)
    && (forall a :: 0 <= a < |rank| ==> rank[a] < |order| && order[rank[a]] == a)
    && (forall i, j :: 0 <= i < j < |order| ==> Less(vocab[order[i]], vocab[order[j]]))
  }

  ghost predicate SortedIds(vocab: seq<Bytes>, ids: seq<nat>) {
    && (forall i :: 0 <= i < |ids| ==> ids[i] < |vocab|)
    && (forall i, j :: 0 <= i < j < |ids| ==> Less(vocab[ids[i]], vocab[ids[j]]))
  }

  function InsertId(vocab: seq<Bytes>, ids: seq<nat>, x: nat): (r: seq<nat>)
    requires x < |vocab| && forall i :: 0 <= i < |ids| ==> ids[i] < |vocab|
    ensures |r| == |ids| + 1
    ensures forall y :: y in r <==> y == x || y in ids
  {
    if ids == [] || Less(vocab[x], vocab[ids[0]]) then [x] + ids
    else
      assert ids == [ids[0]] + ids[1..];
      [ids[0]] + InsertId(vocab, ids[1..], x)
  }

  lemma {:induction false} InsertIdSorted(vocab: seq<Bytes>, ids: seq<nat>, x: nat)
    requires SortedIds(vocab, ids) && x < |vocab|
    requires forall i :: 0 <= i < |ids| ==> vocab[ids[i]] != vocab[x]
    ensures SortedIds(vocab, InsertId(vocab, ids, x))
  {
    var r := InsertId(vocab, ids, x);
    if ids != [] {
      var h, t := ids[0], InsertId(vocab, ids[1..], x);
      LessTotal(vocab[x], vocab[h]);
      if Less(vocab[x], vocab[h]) {
        forall j | 0 <= j < |ids| ensures Less(vocab[x], vocab[ids[j]]) {
          if j > 0 {
            LessTransitive(vocab[x], vocab[h], vocab[ids[j]]);
          }
        }
      } else {
        InsertIdSorted(vocab, ids[1..], x);
        forall j | 0 <= j < |t| ensures Less(vocab[h], vocab[t[j]]) {
          assert t[j] in t;
          if t[j] != x {
            var k :| 0 <= k < |ids[1..]| && ids[1..][k] == t[j];
            assert ids[k + 1] == t[j];
          }
        }
      }
    }
  }

  /** One full sort of the vocabulary, then its inverse. */
  method BuildRanks(vocab: seq<Bytes>) returns (order: seq<nat>, rank: seq<nat>)
    requires Distinct(vocab)
    ensures RankTable(vocab, order, rank)
  {
    order := [];
    for x := 0 to |vocab|
      invariant SortedIds(vocab, order) && |order| == x && forall y :: y in order <==> 0 <= y < x
    {
      forall i | 0 <= i < |order| ensures vocab[order[i]] != vocab[x] {
        assert order[i] in order;
      }
      InsertIdSorted(vocab, order, x);
      order := InsertId(vocab, order, x);
    }
    SortedDistinct(vocab, order);
    rank := seq(|vocab|, a requires 0 <= a < |vocab| => 0);
    for i := 0 to |order|
      invariant |rank| == |vocab| && forall j :: 0 <= j < i ==> rank[order[j]] == j
    {
      rank := rank[order[i] := i];
    }
    forall a | 0 <= a < |rank| ensures rank[a] < |order| && order[rank[a]] == a {
      assert a in order;
    }
  }

  lemma {:induction false} SortedDistinct(vocab: seq<Bytes>, ids: seq<nat>)
    requires SortedIds(vocab, ids)
    ensures forall i, j :: 0 <= i < j < |ids| ==> ids[i] != ids[j]
  {
    forall i, j | 0 <= i < j < |ids| ensures ids[i] != ids[j] {
      LessIrreflexive(vocab[ids[i]]);
    }
  }

  // ----- sorting some of the ids

  /** The members of `s`, in list order. */
  ghost function Filter(order: seq<nat>, s: set<nat>): seq<nat> {
    if order == [] then [] else (if order[0] in s then [order[0]] else []) + Filter(order[1..], s)
  }

  lemma {:induction false} FilterConcat(a: seq<nat>, b: seq<nat>, s: set<nat>)
    ensures Filter(a + b, s) == Filter(a, s) + Filter(b, s)
  {
    if a == [] {
      assert a + b == b;
    } else {
      FilterConcat(a[1..], b, s);
      var h := if a[0] in s then [a[0]] else [];
      assert (a + b)[0] == a[0] && (a + b)[1..] == a[1..] + b;
      assert h + (Filter(a[1..], s) + Filter(b, s)) == h + Filter(a[1..], s) + Filter(b, s);
    }
  }

  lemma {:induction false} FilterMembers(order: seq<nat>, s: set<nat>)
    ensures forall x :: x in Filter(order, s) <==> x in order && x in s
  {
    if order != [] {
      FilterMembers(order[1..], s);
      assert order == [order[0]] + order[1..];
    }
  }

  lemma {:induction false} FilterNone(order: seq<nat>, s: set<nat>)
    requires forall x :: x in order ==> x !in s
    ensures Filter(order, s) == []
  {
    if order != [] {
      assert order[0] in order;
      FilterNone(order[1..], s);
    }
  }

  function Place(rank: seq<nat>, ids: seq<nat>, x: nat): (r: seq<nat>)
    requires x < |rank| && forall i :: 0 <= i < |ids| ==> ids[i] < |rank|
    ensures |r| == |ids| + 1 && forall y :: y in r ==> y == x || y in ids
  {
    if ids == [] || rank[x] < rank[ids[0]] then [x] + ids else [ids[0]] + Place(rank, ids[1..], x)
  }

  /** Ranks ascend along a suffix of the order. */
  ghost predicate Ranked(rank: seq<nat>, order: seq<nat>) {
    && (forall i :: 0 <= i < |order| ==> order[i] < |rank|)
    && (forall i, j :: 0 <= i < j < |order| ==> rank[order[i]] < rank[order[j]])
  }

  /** Ids the filter keeps from an order all ranked above `low` are ranked above `low`. */
  lemma {:induction false} FilterAbove(rank: seq<nat>, order: seq<nat>, s: set<nat>, low: int)
    requires forall i :: 0 <= i < |order| ==> order[i] < |rank| && rank[order[i]] > low
    ensures forall i :: 0 <= i < |Filter(order, s)| ==> Filter(order, s)[i] < |rank| && rank[Filter(order, s)[i]] > low
  {
    if order != [] {
      FilterAbove(rank, order[1..], s, low);
    }
  }

  /** Inserting by rank adds the id to the filter. */
  lemma {:induction false} PlaceFilters(rank: seq<nat>, order: seq<nat>, s: set<nat>, x: nat)
    requires Ranked(rank, order) && x in order && x !in s && x < |rank|
    ensures forall i :: 0 <= i < |Filter(order, s)| ==> Filter(order, s)[i] < |rank|
    ensures Place(rank, Filter(order, s), x) == Filter(order, s + {x})
  {
    FilterAbove(rank, order, s, -1);
    var h, t, f := order[0], order[1..], Filter(order[1..], s);
    FilterAbove(rank, t, s, rank[h]);
    assert Filter(order, s) == if h in s then [h] + f else f;
    if x == h {
      assert x !in t;
      FilterSame(t, s, x);
    } else {
      var k :| 0 <= k < |order| && order[k] == x;
      assert t[k - 1] == x && rank[h] < rank[x];
      PlaceFilters(rank, t, s, x);
      if h in s {
        assert ([h] + f)[1..] == f;
      }
    }
  }

  lemma {:induction false} FilterSame(order: seq<nat>, s: set<nat>, x: nat)
    requires x !in order
    ensures Filter(order, s + {x}) == Filter(order, s)
  {
    if order != [] {
      assert order[0] in order;
      FilterSame(order[1..], s, x);
    }
  }

  /** The touched ids by integer rank, which is their dictionary order. */
  method SortByRank(rank: seq<nat>, touched: seq<nat>, ghost order: seq<nat>) returns (ids: seq<nat>)
    requires Ranked(rank, order) && Distinct(touched)
    requires forall x :: x in touched ==> x in order && x < |rank|
    ensures ids == Filter(order, SetOf(touched))
  {
    ids := [];
    FilterNone(order, {});
    assert SetOf(touched[..0]) == {};
    for i := 0 to |touched|
      invariant ids == Filter(order, SetOf(touched[..i]))
    {
      var x := touched[i];
      assert x in touched;
      PlaceFilters(rank, order, SetOf(touched[..i]), x);
      assert SetOf(touched[..i + 1]) == SetOf(touched[..i]) + {x} by {
        assert touched[..i + 1] == touched[..i] + [x];
      }
      ids := Place(rank, ids, x);
    }
    assert touched[..|touched|] == touched;
  }

  ghost function SetOf(s: seq<nat>): set<nat> {
    set x | x in s
  }
}
