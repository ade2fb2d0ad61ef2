/** Set algebra on ascending docid lists: intersection, union of two, and the heap-driven
    union of many. */
module DocidSets {

  ghost predicate Ascending(s: seq<nat>) {
    forall i, j :: 0 <= i < j < |s| ==> s[i] < s[j]
  }

  lemma {:induction false} AscendingSnoc(s: seq<nat>, d: nat)
    requires Ascending(s) && (s != [] ==> s[|s| - 1] < d)
    ensures Ascending(s + [d])
  {
    forall i, j | 0 <= i < j < |s + [d]| ensures (s + [d])[i] < (s + [d])[j] {
      assert j == |s| ==> s[i] <= s[|s| - 1];
    }
  }

  /** Two ascending lists with the same members are the same list. */
  lemma {:induction false} InitMember(a: seq<nat>, d: nat)
    requires Ascending(a) && a != []
    ensures d in a[..|a| - 1] <==> d in a && d != a[|a| - 1]
    ensures d in a ==> d <= a[|a| - 1]
  {
    if d in a && d != a[|a| - 1] {
      var i :| 0 <= i < |a| && a[i] == d;
      assert a[..|a| - 1][i] == d;
    }
  }

  lemma {:induction false} AscendingUnique(a: seq<nat>, b: seq<nat>)
    requires Ascending(a) && Ascending(b) && forall d :: d in a <==> d in b
    ensures a == b
  {
    assert (a != [] ==> a[0] in b) && (b != [] ==> b[0] in a);
    if a != [] && b != [] {
      var x, y := a[|a| - 1], b[|b| - 1];
      InitMember(a, y);
      InitMember(b, x);
      assert x in b && y in a;
      var a', b' := a[..|a| - 1], b[..|b| - 1];
      forall d ensures d in a' <==> d in b' {
        InitMember(a, d);
        InitMember(b, d);
      }
      AscendingUnique(a', b');
      assert a == a' + [x] && b == b' + [y];
    }
  }

  method IntersectSorted(a: seq<nat>, b: seq<nat>) returns (out: seq<nat>)
    requires Ascending(a) && Ascending(b)
    ensures Ascending(out)
    ensures forall d :: d in out <==> d in a && d in b
  {
    var i: nat, j: nat := 0, 0;
    out := [];
    while i < |a| && j < |b|
      invariant i <= |a| && j <= |b|
      invariant Ascending(out) && (out != [] && i < |a| ==> out[|out| - 1] < a[i])
      invariant forall y :: 0 <= y < j && i < |a| ==> b[y] < a[i]
      invariant forall x :: 0 <= x < |out| ==> out[x] in a && out[x] in b
      invariant forall x :: 0 <= x < i && a[x] in b ==> a[x] in out
      decreases |a| - i + |b| - j
    {
      if a[i] < b[j] {
        assert a[i] !in b;
        i := i + 1;
      } else if b[j] < a[i] {
        j := j + 1;
      } else {
        AscendingSnoc(out, a[i]);
        out := out + [a[i]];
        i, j := i + 1, j + 1;
      }
    }
    forall x | i <= x < |a| ensures a[x] !in b {
    }
  }

  /** `merged` ends below everything not yet read from `s`. */
  ghost predicate EndsBelow(merged: seq<nat>, s: seq<nat>, i: nat) {
    merged != [] && i < |s| ==> merged[|merged| - 1] < s[i]
  }

  ghost predicate FromEither(merged: seq<nat>, a: seq<nat>, b: seq<nat>) {
    forall x :: 0 <= x < |merged| ==> merged[x] in a || merged[x] in b
  }

  /** The first `i` of `s` are in. */
  ghost predicate Taken(merged: seq<nat>, s: seq<nat>, i: nat) {
    i <= |s| && forall x :: 0 <= x < i ==> s[x] in merged
  }

  /** Appending the next docid of either list. */
  lemma {:induction false} TakenSnoc(merged: seq<nat>, a: seq<nat>, b: seq<nat>, i: nat, j: nat)
    requires FromEither(merged, a, b) && Taken(merged, a, i) && Taken(merged, b, j)
    ensures i < |a| ==> var m := merged + [a[i]]; FromEither(m, a, b) && Taken(m, a, i + 1) && Taken(m, b, j)
    ensures j < |b| ==> var m := merged + [b[j]]; FromEither(m, a, b) && Taken(m, a, i) && Taken(m, b, j + 1)
    ensures i < |a| && j < |b| && a[i] == b[j] ==> Taken(merged + [a[i]], b, j + 1)
  {
  }

  method UnionSortedInto(acc: seq<nat>, next: seq<nat>) returns (merged: seq<nat>)
    requires Ascending(acc) && Ascending(next)
    ensures Ascending(merged)
    ensures forall d :: d in merged <==> d in acc || d in next
  {
    var i: nat, j: nat := 0, 0;
    merged := [];
    while i < |acc| || j < |next|
      invariant i <= |acc| && j <= |next|
      invariant Ascending(merged) && EndsBelow(merged, acc, i) && EndsBelow(merged, next, j)
      invariant FromEither(merged, acc, next) && Taken(merged, acc, i) && Taken(merged, next, j)
      decreases |acc| - i + |next| - j
    {
      TakenSnoc(merged, acc, next, i, j);
      if j == |next| || (i < |acc| && acc[i] < next[j]) {
        AscendingSnoc(merged, acc[i]);
        merged, i := merged + [acc[i]], i + 1;
      } else if i == |acc| || next[j] < acc[i] {
        AscendingSnoc(merged, next[j]);
        merged, j := merged + [next[j]], j + 1;
      } else {
        AscendingSnoc(merged, acc[i]);
        merged, i, j := merged + [acc[i]], i + 1, j + 1;
      }
    }
  }

  // ----- union of many lists, by a min-heap of cursors

  datatype Head = Head(docid: nat, list: nat, offset: nat)

  /** `h` is the next unread docid of its list. */
  ghost predicate HeadOf(lists: seq<seq<nat>>, done: seq<nat>, h: Head)
    requires |done| == |lists|
  {
    h.list < |lists| && h.offset == done[h.list] < |lists[h.list]| && h.docid == lists[h.list][h.offset]
  }

  ghost predicate Queued(lists: seq<seq<nat>>, done: seq<nat>, heap: seq<Head>, i: nat)
    requires |done| == |lists| && i < |lists|
  {
    done[i] < |lists[i]| ==> exists x :: 0 <= x < |heap| && heap[x].list == i
  }

  /** The heap holds the head of every list that has one, once. */
  ghost predicate HeapHolds(lists: seq<seq<nat>>, done: seq<nat>, heap: seq<Head>) {
    && |done| == |lists|
    && (forall x :: 0 <= x < |heap| ==> HeadOf(lists, done, heap[x]))
    && (forall x, y :: 0 <= x < y < |heap| ==> heap[x].list != heap[y].list)
    && (forall i: nat {:trigger Queued(lists, done, heap, i)} :: i < |lists| ==> Queued(lists, done, heap, i))
  }

  ghost predicate InSome(lists: seq<seq<nat>>, d: nat) {
    exists i :: 0 <= i < |lists| && d in lists[i]
  }

  ghost predicate ReadOut(list: seq<nat>, n: nat, out: seq<nat>) {
    n <= |list| && forall k :: 0 <= k < n ==> list[k] in out
  }

  /** What has been read so far is what has been written out. */
  ghost predicate Emitted(lists: seq<seq<nat>>, done: seq<nat>, out: seq<nat>) {
    && |done| == |lists|
    && (forall i {:trigger ReadOut(lists[i], done[i], out)} :: 0 <= i < |lists| ==> ReadOut(lists[i], done[i], out))
    && (forall x :: 0 <= x < |out| ==> InSome(lists, out[x]))
  }

  method SmallestHead(heap: seq<Head>) returns (m: nat)
    requires heap != []
    ensures m < |heap| && forall x :: 0 <= x < |heap| ==> heap[m].docid <= heap[x].docid
  {
    m := 0;
    for x := 1 to |heap|
      invariant m < |heap| && forall y :: 0 <= y < x ==> heap[m].docid <= heap[y].docid
    {
      if heap[x].docid < heap[m].docid {
        m := x;
      }
    }
  }

  method SeedHeap(lists: seq<seq<nat>>) returns (heap: seq<Head>)
    ensures HeapHolds(lists, seq(|lists|, _ => 0), heap)
  {
    heap := [];
    ghost var zero := seq(|lists|, _ => 0);
    for i := 0 to |lists|
      invariant forall x :: 0 <= x < |heap| ==> HeadOf(lists, zero, heap[x]) && heap[x].list < i
      invariant forall x, y :: 0 <= x < y < |heap| ==> heap[x].list != heap[y].list
      invariant forall k: nat {:trigger Queued(lists, zero, heap, k)} :: k < i ==> Queued(lists, zero, heap, k)
    {
      if lists[i] != [] {
        ghost var was := heap;
        heap := heap + [Head(lists[i][0], i, 0)];
        assert heap[|was|].list == i;
        forall k: nat | k < i && 0 < |lists[k]| ensures Queued(lists, zero, heap, k) {
          assert Queued(lists, zero, was, k);
          var x :| 0 <= x < |was| && was[x].list == k;
          assert heap[x].list == k;
        }
      }
    }
  }

  /** Popping one head and pushing that list's next docid. */
  lemma {:induction false} AdvanceHead(lists: seq<seq<nat>>, done: seq<nat>, heap: seq<Head>, m: nat, done': seq<nat>, next: seq<Head>)
    requires HeapHolds(lists, done, heap) && m < |heap| && done' == done[heap[m].list := heap[m].offset + 1]
    requires
      var h := heap[m];
      next == heap[..m] + heap[m + 1..] + (if h.offset + 1 < |lists[h.list]| then [Head(lists[h.list][h.offset + 1], h.list, h.offset + 1)] else [])
    ensures HeapHolds(lists, done', next)
  {
    var h := heap[m];
    assert forall x :: 0 <= x < |heap| - 1 ==> next[x] == heap[if x < m then x else x + 1];
    forall i: nat | i < |lists| ensures Queued(lists, done', next, i) {
      if i == h.list {
        if h.offset + 1 < |lists[i]| {
          assert next[|heap| - 1].list == i;
        }
      } else if done[i] < |lists[i]| {
        assert Queued(lists, done, heap, i);
        var x :| 0 <= x < |heap| && heap[x].list == i;
        assert next[if x < m then x else x - 1] == heap[x];
      }
    }
  }

  ghost predicate AtMost(d: nat, heap: seq<Head>) {
    forall x :: 0 <= x < |heap| ==> d <= heap[x].docid
  }

  /** Pop the smallest head and push that list's next docid, if it has one. */
  method PopAndRefill(lists: seq<seq<nat>>, heap: seq<Head>, ghost done: seq<nat>)
    returns (h: Head, next: seq<Head>, ghost done': seq<nat>)
    requires heap != [] && HeapHolds(lists, done, heap)
    requires forall i :: 0 <= i < |lists| ==> Ascending(lists[i])
    ensures AtMost(h.docid, next)
    ensures exists m :: 0 <= m < |heap| && heap[m] == h
    ensures HeadOf(lists, done, h) && done' == done[h.list := h.offset + 1]
    ensures HeapHolds(lists, done', next)
  {
    var m := SmallestHead(heap);
    h := heap[m];
    next := heap[..m] + heap[m + 1..];
    assert AtMost(h.docid, next);
    done' := done[h.list := h.offset + 1];
    if h.offset + 1 < |lists[h.list]| {
      assert Ascending(lists[h.list]);
      next := next + [Head(lists[h.list][h.offset + 1], h.list, h.offset + 1)];
    }
    AdvanceHead(lists, done, heap, m, done', next);
  }

  lemma {:induction false} AllEmitted(lists: seq<seq<nat>>, done: seq<nat>, out: seq<nat>)
    requires HeapHolds(lists, done, []) && Emitted(lists, done, out)
    ensures forall d :: d in out <==> InSome(lists, d)
  {
    forall d | InSome(lists, d) ensures d in out {
      var i :| 0 <= i < |lists| && d in lists[i];
      assert Queued(lists, done, [], i) && ReadOut(lists[i], done[i], out);
    }
  }

  method UnionSortedMany(lists: seq<seq<nat>>) returns (out: seq<nat>)
    requires forall i :: 0 <= i < |lists| ==> Ascending(lists[i])
    ensures Ascending(out)
    ensures forall d :: d in out <==> InSome(lists, d)
  {
    var heap := SeedHeap(lists);
    ghost var done: seq<nat> := seq(|lists|, _ => 0);
    out := [];
    assert Emitted(lists, done, out);
    while heap != []
      invariant HeapHolds(lists, done, heap) && Emitted(lists, done, out)
      invariant Ascending(out) && (out != [] ==> AtMost(out[|out| - 1], heap))
      decreases Remaining(lists, done)
    {
      ghost var before, was := out, done;
      var h: Head;
      h, heap, done := PopAndRefill(lists, heap, done);
      RemainingDrops(lists, was, h.list);
      if out == [] || out[|out| - 1] != h.docid {
        AscendingSnoc(out, h.docid);
        out := out + [h.docid];
      }
      EmittedStep(lists, was, before, out, h);
    }
    AllEmitted(lists, done, out);
  }

  lemma {:induction false} EmittedStep(lists: seq<seq<nat>>, done: seq<nat>, before: seq<nat>, out: seq<nat>, h: Head)
    requires Emitted(lists, done, before) && HeadOf(lists, done, h)
    requires out == before + [h.docid] || (out == before && h.docid in before)
    ensures Emitted(lists, done[h.list := h.offset + 1], out)
  {
    var done' := done[h.list := h.offset + 1];
    forall i | 0 <= i < |lists| ensures ReadOut(lists[i], done'[i], out) {
      assert ReadOut(lists[i], done[i], before);
    }
    assert h.docid in lists[h.list];
  }

  ghost function Remaining(lists: seq<seq<nat>>, done: seq<nat>): nat
    requires |done| == |lists|
  {
    if lists == [] then 0
    else (if done[0] < |lists[0]| then |lists[0]| - done[0] else 0) + Remaining(lists[1..], done[1..])
  }

  lemma {:induction false} RemainingDrops(lists: seq<seq<nat>>, done: seq<nat>, i: nat)
    requires |done| == |lists| && i < |lists| && done[i] < |lists[i]|
    ensures Remaining(lists, done[i := done[i] + 1]) < Remaining(lists, done)
  {
    var done' := done[i := done[i] + 1];
    if i == 0 {
      assert done'[1..] == done[1..];
    } else {
      assert done'[1..] == done[1..][i - 1 := done[1..][i - 1] + 1];
      RemainingDrops(lists[1..], done[1..], i - 1);
    }
  }

  /** std::binary_search on a non-decreasing list. */
  ghost predicate Sorted(s: seq<nat>) {
    forall i, j :: 0 <= i < j < |s| ==> s[i] <= s[j]
  }

  method BinarySearch(s: seq<nat>, v: nat) returns (found: bool)
    requires Sorted(s)
    ensures found <==> v in s
  {
    var lo: nat, hi: nat := 0, |s|;
    while lo < hi
      invariant lo <= hi <= |s|
      invariant forall k :: 0 <= k < lo ==> s[k] < v
      invariant forall k :: hi <= k < |s| ==> v <= s[k]
    {
      var mid := lo + (hi - lo) / 2;
      if s[mid] < v {
        lo := mid + 1;
      } else {
        hi := mid;
      }
    }
    found := lo < |s| && s[lo] == v;
  }
}
