/** Ranked results: the total order (score descending, docid ascending), the bounded
    heap that keeps the best k offers, and the definition of "the top k" that every
    scoring path is held to. */
module Ranking {

  datatype ScoredDoc = ScoredDoc(docid: nat, score: real)

  /** The comparator shared by the heap, the drain and the exhaustive sort. */
  predicate Better(a: ScoredDoc, b: ScoredDoc) {
    a.score > b.score || (a.score == b.score && a.docid < b.docid)
  }

  /** Best first, no two entries equal in rank. */
  ghost predicate Ranked(s: seq<ScoredDoc>) {
    forall i, j :: 0 <= i < j < |s| ==> Better(s[i], s[j])
  }

  ghost predicate Truthful(e: ScoredDoc, totals: map<nat, real>) {
    e.docid in totals && e.score == totals[e.docid]
  }

  /** `r` is the top `k` of the documents in `totals`: ranked, truthful, of the right
      size, and every document left out is worse than the last, hence every, one kept. */
  ghost predicate IsTopK(r: seq<ScoredDoc>, totals: map<nat, real>, k: nat) {
    && Ranked(r)
    && |r| <= k
    && (forall e :: e in r ==> Truthful(e, totals))
    && (forall e :: Truthful(e, totals) && e !in r ==>
          |r| == k && (k > 0 ==> Better(r[k - 1], e)))
  }

  /** After the first `m` entries, entry `m` beats everything that is left. */
  lemma {:induction false} NextIsBest(r: seq<ScoredDoc>, totals: map<nat, real>, k: nat, m: nat, f: ScoredDoc)
    requires IsTopK(r, totals, k) && m < |r| && Truthful(f, totals) && f !in r[..m]
    ensures f == r[m] || Better(r[m], f)
  {
    assert forall j :: 0 <= j < m ==> r[j] == r[..m][j] != f;
    if f in r {
      var i :| 0 <= i < |r| && r[i] == f;
    } else {
      assert m < |r| - 1 ==> Better(r[m], r[|r| - 1]);
    }
  }

  lemma {:induction false} PrefixAgrees(r: seq<ScoredDoc>, s: seq<ScoredDoc>, totals: map<nat, real>, k: nat, n: nat)
    requires IsTopK(r, totals, k) && IsTopK(s, totals, k) && n <= |r| && n <= |s|
    ensures r[..n] == s[..n]
  {
    if n > 0 {
      PrefixAgrees(r, s, totals, k, n - 1);
      assert r[n - 1] in r && s[n - 1] in s;
      RankedHeadFresh(r, n - 1);
      RankedHeadFresh(s, n - 1);
      NextIsBest(r, totals, k, n - 1, s[n - 1]);
      NextIsBest(s, totals, k, n - 1, r[n - 1]);
      assert r[..n] == r[..n - 1] + [r[n - 1]] && s[..n] == s[..n - 1] + [s[n - 1]];
    }
  }

  lemma {:induction false} RankedHeadFresh(r: seq<ScoredDoc>, m: nat)
    requires Ranked(r) && m < |r|
    ensures r[m] !in r[..m]
  {
    forall i | 0 <= i < m ensures r[..m][i] != r[m] {
      assert Better(r[i], r[m]);
    }
  }

  /** The order spelled out: higher scores first, equal scores by ascending docid, and nothing
      left out of a full list scores more than its last entry, or as much at a smaller docid. */
  ghost predicate BestFirst(r: seq<ScoredDoc>, totals: map<nat, real>, k: nat) {
    && (forall i, j :: 0 <= i < j < |r| ==> r[i].score > r[j].score || (r[i].score == r[j].score && r[i].docid < r[j].docid))
    && (forall i :: 0 <= i < |r| ==> r[i].docid in totals && r[i].score == totals[r[i].docid])
    && forall d :: d in totals && (forall i :: 0 <= i < |r| ==> r[i].docid != d) ==>
         |r| == k && (k > 0 ==> totals[d] < r[k - 1].score || (totals[d] == r[k - 1].score && d > r[k - 1].docid))
  }

  lemma {:induction false} TopKBestFirst(r: seq<ScoredDoc>, totals: map<nat, real>, k: nat)
    requires IsTopK(r, totals, k)
    ensures BestFirst(r, totals, k)
  {
    forall i | 0 <= i < |r| ensures r[i].docid in totals && r[i].score == totals[r[i].docid] {
      assert r[i] in r;
    }
    forall d | d in totals && (forall i :: 0 <= i < |r| ==> r[i].docid != d)
      ensures |r| == k && (k > 0 ==> totals[d] < r[k - 1].score || (totals[d] == r[k - 1].score && d > r[k - 1].docid))
    {
      assert Truthful(ScoredDoc(d, totals[d]), totals);
    }
  }

  /** The definition leaves no freedom: two top-k lists of the same totals are equal. */
  lemma {:induction false} TopKUnique(r: seq<ScoredDoc>, s: seq<ScoredDoc>, totals: map<nat, real>, k: nat)
    requires IsTopK(r, totals, k) && IsTopK(s, totals, k)
    ensures r == s
  {
    if |r| <= |s| {
      SizeAgrees(r, s, totals, k);
    } else {
      SizeAgrees(s, r, totals, k);
    }
  }

  lemma {:induction false} SizeAgrees(r: seq<ScoredDoc>, s: seq<ScoredDoc>, totals: map<nat, real>, k: nat)
    requires IsTopK(r, totals, k) && IsTopK(s, totals, k) && |r| <= |s|
    ensures r == s
  {
    PrefixAgrees(r, s, totals, k, |r|);
    assert r[..|r|] == r && s[..|s|] == s;
    if |r| < |s| {
      assert s[|r|] in s;
      RankedHeadFresh(s, |r|);
      assert false;
    }
  }

  /** Places `e` behind every entry that beats it. */
  function Insert(s: seq<ScoredDoc>, e: ScoredDoc): seq<ScoredDoc> {
    if s == [] || Better(e, s[0]) then [e] + s else [s[0]] + Insert(s[1..], e)
  }

  lemma {:induction false} InsertMembers(s: seq<ScoredDoc>, e: ScoredDoc)
    ensures |Insert(s, e)| == |s| + 1
    ensures forall x :: x in Insert(s, e) <==> x == e || x in s
  {
    if s == [] || Better(e, s[0]) {
    } else {
      InsertMembers(s[1..], e);
      assert s == [s[0]] + s[1..];
    }
  }

  lemma {:induction false} ConsRanked(a: ScoredDoc, t: seq<ScoredDoc>)
    requires Ranked(t) && forall x :: x in t ==> Better(a, x)
    ensures Ranked([a] + t)
  {
    var s := [a] + t;
    forall i, j | 0 <= i < j < |s| ensures Better(s[i], s[j]) {
      assert s[j] == t[j - 1];
      if i == 0 {
        assert t[j - 1] in t;
      } else {
        assert s[i] == t[i - 1];
      }
    }
  }

  lemma {:induction false} InsertRanked(s: seq<ScoredDoc>, e: ScoredDoc)
    requires Ranked(s) && e !in s
    ensures Ranked(Insert(s, e))
  {
    if s == [] {
    } else if Better(e, s[0]) {
      forall x | x in s ensures Better(e, x) {
        var i :| 0 <= i < |s| && s[i] == x;
        assert i > 0 ==> Better(s[0], s[i]);
      }
      ConsRanked(e, s);
    } else {
      InsertRanked(s[1..], e);
      InsertMembers(s[1..], e);
      assert s[0] in s;
      forall x | x in Insert(s[1..], e) ensures Better(s[0], x) {
        if x in s[1..] {
          var i :| 0 <= i < |s[1..]| && s[1..][i] == x;
          assert s[i + 1] == x;
        }
      }
      ConsRanked(s[0], Insert(s[1..], e));
    }
  }

  /** Best first, equal entries allowed. */
  ghost predicate InOrder(s: seq<ScoredDoc>) {
    forall i, j :: 0 <= i < j < |s| ==> !Better(s[j], s[i])
  }

  lemma {:induction false} InsertInOrder(s: seq<ScoredDoc>, e: ScoredDoc)
    requires InOrder(s)
    ensures InOrder(Insert(s, e))
  {
    if s == [] || Better(e, s[0]) {
    } else {
      InsertInOrder(s[1..], e);
      InsertMembers(s[1..], e);
      var t := Insert(s[1..], e);
      forall j | 0 <= j < |t| ensures !Better(t[j], s[0]) {
        assert t[j] in t;
        assert t[j] == e || t[j] in s[1..];
      }
    }
  }

  lemma {:induction false} InsertCounts(s: seq<ScoredDoc>, e: ScoredDoc)
    ensures multiset(Insert(s, e)) == multiset(s) + multiset{e}
  {
    if s != [] && !Better(e, s[0]) {
      InsertCounts(s[1..], e);
      assert s == [s[0]] + s[1..];
    }
  }

  /** An offer, spelled out: entries stay best first; there is room, or the newcomer takes the
      place of the last entry when it scores more, or as much at a smaller docid. */
  ghost predicate Offers(was: seq<ScoredDoc>, k: nat, docid: nat, score: real, now: seq<ScoredDoc>) {
    && (forall i, j :: 0 <= i < j < |now| ==> now[i].score > now[j].score || (now[i].score == now[j].score && now[i].docid <= now[j].docid))
    && (|was| < k ==> multiset(now) == multiset(was) + multiset{ScoredDoc(docid, score)})
    && (|was| == k > 0 ==>
          var worst := was[k - 1];
          if score > worst.score || (score == worst.score && docid < worst.docid)
          then multiset(now) == multiset(was[..k - 1]) + multiset{ScoredDoc(docid, score)} else now == was)
    && (k == 0 ==> now == was)
  }

  lemma {:induction false} OfferedSpelled(heap: seq<ScoredDoc>, k: nat, docid: nat, score: real)
    requires InOrder(heap) && |heap| <= k
    ensures Offers(heap, k, docid, score, Offered(heap, k, ScoredDoc(docid, score)))
  {
    var e := ScoredDoc(docid, score);
    InsertCounts(heap, e);
    InsertInOrder(heap, e);
    if heap != [] {
      InsertCounts(heap[..|heap| - 1], e);
      InsertInOrder(heap[..|heap| - 1], e);
    }
    OrderSpelled(Offered(heap, k, e));
  }

  lemma {:induction false} OrderSpelled(s: seq<ScoredDoc>)
    requires InOrder(s)
    ensures forall i, j :: 0 <= i < j < |s| ==> s[i].score > s[j].score || (s[i].score == s[j].score && s[i].docid <= s[j].docid)
  {
    forall i, j | 0 <= i < j < |s| ensures s[i].score > s[j].score || (s[i].score == s[j].score && s[i].docid <= s[j].docid) {
      assert !Better(s[j], s[i]);
    }
  }

  /** The bounded heap. `heap` holds its entries best first, so the priority queue's top,
      the entry evicted next, is the last one. */
  class TopK {
    const k: nat
    var heap: seq<ScoredDoc>

    ghost predicate Valid()
      reads this
    {
      InOrder(heap) && |heap| <= k
    }

    constructor (k: nat)
      ensures Valid() && this.k == k && heap == []
    {
      this.k := k;
      heap := [];
    }

    method Offer(docid: nat, score: real)
      requires Valid()
      modifies this`heap
      ensures Valid() && heap == Offered(old(heap), k, ScoredDoc(docid, score))
      ensures Offers(old(heap), k, docid, score, heap)
    {
      OfferedSpelled(heap, k, docid, score);
      var e := ScoredDoc(docid, score);
      if |heap| < k {
        InsertInOrder(heap, e);
        InsertMembers(heap, e);
        heap := Insert(heap, e);
        return;
      }
      if heap == [] {
        return;
      }
      var worst := heap[|heap| - 1];
      if score > worst.score || (score == worst.score && docid < worst.docid) {
        InsertInOrder(heap[..|heap| - 1], e);
        InsertMembers(heap[..|heap| - 1], e);
        heap := Insert(heap[..|heap| - 1], e);
      }
    }

    /** Pops everything, worst first, and sorts it for the caller. */
    method DrainSorted() returns (out: seq<ScoredDoc>)
      requires Valid()
      modifies this`heap
      ensures Valid() && out == old(heap) && heap == []
    {
      var all := [];
      while heap != []
        invariant |heap| + |all| == |old(heap)| && heap == old(heap)[..|heap|]
        invariant forall i :: 0 <= i < |all| ==> all[i] == old(heap)[|old(heap)| - 1 - i]
        decreases |heap|
      {
        all := all + [heap[|heap| - 1]];
        heap := heap[..|heap| - 1];
      }
      out := [];
      var i := 0;
      while i < |all|
        invariant 0 <= i <= |all| && heap == [] && out == old(heap)[|all| - i..]
      {
        InsertFront(out, all[i]);
        out := Insert(out, all[i]);
        i := i + 1;
      }
    }
  }

  /** An entry no worse than the front goes to the front, up to equal entries. */
  lemma {:induction false} InsertFront(s: seq<ScoredDoc>, e: ScoredDoc)
    requires InOrder([e] + s)
    ensures Insert(s, e) == [e] + s
  {
    if s != [] && !Better(e, s[0]) {
      var t := [e] + s;
      assert t[0] == e && t[1] == s[0];
      assert !Better(t[1], t[0]);
      assert e == s[0];
      assert [e] + s[1..] == s == t[1..];
      InsertFront(s[1..], e);
    }
  }

  function Offered(heap: seq<ScoredDoc>, k: nat, e: ScoredDoc): seq<ScoredDoc> {
    if |heap| < k then Insert(heap, e)
    else if heap == [] then heap
    else if Better(e, heap[|heap| - 1]) then Insert(heap[..|heap| - 1], e)
    else heap
  }

  /** The pruning threshold: -1 until the heap is full, then its worst score. */
  function Threshold(heap: seq<ScoredDoc>, k: nat): real {
    if |heap| < k || heap == [] then -1.0 else heap[|heap| - 1].score
  }

  /** Offering the exact score of a new document keeps the heap the top k of the
      documents offered so far, and never lowers the bar. */
  lemma {:induction false} OfferKeepsTopK(heap: seq<ScoredDoc>, totals: map<nat, real>, k: nat, d: nat, score: real)
    requires IsTopK(heap, totals, k) && d !in totals
    ensures IsTopK(Offered(heap, k, ScoredDoc(d, score)), totals[d := score], k)
    ensures |heap| <= |Offered(heap, k, ScoredDoc(d, score))|
    ensures |heap| == k ==> Threshold(heap, k) <= Threshold(Offered(heap, k, ScoredDoc(d, score)), k)
  {
    var e := ScoredDoc(d, score);
    assert e !in heap;
    if |heap| < k {
      InsertRanked(heap, e);
      InsertMembers(heap, e);
    } else if heap != [] && Better(e, heap[|heap| - 1]) {
      EvictKeepsTopK(heap, totals, k, e);
    }
  }

  lemma {:induction false} EvictKeepsTopK(heap: seq<ScoredDoc>, totals: map<nat, real>, k: nat, e: ScoredDoc)
    requires IsTopK(heap, totals, k) && |heap| == k > 0 && e.docid !in totals && Better(e, heap[k - 1])
    ensures IsTopK(Insert(heap[..k - 1], e), totals[e.docid := e.score], k)
    ensures |Insert(heap[..k - 1], e)| == k && heap[k - 1].score <= Insert(heap[..k - 1], e)[k - 1].score
  {
    var kept, worst := heap[..k - 1], heap[k - 1];
    var heap' := Insert(kept, e);
    assert forall x :: x in kept ==> x in heap;
    InsertRanked(kept, e);
    InsertMembers(kept, e);
    assert heap == kept + [worst];
    forall x | x in heap' ensures Better(x, worst) {
      if x in kept {
        var i :| 0 <= i < |kept| && kept[i] == x;
        assert heap[i] == x;
      }
    }
    assert heap'[k - 1] in heap';
    var totals' := totals[e.docid := e.score];
    forall x | Truthful(x, totals') && x !in heap' ensures Better(heap'[k - 1], x) {
      assert x != e;
      assert Truthful(x, totals);
      assert x == worst || x !in heap;
    }
  }

  /** An offer strictly below a full heap's threshold changes nothing. */
  lemma {:induction false} OfferBelowThreshold(heap: seq<ScoredDoc>, k: nat, e: ScoredDoc)
    requires |heap| == k && e.score < Threshold(heap, k)
    ensures Offered(heap, k, e) == heap
  {
  }
}
