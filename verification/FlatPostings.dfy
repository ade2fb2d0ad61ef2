/** Postings as the three flat arrays the writer consumes, and the array operations of
    the accumulator and the run merge. */
module FlatPostings {
  import opened Postings

  /** `positions` is every document's positions in order, empty when disabled. */
  datatype Flat = Flat(docids: seq<nat>, freqs: seq<nat>, positions: seq<nat>)

  function AllPositions(g: seq<Doc>): seq<nat> {
    if g == [] then [] else AllPositions(g[..|g| - 1]) + g[|g| - 1].poss
  }

  /** The arrays of a document list. */
  function FlatOf(g: seq<Doc>, hasPos: bool): (f: Flat)
    ensures |f.docids| == |f.freqs| == |g|
    ensures forall i :: 0 <= i < |g| ==> f.docids[i] == g[i].docid && f.freqs[i] == |g[i].poss|
  {
    Flat(seq(|g|, i requires 0 <= i < |g| => g[i].docid),
         seq(|g|, i requires 0 <= i < |g| => |g[i].poss|),
         if hasPos then AllPositions(g) else [])
  }

  lemma {:induction false} AllPositionsConcat(a: seq<Doc>, b: seq<Doc>)
    ensures AllPositions(a + b) == AllPositions(a) + AllPositions(b)
  {
    if b == [] {
      assert a + b == a;
    } else {
      assert (a + b)[..|a + b| - 1] == a + b[..|b| - 1];
      AllPositionsConcat(a, b[..|b| - 1]);
    }
  }

  lemma {:induction false} OnePositions(x: Doc)
    ensures AllPositions([x]) == x.poss
  {
    var single := [x];
    assert single[..0] == [];
  }

  /** Folding the boundary documents keeps the flat positions. */
  lemma {:induction false} FoldPositions(init: seq<Doc>, last: Doc, first: Doc, rest: seq<Doc>)
    ensures AllPositions(init + [Doc(first.docid, last.poss + first.poss)] + rest) == AllPositions(init + [last]) + AllPositions([first] + rest)
  {
    var x := Doc(first.docid, last.poss + first.poss);
    AllPositionsConcat(init + [x], rest);
    AllPositionsConcat(init, [x]);
    AllPositionsConcat(init, [last]);
    AllPositionsConcat([first], rest);
    OnePositions(x);
    OnePositions(last);
    OnePositions(first);
    Regroup(AllPositions(init), last.poss, first.poss, AllPositions(rest));
  }

  lemma {:induction false} ConcatAllPositions(a: seq<Doc>, b: seq<Doc>)
    ensures AllPositions(Concat(a, b)) == AllPositions(a) + AllPositions(b)
  {
    if b != [] && a != [] && a[|a| - 1].docid == b[0].docid {
      FoldPositions(a[..|a| - 1], a[|a| - 1], b[0], b[1..]);
      assert a == a[..|a| - 1] + [a[|a| - 1]] && b == [b[0]] + b[1..];
    } else {
      AllPositionsConcat(a, b);
    }
  }

  /** The docid and freq arrays of a concatenation, with and without a shared boundary. */
  lemma {:induction false} BoundaryArrays(a: seq<Doc>, b: seq<Doc>, hasPos: bool)
    requires a != [] && b != [] && a[|a| - 1].docid == b[0].docid
    ensures var x, y, c := FlatOf(a, hasPos), FlatOf(b, hasPos), FlatOf(Concat(a, b), hasPos);
            && c.docids == x.docids + y.docids[1..]
            && c.freqs == x.freqs[|x.freqs| - 1 := x.freqs[|x.freqs| - 1] + y.freqs[0]] + y.freqs[1..]
  {
    var n, c := |a| - 1, Concat(a, b);
    var x, y, z := FlatOf(a, hasPos), FlatOf(b, hasPos), FlatOf(c, hasPos);
    BoundaryDocs(a, b);
    assert z.docids == x.docids + y.docids[1..];
    var head := x.freqs[n := x.freqs[n] + y.freqs[0]];
    forall i | 0 <= i < |c| ensures z.freqs[i] == (head + y.freqs[1..])[i] {
      assert i > n ==> y.freqs[1..][i - |a|] == y.freqs[i - n];
    }
  }

  lemma {:induction false} BoundaryDocs(a: seq<Doc>, b: seq<Doc>)
    requires a != [] && b != [] && a[|a| - 1].docid == b[0].docid
    ensures var n, c := |a| - 1, Concat(a, b);
            && |c| == n + |b| && c[n] == Doc(b[0].docid, a[n].poss + b[0].poss)
            && (forall i :: 0 <= i < n ==> c[i] == a[i])
            && (forall i :: n < i < |c| ==> c[i] == b[i - n])
  {
    var n, c := |a| - 1, Concat(a, b);
    assert forall i :: n < i < |c| ==> c[i] == b[1..][i - |a|];
  }

  lemma {:induction false} PlainArrays(a: seq<Doc>, b: seq<Doc>, hasPos: bool)
    requires b != [] && (a == [] || a[|a| - 1].docid != b[0].docid)
    ensures var x, y, c := FlatOf(a, hasPos), FlatOf(b, hasPos), FlatOf(Concat(a, b), hasPos);
            c.docids == x.docids + y.docids && c.freqs == x.freqs + y.freqs
  {
    assert Concat(a, b) == a + b;
  }

  lemma {:induction false} SameArrays(g: seq<Doc>, hasPos: bool)
    ensures FlatOf(g, hasPos).docids == FlatOf(g, false).docids && FlatOf(g, hasPos).freqs == FlatOf(g, false).freqs
  {
  }

  lemma {:induction false} SplitJoin(a: seq<nat>, b: seq<nat>, k: nat)
    requires k <= |b|
    ensures a + b[..k] + b[k..] == a + b && (k == 0 ==> a + b[k..] == a + b)
  {
  }

  /** Appends `src` behind `dst`, folding a shared boundary document. */
  method ConcatRuns(dst: Flat, src: Flat, hasPos: bool, ghost a: seq<Doc>, ghost b: seq<Doc>) returns (r: Flat)
    requires dst == FlatOf(a, hasPos) && src == FlatOf(b, hasPos)
    ensures r == FlatOf(Concat(a, b), hasPos)
  {
    if src.docids == [] {
      return dst;
    }
    var start, srcPosStart := 0, 0;
    var docids, freqs, positions := dst.docids, dst.freqs, dst.positions;
    ghost var c := FlatOf(Concat(a, b), hasPos);
    if docids != [] && docids[|docids| - 1] == src.docids[0] {
      BoundaryArrays(a, b, hasPos);
      var headFc := src.freqs[0];
      if hasPos {
        HeadPositions(b);
        if headFc != 0 {
          positions := positions + src.positions[..headFc];
        }
      }
      freqs := freqs[|freqs| - 1 := freqs[|freqs| - 1] + headFc];
      start, srcPosStart := 1, headFc;
    } else {
      PlainArrays(a, b, hasPos);
    }
    docids := docids + src.docids[start..];
    freqs := freqs + src.freqs[start..];
    assert docids == c.docids && freqs == c.freqs;
    if hasPos {
      ConcatAllPositions(a, b);
      SplitJoin(dst.positions, src.positions, srcPosStart);
      positions := positions + src.positions[srcPosStart..];
    }
    r := Flat(docids, freqs, positions);
  }

  lemma {:induction false} HeadPositions(b: seq<Doc>)
    requires b != []
    ensures |b[0].poss| <= |AllPositions(b)| && AllPositions(b)[..|b[0].poss|] == b[0].poss
  {
    assert b == [b[0]] + b[1..];
    AllPositionsConcat([b[0]], b[1..]);
    var single := [b[0]];
    assert single[..0] == [];
  }

  /** The wide-term variant: docids and freqs only. */
  method ConcatDocsFreqs(dst: Flat, src: Flat, ghost a: seq<Doc>, ghost b: seq<Doc>) returns (r: Flat)
    requires dst == FlatOf(a, false) && src.docids == FlatOf(b, false).docids && src.freqs == FlatOf(b, false).freqs
    ensures r == FlatOf(Concat(a, b), false)
  {
    if src.docids == [] {
      return dst;
    }
    var start := 0;
    var docids, freqs := dst.docids, dst.freqs;
    if docids != [] && docids[|docids| - 1] == src.docids[0] {
      BoundaryArrays(a, b, false);
      freqs := freqs[|freqs| - 1 := freqs[|freqs| - 1] + src.freqs[0]];
      start := 1;
    } else {
      PlainArrays(a, b, false);
    }
    r := Flat(docids + src.docids[start..], freqs + src.freqs[start..], []);
  }

  // ----- decoding's step

  /** Counts one token into the arrays; a new document gets an entry first. */
  function PushFlat(f: Flat, t: Tok, newDoc: bool, hasPos: bool): Flat
    requires newDoc || f.freqs != []
  {
    var freqs := if newDoc then f.freqs + [0] else f.freqs;
    Flat(if newDoc then f.docids + [t.docid] else f.docids,
         freqs[|freqs| - 1 := freqs[|freqs| - 1] + 1],
         if hasPos then f.positions + [t.pos] else f.positions)
  }

  lemma {:induction false} PushFlatIsPush(g: seq<Doc>, t: Tok, hasPos: bool)
    ensures var newDoc := g == [] || g[|g| - 1].docid != t.docid;
            PushFlat(FlatOf(g, hasPos), t, newDoc, hasPos) == FlatOf(Push(g, t), hasPos)
  {
    var newDoc := g == [] || g[|g| - 1].docid != t.docid;
    var f, e := PushFlat(FlatOf(g, hasPos), t, newDoc, hasPos), FlatOf(Push(g, t), hasPos);
    PushPositions(g, t);
    PushCounts(g, t, hasPos);
  }

  lemma {:induction false} PushCounts(g: seq<Doc>, t: Tok, hasPos: bool)
    ensures var newDoc := g == [] || g[|g| - 1].docid != t.docid;
            var f, e := PushFlat(FlatOf(g, hasPos), t, newDoc, hasPos), FlatOf(Push(g, t), hasPos);
            f.docids == e.docids && f.freqs == e.freqs
  {
    var f, h := FlatOf(g, hasPos), Push(g, t);
    if g == [] || g[|g| - 1].docid != t.docid {
      assert h == g + [Doc(t.docid, [t.pos])];
    } else {
      assert |h| == |g| && h[|g| - 1].docid == t.docid && |h[|g| - 1].poss| == |g[|g| - 1].poss| + 1;
      assert forall i :: 0 <= i < |g| - 1 ==> h[i] == g[i];
    }
  }

  lemma {:induction false} PushPositions(g: seq<Doc>, t: Tok)
    ensures AllPositions(Push(g, t)) == AllPositions(g) + [t.pos]
  {
    var h := Push(g, t);
    if g == [] || g[|g| - 1].docid != t.docid {
      assert h[..|h| - 1] == g;
    } else {
      assert h[..|h| - 1] == g[..|g| - 1];
    }
  }

  // ----- the defensive reordering on arrays

  /** Document indices in stable docid order. */
  function InsIndex(order: seq<nat>, docids: seq<nat>, x: nat): (r: seq<nat>)
    requires x < |docids| && forall i :: 0 <= i < |order| ==> order[i] < |docids|
    ensures |r| == |order| + 1 && forall i :: 0 <= i < |r| ==> r[i] < |docids|
  {
    if order == [] || docids[order[|order| - 1]] <= docids[x] then order + [x]
    else InsIndex(order[..|order| - 1], docids, x) + [order[|order| - 1]]
  }

  function StableOrder(docids: seq<nat>, n: nat): (r: seq<nat>)
    requires n <= |docids|
    ensures |r| == n && forall i :: 0 <= i < |r| ==> r[i] < |docids|
  {
    if n == 0 then [] else InsIndex(StableOrder(docids, n - 1), docids, n - 1)
  }

  ghost function Pick(g: seq<Doc>, order: seq<nat>): (r: seq<Doc>)
    requires forall i :: 0 <= i < |order| ==> order[i] < |g|
    ensures |r| == |order| && forall i :: 0 <= i < |r| ==> r[i] == g[order[i]]
  {
    seq(|order|, i requires 0 <= i < |order| => g[order[i]])
  }

  lemma {:induction false} InsIndexPicks(g: seq<Doc>, order: seq<nat>, x: nat)
    requires x < |g| && forall i :: 0 <= i < |order| ==> order[i] < |g|
    ensures Pick(g, InsIndex(order, FlatOf(g, false).docids, x)) == Ins(Pick(g, order), g[x])
  {
    var docids := FlatOf(g, false).docids;
    if order == [] || docids[order[|order| - 1]] <= docids[x] {
    } else {
      InsIndexPicks(g, order[..|order| - 1], x);
      assert Pick(g, order)[..|order| - 1] == Pick(g, order[..|order| - 1]);
    }
  }

  lemma {:induction false} StableOrderPicks(g: seq<Doc>, n: nat)
    requires n <= |g|
    ensures Pick(g, StableOrder(FlatOf(g, false).docids, n)) == StableSort(g[..n])
  {
    var docids := FlatOf(g, false).docids;
    if n > 0 {
      StableOrderPicks(g, n - 1);
      assert g[..n][..n - 1] == g[..n - 1];
      InsIndexPicks(g, StableOrder(docids, n - 1), n - 1);
    } else {
      assert g[..0] == [];
    }
  }

  /** Document `k`'s positions are the `freqs[k]` entries at its running offset. */
  lemma {:induction false} PositionSlice(g: seq<Doc>, k: nat)
    requires k < |g|
    ensures |AllPositions(g[..k])| + |g[k].poss| <= |AllPositions(g)|
    ensures AllPositions(g)[|AllPositions(g[..k])|..|AllPositions(g[..k])| + |g[k].poss|] == g[k].poss
  {
    assert g == g[..k + 1] + g[k + 1..];
    AllPositionsConcat(g[..k + 1], g[k + 1..]);
    assert g[..k + 1][..k] == g[..k];
  }

  /** Prefix sums of the frequencies. */
  method PositionOffsets(freqs: seq<nat>, ghost g: seq<Doc>) returns (off: seq<nat>)
    requires freqs == FlatOf(g, false).freqs
    ensures |off| == |freqs| && forall k :: 0 <= k < |off| ==> off[k] == |AllPositions(g[..k])|
  {
    off := [];
    var running := 0;
    for k := 0 to |freqs|
      invariant |off| == k && running == |AllPositions(g[..k])|
      invariant forall j :: 0 <= j < k ==> off[j] == |AllPositions(g[..j])|
    {
      assert g[..k + 1][..k] == g[..k];
      off := off + [running];
      running := running + freqs[k];
    }
  }

  /** Document `k` of the arrays on its own. */
  function Piece(f: Flat, off: nat, k: nat, hasPos: bool, ghost g: seq<Doc>): (r: Flat)
    requires k < |g| && f == FlatOf(g, hasPos) && off == |AllPositions(g[..k])|
    ensures r == FlatOf([g[k]], hasPos)
  {
    PositionSlice(g, k);
    var single := [g[k]];
    assert single[..0] == [];
    assert AllPositions(single) == g[k].poss;
    var r := Flat([f.docids[k]], [f.freqs[k]], if hasPos then f.positions[off..off + f.freqs[k]] else []);
    var e := FlatOf(single, hasPos);
    assert r.docids == e.docids && r.freqs == e.freqs;
    r
  }

  /** Stable docid order with revisited documents folded into one entry. */
  method SortByDocid(f: Flat, hasPos: bool, ghost g: seq<Doc>) returns (r: Flat)
    requires f == FlatOf(g, hasPos)
    ensures r == FlatOf(Coalesce(StableSort(g)), hasPos)
  {
    var n := |f.docids|;
    SameArrays(g, hasPos);
    var order := StableOrder(f.docids, n);
    StableOrderPicks(g, n);
    ghost var sorted := StableSort(g);
    assert g[..n] == g && Pick(g, order) == sorted;
    var off := PositionOffsets(f.freqs, g);
    r := Flat([], [], []);
    for i := 0 to n
      invariant |sorted| == n && r == FlatOf(Coalesce(sorted[..i]), hasPos)
    {
      var k := order[i];
      assert sorted[i] == g[k];
      SnocCoalesce(sorted, i);
      r := ConcatRuns(r, Piece(f, off[k], k, hasPos, g), hasPos, Coalesce(sorted[..i]), [g[k]]);
    }
    assert sorted[..n] == sorted;
  }

  lemma {:induction false} SnocCoalesce(s: seq<Doc>, i: nat)
    requires i < |s|
    ensures Coalesce(s[..i + 1]) == Concat(Coalesce(s[..i]), [s[i]])
  {
    assert s[..i + 1][..i] == s[..i];
  }

  // ----- frequency sums

  function SumFreqs(freqs: seq<nat>): nat {
    if freqs == [] then 0 else SumFreqs(freqs[..|freqs| - 1]) + freqs[|freqs| - 1]
  }

  lemma {:induction false} SumIsTokens(g: seq<Doc>)
    ensures SumFreqs(FlatOf(g, false).freqs) == |AllPositions(g)|
  {
    if g != [] {
      SumIsTokens(g[..|g| - 1]);
      assert FlatOf(g, false).freqs[..|g| - 1] == FlatOf(g[..|g| - 1], false).freqs;
    }
  }

  lemma {:induction false} SumPrefix(freqs: seq<nat>, n: nat, m: nat)
    requires n <= m <= |freqs|
    ensures SumFreqs(freqs[..n]) <= SumFreqs(freqs[..m])
    decreases m
  {
    if n < m {
      assert freqs[..m][..m - 1] == freqs[..m - 1];
      SumPrefix(freqs, n, m - 1);
    }
  }

  lemma {:induction false} WithinTotal(freqs: seq<nat>, n: nat)
    requires n <= |freqs|
    ensures SumFreqs(freqs[..n]) <= SumFreqs(freqs)
  {
    SumPrefix(freqs, n, |freqs|);
    assert freqs[..|freqs|] == freqs;
  }

  method SumRange(freqs: seq<nat>, lo: nat, hi: nat) returns (sum: nat)
    requires lo <= hi <= |freqs|
    ensures SumFreqs(freqs[..lo]) + sum == SumFreqs(freqs[..hi])
  {
    sum := 0;
    for i := lo to hi
      invariant SumFreqs(freqs[..lo]) + sum == SumFreqs(freqs[..i])
    {
      assert freqs[..i + 1][..i] == freqs[..i];
      sum := sum + freqs[i];
    }
  }
}
