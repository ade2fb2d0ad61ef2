/** The converse: a profile with a rising bound loses documents in some query. */
module WandProfiles {
  import opened Common
  import opened Ranking
  import opened Wand
  import opened WandSafety

  /** One term, three one-document windows with bounds 5, 1, 10. */
  function Dip(pos: nat): TermCursor {
    TermCursor([TermPosting(1, 5.0), TermPosting(2, 1.0), TermPosting(3, 10.0)],
               [WindowBound(1, 5.0), WindowBound(2, 1.0), WindowBound(3, 10.0)], pos)
  }

  lemma {:induction false} DipBounds()
    ensures ValidTerm(Dip(0)) && TermBoundAt(Dip(0), 1) == 5.0 && TermBoundAt(Dip(1), 2) == 1.0
  {
    var ws := Dip(0).windows;
    assert ws[1..] == [WindowBound(2, 1.0), WindowBound(3, 10.0)];
    assert ws[1..][1..] == [WindowBound(3, 10.0)];
    assert BoundIn(ws, 1) == 5.0 && BoundIn(ws, 2) == 1.0 && BoundIn(ws, 3) == 10.0;
  }

  lemma {:induction false} SortOne(c: TermCursor)
    ensures SortByDoc([c]) == [c]
  {
    assert SortByDoc([]) == [] && [c][1..] == [];
  }

  lemma {:induction false} DipStops(heap: seq<ScoredDoc>)
    requires |heap| == 1 && heap[0].score == 5.0
    ensures WandRun([Dip(1)], heap, 1) == heap
  {
    SortOne(Dip(1));
    DipBounds();
    var cs := [Dip(1)];
    assert cs[1..] == [];
    assert Pivot(cs, 0, 0.0, 5.0) == None;
  }

  /** The header's unconditional claim fails: the middle window of `Dip` ends the loop
      before the best document is reached. */
  lemma {:induction false} RisingBoundLosesBest()
    ensures ValidTerm(Dip(0)) && WandResult([Dip(0)], 1) == [ScoredDoc(1, 5.0)]
    ensures !IsTopK(WandResult([Dip(0)], 1), Totals([Dip(0)]), 1)
  {
    DipBounds();
    var c, heap := Dip(0), [ScoredDoc(1, 5.0)];
    var cs := [c];
    SortOne(c);
    DipStops(heap);
    assert cs[1..] == [];
    assert Pivot(cs, 0, 0.0, -1.0) == Some(0);
    assert ScoreAt(cs, 1) == 5.0;
    assert AdvanceAt(cs, 1) == [Dip(1)];
    assert WandRun(cs, [], 1) == WandRun([Dip(1)], heap, 1);
    ScoreInIs(c.postings, 3);
    assert c.postings[2].docid == 3;
    assert 3 in DocsOf(c.postings);
    assert DocScore(cs, 3) == 10.0;
    assert Truthful(ScoredDoc(3, 10.0), Totals(cs));
  }

  /** The window directory of one term as the prelude lists it. */
  ghost predicate ProperProfile(ws: seq<WindowBound>) {
    && (forall i, j :: 0 <= i < j < |ws| ==> ws[i].lastDocid < ws[j].lastDocid)
    && (forall i :: 0 <= i < |ws| ==> ws[i].lastDocid < NO_DOC && ws[i].maxScore >= 0.0)
  }

  /** A query over terms with profile `ws` and any number of non-rising terms. */
  ghost predicate QueryWith(ws: seq<WindowBound>, cs: seq<TermCursor>) {
    forall c :: c in cs ==> ValidTerm(c) && c.pos == 0 && (c.windows == ws || NonRising(c.windows))
  }

  /** WAND equals exhaustive scoring in every query over `ws`, whatever the postings. */
  ghost predicate AlwaysExact(ws: seq<WindowBound>) {
    forall cs: seq<TermCursor>, k: nat :: QueryWith(ws, cs) ==> IsTopK(WandResult(cs, k), Totals(cs), k)
  }

  /** The exact condition. */
  lemma {:induction false} ExactIffNonRising(ws: seq<WindowBound>)
    requires ProperProfile(ws)
    ensures AlwaysExact(ws) <==> NonRising(ws)
  {
    if NonRising(ws) {
      forall cs: seq<TermCursor>, k: nat | QueryWith(ws, cs) ensures IsTopK(WandResult(cs, k), Totals(cs), k) {
        WandIsTopK(cs, k);
      }
    } else {
      assert Roomy(ws, 1);
      var cs := LosingQuery(ws, 1);
    }
  }

  // ----- the same with full windows

  predicate InWindow(ws: seq<WindowBound>, w: nat, d: nat) {
    w < |ws| && d <= ws[w].lastDocid && (w > 0 ==> ws[w - 1].lastDocid < d)
  }

  /** Window `w` holds at least `m` of the term's documents. */
  ghost predicate HoldsMany(c: TermCursor, w: nat, m: nat)
    requires m > 0
  {
    exists i: nat :: i + m <= |c.postings| && InWindow(c.windows, w, c.postings[i].docid) && InWindow(c.windows, w, c.postings[i + m - 1].docid)
  }

  ghost predicate Crowded(c: TermCursor, m: nat)
    requires m > 0
  {
    forall w: nat {:trigger HoldsMany(c, w, m)} :: w < |c.windows| ==> HoldsMany(c, w, m)
  }

  ghost predicate HasRoom(ws: seq<WindowBound>, m: nat, w: nat)
    requires w < |ws|
  {
    (if w == 0 then 0 else ws[w - 1].lastDocid + 1) + m <= ws[w].lastDocid + 1
  }

  /** The docids leave room for `m` documents in every window. */
  ghost predicate Roomy(ws: seq<WindowBound>, m: nat) {
    forall w: nat {:trigger HasRoom(ws, m, w)} :: w < |ws| ==> HasRoom(ws, m, w)
  }

  /** A query over terms with profile `ws` and at least `m` documents in every window, and any
      number of non-rising terms. */
  ghost predicate CrowdedQuery(ws: seq<WindowBound>, m: nat, cs: seq<TermCursor>)
    requires m > 0
  {
    QueryWith(ws, cs) && forall c :: c in cs && !NonRising(c.windows) ==> Crowded(c, m)
  }

  ghost predicate AlwaysExactCrowded(ws: seq<WindowBound>, m: nat)
    requires m > 0
  {
    forall cs: seq<TermCursor>, k: nat :: CrowdedQuery(ws, m, cs) ==> IsTopK(WandResult(cs, k), Totals(cs), k)
  }

  /** Full windows do not help: the condition is the same however many documents every window
      must hold, the writer's 256 or 1024 among them. */
  lemma {:induction false} ExactIffNonRisingCrowded(ws: seq<WindowBound>, m: nat)
    requires m > 0 && ProperProfile(ws) && Roomy(ws, m)
    ensures AlwaysExactCrowded(ws, m) <==> NonRising(ws)
  {
    if NonRising(ws) {
      forall cs: seq<TermCursor>, k: nat | CrowdedQuery(ws, m, cs) ensures IsTopK(WandResult(cs, k), Totals(cs), k) {
        WandIsTopK(cs, k);
      }
    } else {
      var cs := LosingQuery(ws, m);
      assert CrowdedQuery(ws, m, cs);
    }
  }

  /** Three windows of `m` documents with bounds 5, 1, 10. */
  function DipOf(m: nat): seq<WindowBound>
    requires m > 1
  {
    [WindowBound(m - 1, 5.0), WindowBound(2 * m - 1, 1.0), WindowBound(3 * m - 1, 10.0)]
  }

  /** The dip loses a best document however full its windows. */
  lemma {:induction false} CrowdedDipLosesBest(m: nat) returns (cs: seq<TermCursor>)
    requires 1 < m && 3 * m <= NO_DOC
    ensures CrowdedQuery(DipOf(m), m, cs) && !IsTopK(WandResult(cs, 1), Totals(cs), 1)
  {
    assert DipOf(m)[1].maxScore < DipOf(m)[2].maxScore;
    cs := LosingQuery(DipOf(m), m);
  }

  // ----- the losing query: a term with its weight at the end of window j and little elsewhere,
  // and a term that opens the heap with a score between the two bounds

  /** A small score where the bound allows it: positive wherever the bound is. */
  function Part(bound: real, small: real): real {
    if bound < small then bound else small
  }

  /** `m` documents up to `last`, the last of them with a score of its own. */
  ghost function Batch(last: nat, m: nat, low: real, high: real): (ps: seq<TermPosting>)
    requires 0 < m <= last + 1
    ensures |ps| == m && forall r :: 0 <= r < m ==> ps[r] == TermPosting(last + 1 - m + r, if r == m - 1 then high else low)
  {
    seq(m, r requires 0 <= r < m => TermPosting(last + 1 - m + r, if r == m - 1 then high else low))
  }

  ghost function High(ws: seq<WindowBound>, j: nat, small: real, w: nat): real
    requires w < |ws|
  {
    if w == j then ws[w].maxScore else Part(ws[w].maxScore, small)
  }

  /** `m` postings in each of the first `n` windows. */
  ghost function SpikedUpTo(ws: seq<WindowBound>, m: nat, j: nat, small: real, n: nat): seq<TermPosting>
    requires m > 0 && Roomy(ws, m) && n <= |ws|
  {
    if n == 0 then [] else
      assert HasRoom(ws, m, n - 1);
      SpikedUpTo(ws, m, j, small, n - 1) + Batch(ws[n - 1].lastDocid, m, Part(ws[n - 1].maxScore, small), High(ws, j, small, n - 1))
  }

  ghost function Spiked(ws: seq<WindowBound>, m: nat, j: nat, small: real): TermCursor
    requires m > 0 && Roomy(ws, m)
  {
    TermCursor(SpikedUpTo(ws, m, j, small, |ws|), ws, 0)
  }

  ghost function Opener(theta: real, pos: nat): TermCursor {
    TermCursor([TermPosting(0, theta)], [WindowBound(0, theta)], pos)
  }

  lemma {:induction false} BoundInWindow(ws: seq<WindowBound>, w: nat, d: nat)
    requires ProperProfile(ws) && InWindow(ws, w, d)
    ensures BoundIn(ws, d) == ws[w].maxScore
  {
    if w > 0 {
      assert ws[1..][w - 1] == ws[w] && ws[0].lastDocid <= ws[w - 1].lastDocid;
      assert w > 1 ==> ws[1..][w - 2] == ws[w - 1];
      BoundInWindow(ws[1..], w - 1, d);
    }
  }

  /** Ascending postings of the first `n` windows, each within its bound. */
  ghost predicate Placed(ws: seq<WindowBound>, n: nat, ps: seq<TermPosting>) {
    && n <= |ws| && (n == 0 ==> ps == [])
    && (forall x, y :: 0 <= x < y < |ps| ==> ps[x].docid < ps[y].docid)
    && (forall x :: 0 <= x < |ps| ==> ps[x].docid <= ws[n - 1].lastDocid && 0.0 <= ps[x].score <= BoundIn(ws, ps[x].docid))
  }

  lemma {:induction false} BatchPlaced(ws: seq<WindowBound>, m: nat, j: nat, small: real, w: nat, r: nat)
    requires m > 0 && ProperProfile(ws) && Roomy(ws, m) && small >= 0.0 && w < |ws| && r < m <= ws[w].lastDocid + 1
    ensures var p := Batch(ws[w].lastDocid, m, Part(ws[w].maxScore, small), High(ws, j, small, w))[r];
            InWindow(ws, w, p.docid) && 0.0 <= p.score <= BoundIn(ws, p.docid) && (w != j ==> p.score <= small)
  {
    var d := ws[w].lastDocid + 1 - m + r;
    assert HasRoom(ws, m, w);
    BoundInWindow(ws, w, d);
  }

  lemma {:induction false} PlacedJoin(ws: seq<WindowBound>, n: nat, ps: seq<TermPosting>, more: seq<TermPosting>)
    requires ProperProfile(ws) && n < |ws| && Placed(ws, n, ps)
    requires forall x, y :: 0 <= x < y < |more| ==> more[x].docid < more[y].docid
    requires forall x :: 0 <= x < |more| ==> InWindow(ws, n, more[x].docid) && 0.0 <= more[x].score <= BoundIn(ws, more[x].docid)
    ensures Placed(ws, n + 1, ps + more)
  {
    assert n > 0 ==> ws[n - 1].lastDocid < ws[n].lastDocid;
  }

  /** A window's postings, on their own. */
  lemma {:induction false} WholeBatch(ws: seq<WindowBound>, m: nat, j: nat, small: real, w: nat) returns (more: seq<TermPosting>)
    requires m > 0 && ProperProfile(ws) && Roomy(ws, m) && small >= 0.0 && w < |ws|
    ensures SpikedUpTo(ws, m, j, small, w + 1) == SpikedUpTo(ws, m, j, small, w) + more
    ensures forall x, y :: 0 <= x < y < |more| ==> more[x].docid < more[y].docid
    ensures forall x :: 0 <= x < |more| ==> InWindow(ws, w, more[x].docid) && 0.0 <= more[x].score <= BoundIn(ws, more[x].docid)
    ensures w != j ==> AllSmall(more, small)
  {
    assert HasRoom(ws, m, w);
    more := Batch(ws[w].lastDocid, m, Part(ws[w].maxScore, small), High(ws, j, small, w));
    forall x | 0 <= x < |more|
      ensures InWindow(ws, w, more[x].docid) && 0.0 <= more[x].score <= BoundIn(ws, more[x].docid) && (w != j ==> more[x].score <= small)
    {
      BatchPlaced(ws, m, j, small, w, x);
    }
  }

  ghost predicate AllSmall(ps: seq<TermPosting>, small: real) {
    forall x :: 0 <= x < |ps| ==> ps[x].score <= small
  }

  lemma {:induction false} SpikedPlaced(ws: seq<WindowBound>, m: nat, j: nat, small: real, n: nat)
    requires m > 0 && ProperProfile(ws) && Roomy(ws, m) && small >= 0.0 && n <= |ws|
    ensures Placed(ws, n, SpikedUpTo(ws, m, j, small, n))
  {
    if n > 0 {
      SpikedPlaced(ws, m, j, small, n - 1);
      var more := WholeBatch(ws, m, j, small, n - 1);
      PlacedJoin(ws, n - 1, SpikedUpTo(ws, m, j, small, n - 1), more);
    }
  }

  /** There is little before window `j`. */
  lemma {:induction false} SpikedSmall(ws: seq<WindowBound>, m: nat, j: nat, small: real, n: nat)
    requires m > 0 && ProperProfile(ws) && Roomy(ws, m) && small >= 0.0 && n <= |ws| && n <= j
    ensures AllSmall(SpikedUpTo(ws, m, j, small, n), small)
  {
    if n > 0 {
      SpikedSmall(ws, m, j, small, n - 1);
      var more := WholeBatch(ws, m, j, small, n - 1);
    }
  }

  lemma {:induction false} SpikedPrefix(ws: seq<WindowBound>, m: nat, j: nat, small: real, n: nat, all: nat)
    requires m > 0 && Roomy(ws, m) && n <= all <= |ws|
    ensures SpikedUpTo(ws, m, j, small, n) <= SpikedUpTo(ws, m, j, small, all)
    decreases all
  {
    if n < all {
      SpikedPrefix(ws, m, j, small, n, all - 1);
    }
  }

  /** The first and the last of the documents in window `w`. */
  lemma {:induction false} SpikedEnds(ws: seq<WindowBound>, m: nat, j: nat, small: real, w: nat) returns (i: nat)
    requires m > 0 && ProperProfile(ws) && Roomy(ws, m) && small >= 0.0 && w < |ws|
    ensures i + m == |SpikedUpTo(ws, m, j, small, w + 1)|
    ensures var c := Spiked(ws, m, j, small);
            && i + m <= |c.postings| && c.postings[..i + m] == SpikedUpTo(ws, m, j, small, w + 1)
            && InWindow(ws, w, c.postings[i].docid) && c.postings[i + m - 1] == TermPosting(ws[w].lastDocid, High(ws, j, small, w))
  {
    SpikedPrefix(ws, m, j, small, w + 1, |ws|);
    assert HasRoom(ws, m, w);
    i := |SpikedUpTo(ws, m, j, small, w)|;
    BatchPlaced(ws, m, j, small, w, 0);
    var c, upTo := Spiked(ws, m, j, small), SpikedUpTo(ws, m, j, small, w + 1);
    assert upTo[i] == c.postings[i] && upTo[i + m - 1] == c.postings[i + m - 1];
  }

  /** Window `w`'s documents end at its last docid, with the spike if it is window `j`. */
  lemma {:induction false} SpikedWindow(ws: seq<WindowBound>, m: nat, j: nat, small: real, w: nat) returns (at: nat)
    requires m > 0 && ProperProfile(ws) && Roomy(ws, m) && small >= 0.0 && w < |ws|
    ensures var c := Spiked(ws, m, j, small);
            && at < |c.postings| && c.postings[at] == TermPosting(ws[w].lastDocid, High(ws, j, small, w))
            && (w < j ==> forall x :: 0 <= x <= at ==> c.postings[x].score <= small)
  {
    var c := Spiked(ws, m, j, small);
    var i := SpikedEnds(ws, m, j, small, w);
    at := i + m - 1;
    if w < j {
      SpikedSmall(ws, m, j, small, w + 1);
      forall x | 0 <= x <= at ensures c.postings[x].score <= small {
        assert c.postings[x] == c.postings[..i + m][x];
      }
    }
  }

  lemma {:induction false} SpikedValid(ws: seq<WindowBound>, m: nat, j: nat, small: real)
    requires m > 0 && ProperProfile(ws) && Roomy(ws, m) && small >= 0.0
    ensures ValidTerm(Spiked(ws, m, j, small)) && Crowded(Spiked(ws, m, j, small), m)
  {
    SpikedPlaced(ws, m, j, small, |ws|);
    forall w: nat | w < |ws| ensures HoldsMany(Spiked(ws, m, j, small), w, m) {
      var i := SpikedEnds(ws, m, j, small, w);
      assert w > 0 ==> ws[w - 1].lastDocid < ws[w].lastDocid;
    }
  }

  lemma {:induction false} SortTwo(a: TermCursor, b: TermCursor)
    ensures SortByDoc([a, b]) == if CurrentDoc(a) <= CurrentDoc(b) then [a, b] else [b, a]
  {
    assert [a, b][1..] == [b] && [b][1..] == [];
    assert SortByDoc([b]) == [b];
    assert Place(a, []) == [a];
  }

  /** A valid term with little in its postings up to `at`, and a low bound there. */
  ghost predicate Quiet(a: TermCursor, at: nat, small: real, top: real) {
    && ValidTerm(a) && a.pos <= at < |a.postings| && small < top && BoundIn(a.windows, a.postings[at].docid) < top
    && forall x :: 0 <= x <= at ==> a.postings[x].score <= small
  }

  lemma {:induction false} SpentSorts(a: TermCursor, theta: real, cs: seq<TermCursor>)
    requires CurrentDoc(a) < NO_DOC && (cs == [a, Opener(theta, 1)] || cs == [Opener(theta, 1), a])
    ensures SortByDoc(cs) == [a, Opener(theta, 1)]
  {
    SortTwo(a, Opener(theta, 1));
    SortTwo(Opener(theta, 1), a);
  }

  lemma {:induction false} SpentPivot(a: TermCursor, theta: real, top: real)
    requires CurrentDoc(a) < NO_DOC
    ensures Pivot([a, Opener(theta, 1)], 0, 0.0, top) == if TermBoundAt(a, CurrentDoc(a)) < top then None else Some(0)
  {
    var cs := [a, Opener(theta, 1)];
    assert CurrentDoc(cs[1]) == NO_DOC;
    assert Pivot(cs, 1, TermBoundAt(a, CurrentDoc(a)), top) == None;
  }

  lemma {:induction false} SpentAdvance(a: TermCursor, theta: real)
    requires a.pos < |a.postings| && CurrentDoc(a) < NO_DOC
    ensures var cs, d := [a, Opener(theta, 1)], CurrentDoc(a);
            ScoreAt(cs, d) == a.postings[a.pos].score && AdvanceAt(cs, d) == [a.(pos := a.pos + 1), Opener(theta, 1)]
  {
    var b, d := Opener(theta, 1), CurrentDoc(a);
    assert [a, b][1..] == [b] && [b][1..] == [];
    assert ScoreAt([b], d) == 0.0;
    assert AdvanceAt([b], d) == [b];
  }

  /** One iteration with the opener spent: a low bound ends the loop, a low score is passed. */
  lemma {:induction false} SpentStep(a: TermCursor, theta: real, top: real, cs: seq<TermCursor>)
    requires a.pos < |a.postings| && CurrentDoc(a) < NO_DOC && a.postings[a.pos].score < top
    requires cs == [a, Opener(theta, 1)] || cs == [Opener(theta, 1), a]
    ensures var heap := [ScoredDoc(0, top)];
            WandRun(cs, heap, 1) == if TermBoundAt(a, CurrentDoc(a)) < top then heap else WandRun([a.(pos := a.pos + 1), Opener(theta, 1)], heap, 1)
  {
    SpentSorts(a, theta, cs);
    SpentPivot(a, theta, top);
    SpentAdvance(a, theta);
    OfferBelowThreshold([ScoredDoc(0, top)], 1, ScoredDoc(CurrentDoc(a), a.postings[a.pos].score));
  }

  /** Once the opener is spent, the loop ends at or before posting `at` and the heap keeps the
      opener's document. */
  lemma {:induction false} StuckBefore(a: TermCursor, at: nat, small: real, theta: real, top: real, cs: seq<TermCursor>)
    requires Quiet(a, at, small, top) && (cs == [a, Opener(theta, 1)] || cs == [Opener(theta, 1), a])
    ensures WandRun(cs, [ScoredDoc(0, top)], 1) == [ScoredDoc(0, top)]
    decreases at - a.pos
  {
    SpentStep(a, theta, top, cs);
    if TermBoundAt(a, CurrentDoc(a)) >= top {
      var next := a.(pos := a.pos + 1);
      StuckBefore(next, at, small, theta, top, [next, Opener(theta, 1)]);
    }
  }

  /** The first iteration scores docid 0 and fills the heap with the opener's score, to which
      the other term may add a little. */
  lemma {:induction false} OpenerFillsHeap(a: TermCursor, at: nat, small: real, theta: real) returns (top: real)
    requires a.pos == 0 && Quiet(a, at, small, theta) && a.postings[at].docid > 0
    ensures theta <= top <= theta + small && WandResult([a, Opener(theta, 0)], 1) == [ScoredDoc(0, top)]
  {
    var b, b' := Opener(theta, 0), Opener(theta, 1);
    SortTwo(a, b);
    BoundNonNegative(a, CurrentDoc(a));
    assert CurrentDoc(b) == 0 && TermBoundAt(b, 0) == theta;
    assert [a, b][1..] == [b] && [b, a][1..] == [a] && [a][1..] == [] && [b][1..] == [];
    var cs := SortByDoc([a, b]);
    BoundNonNegative(a, a.postings[at].docid);
    assert Pivot(cs, 0, 0.0, -1.0) == Some(0);
    assert ScoreAt([b], 0) == theta;
    assert AdvanceAt([b], 0) == [b.(pos := b.pos + 1)] + [];
    assert AdvanceAt([b], 0) == [b'];
    top := ScoreAt(cs, 0);
    assert 0.0 <= a.postings[0].score <= small;
    if CurrentDoc(a) == 0 {
      assert top == theta + a.postings[0].score;
      assert AdvanceAt(cs, 0) == [a.(pos := 1), b'];
      StuckBefore(a.(pos := 1), at, small, theta, top, AdvanceAt(cs, 0));
    } else {
      assert ScoreAt([a], 0) == 0.0 && AdvanceAt([a], 0) == [a];
      assert AdvanceAt(cs, 0) == [b', a];
      StuckBefore(a, at, small, theta, top, AdvanceAt(cs, 0));
    }
    assert Offered([], 1, ScoredDoc(0, top)) == [ScoredDoc(0, top)];
  }

  lemma {:induction false} SpikeIsLost(ws: seq<WindowBound>, m: nat, i: nat, j: nat, small: real, theta: real)
    requires m > 0 && ProperProfile(ws) && Roomy(ws, m) && i < j < |ws| && ws[i].lastDocid > 0
    requires 0.0 <= small < theta && ws[i].maxScore < theta && theta + small < ws[j].maxScore
    ensures var cs := [Spiked(ws, m, j, small), Opener(theta, 0)]; !IsTopK(WandResult(cs, 1), Totals(cs), 1)
  {
    var a := Spiked(ws, m, j, small);
    SpikedValid(ws, m, j, small);
    var at := SpikedWindow(ws, m, j, small, i);
    var peak := SpikedWindow(ws, m, j, small, j);
    BoundInWindow(ws, i, ws[i].lastDocid);
    var top := OpenerFillsHeap(a, at, small, theta);
    SpikeCounts(a, theta, peak);
    Overtaken([ScoredDoc(0, top)], Totals([a, Opener(theta, 0)]), ScoredDoc(ws[j].lastDocid, ws[j].maxScore));
  }

  /** A query with full windows that loses its best document to a rising bound. */
  lemma {:induction false} LosingQuery(ws: seq<WindowBound>, m: nat) returns (cs: seq<TermCursor>)
    requires m > 0 && ProperProfile(ws) && Roomy(ws, m) && !NonRising(ws)
    ensures CrowdedQuery(ws, m, cs) && !IsTopK(WandResult(cs, 1), Totals(cs), 1)
  {
    var i, j :| 0 <= i < j < |ws| && ws[i].lastDocid > 0 && ws[i].maxScore < ws[j].maxScore;
    var lo, hi := ws[i].maxScore, ws[j].maxScore;
    var small, theta := (hi - lo) / 4.0, (lo + hi) / 2.0;
    cs := [Spiked(ws, m, j, small), Opener(theta, 0)];
    SpikedValid(ws, m, j, small);
    assert ValidTerm(Opener(theta, 0)) && NonRising(Opener(theta, 0).windows);
    SpikeIsLost(ws, m, i, j, small, theta);
  }

  lemma {:induction false} SpikeCounts(a: TermCursor, theta: real, peak: nat)
    requires ValidTerm(a) && peak < |a.postings| && a.postings[peak].docid > 0
    ensures Truthful(ScoredDoc(a.postings[peak].docid, a.postings[peak].score), Totals([a, Opener(theta, 0)]))
  {
    var b := Opener(theta, 0);
    var cs, best := [a, b], ScoredDoc(a.postings[peak].docid, a.postings[peak].score);
    ScoreInIs(a.postings, best.docid);
    ScoreInIs(b.postings, best.docid);
    assert cs[1..] == [b];
    assert DocScore([b], best.docid) == 0.0;
    assert best.docid in DocsOf(a.postings);
  }

  lemma {:induction false} Overtaken(out: seq<ScoredDoc>, totals: map<nat, real>, best: ScoredDoc)
    requires |out| == 1 && out[0].score < best.score && Truthful(best, totals)
    ensures !IsTopK(out, totals, 1)
  {
  }
}
