/** When pruning is safe. WAND returns the exhaustive top k exactly for those window
    profiles whose bounds do not rise in docid order. */
module WandSafety {
  import opened Common
  import opened Ranking
  import opened Wand

  /** What the index promises of one term: ascending docids below the sentinel, and a
      window bound at or above every score in the window. */
  ghost predicate ValidTerm(c: TermCursor) {
    && c.pos <= |c.postings|
    && (forall i, j :: 0 <= i < j < |c.postings| ==> c.postings[i].docid < c.postings[j].docid)
    && (forall i :: 0 <= i < |c.postings| ==>
          c.postings[i].docid < NO_DOC && 0.0 <= c.postings[i].score <= BoundIn(c.windows, c.postings[i].docid))
    && (forall i :: 0 <= i < |c.windows| ==> c.windows[i].maxScore >= 0.0)
  }

  /** Bounds do not rise from one window to a later one. The window that can only hold
      docid 0 is exempt: docid 0 is scored before any threshold exists. */
  ghost predicate NonRising(ws: seq<WindowBound>) {
    forall i, j :: 0 <= i < j < |ws| && ws[i].lastDocid > 0 ==> ws[i].maxScore >= ws[j].maxScore
  }

  ghost predicate SafeTerm(c: TermCursor) {
    ValidTerm(c) && NonRising(c.windows)
  }

  // ----- facts about one cursor

  lemma {:induction false} BoundFalls(ws: seq<WindowBound>, d: nat, e: nat)
    requires NonRising(ws) && 0 < d <= e
    requires forall i :: 0 <= i < |ws| ==> ws[i].maxScore >= 0.0
    ensures BoundIn(ws, d) >= BoundIn(ws, e) >= 0.0
  {
    if ws != [] {
      BoundIsSome(ws[1..], e);
      if d <= ws[0].lastDocid {
        assert forall j :: 0 <= j < |ws[1..]| ==> ws[1..][j] == ws[j + 1];
      } else {
        BoundFalls(ws[1..], d, e);
      }
    }
  }

  lemma {:induction false} BoundIsSome(ws: seq<WindowBound>, d: nat)
    ensures BoundIn(ws, d) == 0.0 || exists i :: 0 <= i < |ws| && BoundIn(ws, d) == ws[i].maxScore
  {
    if ws != [] {
      BoundIsSome(ws[1..], d);
      if d > ws[0].lastDocid && BoundIn(ws, d) != 0.0 {
        var i :| 0 <= i < |ws[1..]| && BoundIn(ws[1..], d) == ws[1..][i].maxScore;
        assert ws[i + 1].maxScore == BoundIn(ws, d);
      }
    }
  }

  lemma {:induction false} ScoreInIs(ps: seq<TermPosting>, d: nat)
    requires forall i, j :: 0 <= i < j < |ps| ==> ps[i].docid < ps[j].docid
    ensures forall i :: 0 <= i < |ps| && ps[i].docid == d ==> ScoreIn(ps, d) == ps[i].score
    ensures (forall i :: 0 <= i < |ps| ==> ps[i].docid != d) ==> ScoreIn(ps, d) == 0.0
  {
    if ps != [] {
      ScoreInIs(ps[1..], d);
      assert forall i :: 0 <= i < |ps[1..]| ==> ps[1..][i] == ps[i + 1];
    }
  }

  /** A document the cursor has not passed scores at most the bound at the cursor. */
  lemma {:induction false} ScoreUnderCurrentBound(c: TermCursor, d: nat)
    requires SafeTerm(c) && HasDoc(c, d) && 0 < CurrentDoc(c) <= d
    ensures ScoreIn(c.postings, d) <= TermBoundAt(c, CurrentDoc(c))
  {
    var i :| 0 <= i < |c.postings| && c.postings[i].docid == d;
    ScoreInIs(c.postings, d);
    BoundFalls(c.windows, CurrentDoc(c), d);
  }

  lemma {:induction false} AbsentScoresNothing(c: TermCursor, d: nat)
    requires ValidTerm(c) && !HasDoc(c, d)
    ensures ScoreIn(c.postings, d) == 0.0
  {
    ScoreInIs(c.postings, d);
  }

  lemma {:induction false} BoundNonNegative(c: TermCursor, d: nat)
    requires ValidTerm(c)
    ensures TermBoundAt(c, d) >= 0.0
  {
    BoundIsSome(c.windows, d);
  }

  // ----- facts about all cursors

  ghost predicate AllSafe(cs: seq<TermCursor>) {
    forall c :: c in cs ==> SafeTerm(c)
  }

  /** No cursor that holds `d` has moved past it. */
  ghost predicate Live(cs: seq<TermCursor>, d: nat) {
    forall c :: c in cs && HasDoc(c, d) ==> CurrentDoc(c) <= d
  }

  lemma {:induction false} NobodyScores(cs: seq<TermCursor>, d: nat)
    requires AllSafe(cs) && forall c :: c in cs ==> !HasDoc(c, d)
    ensures DocScore(cs, d) == 0.0
  {
    if cs != [] {
      assert cs[0] in cs;
      AbsentScoresNothing(cs[0], d);
      NobodyScores(cs[1..], d);
    }
  }

  /** The pruning argument: a live document before the pivot scores below theta. */
  lemma {:induction false} LiveBelowTheta(cs: seq<TermCursor>, i: nat, d: nat, acc: real, theta: real)
    requires AllSafe(cs) && Sorted(cs) && Live(cs, d) && d < NO_DOC && i <= |cs| && acc < theta
    requires forall c :: c in cs ==> CurrentDoc(c) > 0
    requires var p := Pivot(cs, i, acc, theta); p.Some? ==> d < CurrentDoc(cs[p.value])
    ensures acc + DocScore(cs[i..], d) < theta
    decreases |cs| - i
  {
    if i < |cs| {
      var c := cs[i];
      assert c in cs && SafeTerm(c);
      var bound := acc + TermBoundAt(c, CurrentDoc(c));
      if CurrentDoc(c) == NO_DOC || bound >= theta {
        AllPast(cs, i, d);
      } else {
        LiveBelowTheta(cs, i + 1, d, bound, theta);
        assert cs[i..][0] == c && cs[i..][1..] == cs[i + 1..];
        ScoreBelowBound(c, d);
      }
    }
  }

  lemma {:induction false} ScoreBelowBound(c: TermCursor, d: nat)
    requires SafeTerm(c) && CurrentDoc(c) > 0 && (HasDoc(c, d) ==> CurrentDoc(c) <= d)
    ensures ScoreIn(c.postings, d) <= TermBoundAt(c, CurrentDoc(c))
  {
    if HasDoc(c, d) {
      ScoreUnderCurrentBound(c, d);
    } else {
      AbsentScoresNothing(c, d);
      BoundNonNegative(c, CurrentDoc(c));
    }
  }

  lemma {:induction false} AllPast(cs: seq<TermCursor>, i: nat, d: nat)
    requires AllSafe(cs) && Sorted(cs) && Live(cs, d) && i < |cs| && d < CurrentDoc(cs[i])
    ensures DocScore(cs[i..], d) == 0.0
  {
    forall x | x in cs[i..] ensures SafeTerm(x) && !HasDoc(x, d) {
      var j :| i <= j < |cs| && cs[j] == x;
      assert cs[j] in cs;
    }
    NobodyScores(cs[i..], d);
  }

  // ----- moves keep what documents score

  /** Same terms in the same order, possibly at other positions. */
  ghost predicate SameTerms(cs: seq<TermCursor>, ds: seq<TermCursor>) {
    |cs| == |ds| && forall i :: 0 <= i < |cs| ==> cs[i].postings == ds[i].postings && cs[i].windows == ds[i].windows
  }

  lemma {:induction false} SameTermsScore(cs: seq<TermCursor>, ds: seq<TermCursor>, d: nat)
    requires SameTerms(cs, ds)
    ensures DocScore(cs, d) == DocScore(ds, d) && Docs(cs) == Docs(ds)
  {
    if cs != [] {
      SameTermsScore(cs[1..], ds[1..], d);
    }
  }

  lemma {:induction false} SameTermsTotals(cs: seq<TermCursor>, ds: seq<TermCursor>)
    requires SameTerms(cs, ds)
    ensures Totals(cs) == Totals(ds)
  {
    SameTermsScore(cs, ds, 0);
    forall d ensures DocScore(cs, d) == DocScore(ds, d) {
      SameTermsScore(cs, ds, d);
    }
  }

  lemma {:induction false} PlaceScore(c: TermCursor, s: seq<TermCursor>, d: nat)
    ensures DocScore(Place(c, s), d) == ScoreIn(c.postings, d) + DocScore(s, d)
    ensures Docs(Place(c, s)) == DocsOf(c.postings) + Docs(s)
  {
    if s == [] || CurrentDoc(c) <= CurrentDoc(s[0]) {
      assert ([c] + s)[1..] == s;
    } else {
      PlaceScore(c, s[1..], d);
      assert ([s[0]] + Place(c, s[1..]))[1..] == Place(c, s[1..]);
    }
  }

  lemma {:induction false} SortScore(s: seq<TermCursor>, d: nat)
    ensures DocScore(SortByDoc(s), d) == DocScore(s, d) && Docs(SortByDoc(s)) == Docs(s)
  {
    if s != [] {
      SortScore(s[1..], d);
      PlaceScore(s[0], SortByDoc(s[1..]), d);
    }
  }

  lemma {:induction false} SortTotals(s: seq<TermCursor>)
    ensures Totals(SortByDoc(s)) == Totals(s)
  {
    SortScore(s, 0);
    forall d ensures DocScore(SortByDoc(s), d) == DocScore(s, d) {
      SortScore(s, d);
    }
  }

  lemma {:induction false} DocsAreHeld(cs: seq<TermCursor>, d: nat)
    ensures d in Docs(cs) <==> exists c :: c in cs && HasDoc(c, d)
  {
    if cs != [] {
      DocsAreHeld(cs[1..], d);
      assert d in DocsOf(cs[0].postings) <==> HasDoc(cs[0], d);
      assert cs == [cs[0]] + cs[1..];
      if d in Docs(cs[1..]) {
        var c :| c in cs[1..] && HasDoc(c, d);
        assert c in cs;
      }
      if HasDoc(cs[0], d) {
        assert cs[0] in cs;
      }
    }
  }

  // ----- the loop invariant

  ghost function Among(totals: map<nat, real>, done: set<nat>): map<nat, real> {
    map d | d in totals && d in done :: totals[d]
  }

  /** A score strictly below a full heap: such a document can never enter. */
  ghost predicate Dead(heap: seq<ScoredDoc>, k: nat, score: real) {
    |heap| == k && k > 0 && score < heap[k - 1].score
  }

  /** `done` are the documents offered with their exact score. The heap is the top k of
      those; every other document is still ahead of all its cursors or beyond hope. */
  ghost predicate Inv(cs: seq<TermCursor>, heap: seq<ScoredDoc>, k: nat, done: set<nat>) {
    && AllSafe(cs)
    && IsTopK(heap, Among(Totals(cs), done), k)
    && (forall d :: d in Totals(cs) && d !in done ==> Live(cs, d) || Dead(heap, k, Totals(cs)[d]))
    && (forall d, c :: d in done && c in cs ==> CurrentDoc(c) > d)
    && (|heap| == k ==> forall c :: c in cs ==> CurrentDoc(c) > 0)
  }

  lemma {:induction false} SortKeepsInv(cs: seq<TermCursor>, heap: seq<ScoredDoc>, k: nat, done: set<nat>)
    requires Inv(cs, heap, k, done)
    ensures Inv(SortByDoc(cs), heap, k, done)
  {
    SortTotals(cs);
    SortKeepsUnread(cs);
  }

  // ----- scoring step

  lemma {:induction false} AdvanceEach(cs: seq<TermCursor>, d: nat)
    ensures |AdvanceAt(cs, d)| == |cs|
    ensures forall i :: 0 <= i < |cs| ==>
              AdvanceAt(cs, d)[i] == if CurrentDoc(cs[i]) == d then cs[i].(pos := cs[i].pos + 1) else cs[i]
  {
    if cs != [] {
      AdvanceEach(cs[1..], d);
    }
  }

  /** Moving one posting ahead passes no document but the current one. */
  lemma {:induction false} AdvanceOne(c: TermCursor, d: nat)
    requires SafeTerm(c) && CurrentDoc(c) >= d && d < NO_DOC
    ensures var c' := if CurrentDoc(c) == d then c.(pos := c.pos + 1) else c;
            && SafeTerm(c') && CurrentDoc(c') > d && CurrentDoc(c') >= CurrentDoc(c)
            && forall e :: HasDoc(c', e) && CurrentDoc(c) <= e && e != d ==> CurrentDoc(c') <= e
  {
    var c' := if CurrentDoc(c) == d then c.(pos := c.pos + 1) else c;
    forall e | HasDoc(c', e) && CurrentDoc(c) <= e && e != d ensures CurrentDoc(c') <= e {
      var i :| 0 <= i < |c.postings| && c.postings[i].docid == e;
      assert c.pos <= i;
    }
  }

  lemma {:induction false} ScoreAtAtMost(cs: seq<TermCursor>, d: nat)
    requires AllSafe(cs) && d < NO_DOC
    ensures ScoreAt(cs, d) <= DocScore(cs, d)
    ensures Live(cs, d) && (forall c :: c in cs ==> CurrentDoc(c) >= d) ==> ScoreAt(cs, d) == DocScore(cs, d)
  {
    if cs != [] {
      assert cs[0] in cs;
      ScoreAtAtMost(cs[1..], d);
      ScoreInIs(cs[0].postings, d);
    }
  }

  lemma {:induction false} ScoreKeepsInv(cs: seq<TermCursor>, heap: seq<ScoredDoc>, k: nat, done: set<nat>) returns (done': set<nat>)
    requires Inv(cs, heap, k, done) && k > 0 && cs != [] && CurrentDoc(cs[0]) < NO_DOC
    requires forall c :: c in cs ==> CurrentDoc(c) >= CurrentDoc(cs[0])
    ensures var d := CurrentDoc(cs[0]);
            Inv(AdvanceAt(cs, d), Offered(heap, k, ScoredDoc(d, ScoreAt(cs, d))), k, done')
  {
    var d := CurrentDoc(cs[0]);
    var e := ScoredDoc(d, ScoreAt(cs, d));
    var heap', cs' := Offered(heap, k, e), AdvanceAt(cs, d);
    AdvanceEach(cs, d);
    SameTermsTotals(cs', cs);
    ScoreAtAtMost(cs, d);
    assert cs[0] in cs && d !in done;
    assert d in Totals(cs) by {
      assert HasDoc(cs[0], d);
      DocsAreHeld(cs, d);
    }
    AdvanceAll(cs, d);
    if Live(cs, d) {
      done' := done + {d};
      assert d !in Among(Totals(cs), done);
      OfferKeepsTopK(heap, Among(Totals(cs), done), k, d, e.score);
      assert Among(Totals(cs), done)[d := e.score] == Among(Totals(cs), done');
    } else {
      done' := done;
      OfferBelowThreshold(heap, k, e);
    }
    ThresholdRises(heap, k, e);
  }

  /** An offer never revives a hopeless score. */
  lemma {:induction false} ThresholdRises(heap: seq<ScoredDoc>, k: nat, e: ScoredDoc)
    requires Ranking.Ranked(heap) && |heap| <= k
    ensures forall score: real :: Dead(heap, k, score) ==> Dead(Offered(heap, k, e), k, score)
  {
    if |heap| == k > 0 && Better(e, heap[k - 1]) {
      InsertMembers(heap[..k - 1], e);
      var kept := Offered(heap, k, e);
      assert kept[k - 1] in kept;
    }
  }

  lemma {:induction false} AdvanceAll(cs: seq<TermCursor>, d: nat)
    requires AllSafe(cs) && d < NO_DOC && forall c :: c in cs ==> CurrentDoc(c) >= d
    ensures AllSafe(AdvanceAt(cs, d))
    ensures forall c :: c in AdvanceAt(cs, d) ==> CurrentDoc(c) > d
    ensures forall x :: x != d && Live(cs, x) ==> Live(AdvanceAt(cs, d), x)
  {
    forall c' | c' in AdvanceAt(cs, d)
      ensures SafeTerm(c') && CurrentDoc(c') > d
      ensures forall x :: x != d && Live(cs, x) && HasDoc(c', x) ==> CurrentDoc(c') <= x
    {
      AdvancedCursor(cs, d, c');
    }
  }

  lemma {:induction false} AdvancedCursor(cs: seq<TermCursor>, d: nat, c': TermCursor)
    requires AllSafe(cs) && d < NO_DOC && c' in AdvanceAt(cs, d) && forall c :: c in cs ==> CurrentDoc(c) >= d
    ensures SafeTerm(c') && CurrentDoc(c') > d
    ensures forall x :: x != d && Live(cs, x) && HasDoc(c', x) ==> CurrentDoc(c') <= x
  {
    var c := AdvancedFrom(cs, d, c');
    assert SafeTerm(c) && CurrentDoc(c) >= d;
    AdvanceOne(c, d);
  }

  lemma {:induction false} AdvancedFrom(cs: seq<TermCursor>, d: nat, c': TermCursor) returns (c: TermCursor)
    requires c' in AdvanceAt(cs, d)
    ensures c in cs && c' == if CurrentDoc(c) == d then c.(pos := c.pos + 1) else c
  {
    var cs' := AdvanceAt(cs, d);
    AdvanceEach(cs, d);
    var i :| 0 <= i < |cs'| && cs'[i] == c';
    c := cs[i];
  }

  // ----- skipping step

  lemma {:induction false} SkipOne(c: TermCursor, target: nat)
    requires SafeTerm(c) && target < NO_DOC
    ensures var c' := SkipTo(c, target);
            && SafeTerm(c') && CurrentDoc(c') >= CurrentDoc(c)
            && (forall e :: HasDoc(c', e) <==> HasDoc(c, e))
            && (forall e :: HasDoc(c, e) && CurrentDoc(c) <= e && target <= e ==> CurrentDoc(c') <= e)
  {
    SkipToReads(c, target);
    var c' := SkipTo(c, target);
    forall e | HasDoc(c, e) && CurrentDoc(c) <= e && target <= e ensures CurrentDoc(c') <= e {
      var i :| 0 <= i < |c.postings| && c.postings[i].docid == e;
      assert c.pos <= i;
      assert c'.pos <= i;
    }
  }

  lemma {:induction false} SkipAll(cs: seq<TermCursor>, target: nat)
    requires AllSafe(cs) && cs != [] && CurrentDoc(cs[0]) < target < NO_DOC
    ensures var cs' := SkipLagging(cs, target);
            && AllSafe(cs') && SameTerms(cs', cs)
            && (forall e :: target <= e && Live(cs, e) ==> Live(cs', e))
            && (forall c' :: c' in cs' ==> exists c :: c in cs && CurrentDoc(c') >= CurrentDoc(c))
  {
    SkipToReads(cs[0], target);
    SkipOne(cs[0], target);
    var cs' := SkipLagging(cs, target);
    forall c' | c' in cs'
      ensures SafeTerm(c') && exists c :: c in cs && CurrentDoc(c') >= CurrentDoc(c)
      ensures forall e :: target <= e && Live(cs, e) && HasDoc(c', e) ==> CurrentDoc(c') <= e
    {
      assert cs[0] in cs;
      if c' in cs[1..] {
        assert c' in cs;
      } else {
        assert c' == SkipTo(cs[0], target);
      }
    }
  }

  lemma {:induction false} SkipKeepsInv(cs: seq<TermCursor>, heap: seq<ScoredDoc>, k: nat, done: set<nat>, p: nat)
    requires Inv(cs, heap, k, done) && k > 0 && Sorted(cs)
    requires Pivot(cs, 0, 0.0, Threshold(heap, k)) == Some(p) && CurrentDoc(cs[0]) < CurrentDoc(cs[p])
    ensures Inv(SkipLagging(cs, CurrentDoc(cs[p])), heap, k, done)
  {
    var target, theta := CurrentDoc(cs[p]), Threshold(heap, k);
    assert cs[0] in cs && cs[p] in cs;
    assert target < NO_DOC by {
      PivotHasDoc(cs, 0, 0.0, theta);
      assert SafeTerm(cs[p]);
    }
    var cs' := SkipLagging(cs, target);
    SkipAll(cs, target);
    SameTermsTotals(cs', cs);
    BoundNonNegative(cs[0], CurrentDoc(cs[0]));
    assert 0.0 < theta;
    forall x | x in Totals(cs') && x !in done
      ensures Live(cs', x) || Dead(heap, k, Totals(cs')[x])
    {
      if Live(cs, x) && x < target {
        LiveBelowTheta(cs, 0, x, 0.0, theta);
        assert cs[0..] == cs;
      }
    }
  }

  // ----- the theorem

  lemma {:induction false} NothingLiveIsTopK(cs: seq<TermCursor>, heap: seq<ScoredDoc>, k: nat, done: set<nat>)
    requires Inv(cs, heap, k, done) && k > 0
    requires forall d :: d in Totals(cs) && d !in done ==> Dead(heap, k, Totals(cs)[d])
    ensures IsTopK(heap, Totals(cs), k)
  {
    var totals := Totals(cs);
    forall e | Truthful(e, totals) && e !in heap ensures |heap| == k && Better(heap[k - 1], e) {
      if e.docid in done {
        assert Truthful(e, Among(totals, done));
      }
    }
    forall e | e in heap ensures Truthful(e, totals) {
      assert Truthful(e, Among(totals, done));
    }
  }

  lemma {:induction false} NoPivotNothingLive(cs: seq<TermCursor>, heap: seq<ScoredDoc>, k: nat, done: set<nat>)
    requires Inv(cs, heap, k, done) && k > 0 && Sorted(cs)
    requires cs == [] || CurrentDoc(cs[0]) == NO_DOC || Pivot(cs, 0, 0.0, Threshold(heap, k)) == None
    ensures forall d :: d in Totals(cs) && d !in done ==> Dead(heap, k, Totals(cs)[d])
  {
    forall d | d in Totals(cs) && d !in done ensures Dead(heap, k, Totals(cs)[d]) {
      DocsAreHeld(cs, d);
      var c :| c in cs && HasDoc(c, d);
      assert cs[0] in cs;
      assert d < NO_DOC;
      if CurrentDoc(cs[0]) == NO_DOC {
        var j :| 0 <= j < |cs| && cs[j] == c;
        assert CurrentDoc(c) >= NO_DOC;
      } else if Live(cs, d) {
        BoundNonNegative(cs[0], CurrentDoc(cs[0]));
        LiveBelowTheta(cs, 0, d, 0.0, Threshold(heap, k));
        assert cs[0..] == cs;
      }
    }
  }

  lemma {:induction false} RunIsTopK(cursors: seq<TermCursor>, heap: seq<ScoredDoc>, k: nat, done: set<nat>)
    requires Inv(cursors, heap, k, done) && k > 0
    ensures IsTopK(WandRun(cursors, heap, k), Totals(cursors), k)
    decreases Unread(cursors)
  {
    var cs := SortByDoc(cursors);
    SortKeepsInv(cursors, heap, k, done);
    SortTotals(cursors);
    SortSorts(cursors);
    SortKeepsUnread(cursors);
    var p := Pivot(cs, 0, 0.0, Threshold(heap, k));
    if cs == [] || CurrentDoc(cs[0]) == NO_DOC || p == None {
      NoPivotNothingLive(cs, heap, k, done);
      NothingLiveIsTopK(cs, heap, k, done);
    } else {
      var d := CurrentDoc(cs[p.value]);
      if CurrentDoc(cs[0]) == d {
        AdvanceReads(cs, d);
        assert cs[0] in cs;
        var done' := ScoreKeepsInv(cs, heap, k, done);
        RunIsTopK(AdvanceAt(cs, d), Offered(heap, k, ScoredDoc(d, ScoreAt(cs, d))), k, done');
        AdvanceEach(cs, d);
        SameTermsTotals(AdvanceAt(cs, d), cs);
      } else {
        SkipReads(cs, d);
        SkipKeepsInv(cs, heap, k, done, p.value);
        RunIsTopK(SkipLagging(cs, d), heap, k, done);
        SkipToReads(cs[0], d);
        SameTermsTotals(SkipLagging(cs, d), cs);
      }
    }
  }

  /** WAND equals exhaustive scoring, ties included, whenever no term's bounds rise. */
  lemma {:induction false} WandIsTopK(cursors: seq<TermCursor>, k: nat)
    requires AllSafe(cursors) && forall c :: c in cursors ==> c.pos == 0
    ensures IsTopK(WandResult(cursors, k), Totals(cursors), k)
  {
    if k > 0 {
      forall c, d | c in cursors && HasDoc(c, d) ensures CurrentDoc(c) <= d {
        var i :| 0 <= i < |c.postings| && c.postings[i].docid == d;
        assert SafeTerm(c);
      }
      assert Inv(cursors, [], k, {});
      RunIsTopK(cursors, [], k, {});
    }
  }
}
