/** The two scoring entry points that read whole postings. */
module ScoringQueries {
  import opened Common
  import opened Ranking
  import opened Wand
  import opened WandSafety

  lemma {:induction false} ScoreInSnoc(ps: seq<TermPosting>, p: TermPosting, d: nat)
    ensures ScoreIn(ps + [p], d) == ScoreIn(ps, d) + (if p.docid == d then p.score else 0.0)
    ensures DocsOf(ps + [p]) == DocsOf(ps) + {p.docid}
  {
    if ps == [] {
      assert ps + [p] == [p];
    } else {
      ScoreInSnoc(ps[1..], p, d);
      assert (ps + [p])[1..] == ps[1..] + [p];
    }
    forall x ensures x in DocsOf(ps + [p]) <==> x in DocsOf(ps) + {p.docid} {
      if x in DocsOf(ps) {
        var i :| 0 <= i < |ps| && ps[i].docid == x;
        assert (ps + [p])[i].docid == x;
      }
      assert (ps + [p])[|ps|] == p;
    }
  }

  lemma {:induction false} DocScoreSnoc(cs: seq<TermCursor>, c: TermCursor, d: nat)
    ensures DocScore(cs + [c], d) == DocScore(cs, d) + ScoreIn(c.postings, d)
    ensures Docs(cs + [c]) == Docs(cs) + DocsOf(c.postings)
  {
    if cs == [] {
      assert cs + [c] == [c];
    } else {
      DocScoreSnoc(cs[1..], c, d);
      assert (cs + [c])[1..] == cs[1..] + [c];
    }
  }

  /** `base` plus the contributions of `ps`. */
  ghost predicate Accumulated(scores: map<nat, real>, base: map<nat, real>, ps: seq<TermPosting>) {
    && scores.Keys == base.Keys + DocsOf(ps)
    && forall d :: d in scores ==> scores[d] == (if d in base then base[d] else 0.0) + ScoreIn(ps, d)
  }

  /** Adds one term's postings to the running document scores. */
  method AddTerm(base: map<nat, real>, ps: seq<TermPosting>) returns (scores: map<nat, real>)
    ensures Accumulated(scores, base, ps)
  {
    scores := base;
    for j := 0 to |ps|
      invariant Accumulated(scores, base, ps[..j])
    {
      var p := ps[j];
      assert ps[..j + 1] == ps[..j] + [p];
      forall d ensures ScoreIn(ps[..j + 1], d) == ScoreIn(ps[..j], d) + (if p.docid == d then p.score else 0.0) {
        ScoreInSnoc(ps[..j], p, d);
      }
      ScoreInSnoc(ps[..j], p, 0);
      AbsentSum(ps[..j], p.docid);
      scores := scores[p.docid := (if p.docid in scores then scores[p.docid] else 0.0) + p.score];
    }
    assert ps[..|ps|] == ps;
  }

  lemma {:induction false} AbsentSum(ps: seq<TermPosting>, d: nat)
    ensures d !in DocsOf(ps) ==> ScoreIn(ps, d) == 0.0
  {
    if ps != [] && d !in DocsOf(ps) {
      assert ps[0].docid in DocsOf(ps);
      forall x | x in DocsOf(ps[1..]) ensures x in DocsOf(ps) {
        var i :| 0 <= i < |ps[1..]| && ps[1..][i].docid == x;
        assert ps[i + 1].docid == x;
      }
      AbsentSum(ps[1..], d);
    }
  }

  lemma {:induction false} AbsentTotal(cs: seq<TermCursor>, d: nat)
    ensures d !in Docs(cs) ==> DocScore(cs, d) == 0.0
  {
    if cs != [] {
      AbsentSum(cs[0].postings, d);
      AbsentTotal(cs[1..], d);
    }
  }

  method AccumulateScores(cursors: seq<TermCursor>) returns (scores: map<nat, real>)
    ensures scores == Totals(cursors)
  {
    scores := map[];
    for i := 0 to |cursors|
      invariant scores == Totals(cursors[..i])
    {
      var next := AddTerm(scores, cursors[i].postings);
      assert cursors[..i + 1] == cursors[..i] + [cursors[i]];
      DocScoreSnoc(cursors[..i], cursors[i], 0);
      forall d ensures DocScore(cursors[..i + 1], d) == DocScore(cursors[..i], d) + ScoreIn(cursors[i].postings, d) {
        DocScoreSnoc(cursors[..i], cursors[i], d);
      }
      forall d ensures d !in Docs(cursors[..i]) ==> DocScore(cursors[..i], d) == 0.0 {
        AbsentTotal(cursors[..i], d);
      }
      scores := next;
    }
    assert cursors[..|cursors|] == cursors;
  }

  /** Ranks every scored document; the map is walked in an arbitrary order. */
  method RankAll(scores: map<nat, real>) returns (all: seq<ScoredDoc>)
    ensures Ranked(all) && forall e :: e in all <==> Truthful(e, scores)
  {
    all := [];
    var rest := scores.Keys;
    while rest != {}
      invariant rest <= scores.Keys
      invariant Ranked(all) && forall e :: e in all <==> Truthful(e, scores) && e.docid !in rest
      decreases rest
    {
      var d :| d in rest;
      InsertRanked(all, ScoredDoc(d, scores[d]));
      InsertMembers(all, ScoredDoc(d, scores[d]));
      all := Insert(all, ScoredDoc(d, scores[d]));
      rest := rest - {d};
    }
  }

  /** Scores every document holding any term, sorts, truncates to k. */
  method Exhaustive(cursors: seq<TermCursor>, k: nat) returns (out: seq<ScoredDoc>)
    ensures IsTopK(out, Totals(cursors), k) && BestFirst(out, Totals(cursors), k)
  {
    if k == 0 {
      TopKBestFirst([], Totals(cursors), 0);
      return [];
    }
    var scores := AccumulateScores(cursors);
    var all := RankAll(scores);
    out := if |all| > k then all[..k] else all;
    forall e | Truthful(e, scores) && e !in out ensures |out| == k && Better(out[k - 1], e) {
      assert forall j :: 0 <= j < |out| ==> all[j] == out[j] != e;
      var i :| 0 <= i < |all| && all[i] == e;
    }
    TopKBestFirst(out, Totals(cursors), k);
  }

  /** The accumulating pivot scan. */
  method FindPivot(cs: seq<TermCursor>, theta: real) returns (p: Option<nat>)
    ensures p == Pivot(cs, 0, 0.0, theta)
  {
    var bound, i := 0.0, 0;
    while i < |cs|
      invariant 0 <= i <= |cs|
      invariant Pivot(cs, 0, 0.0, theta) == Pivot(cs, i, bound, theta)
    {
      var d := CurrentDoc(cs[i]);
      if d == NO_DOC {
        return None;
      }
      bound := bound + TermBoundAt(cs[i], d);
      if bound >= theta {
        return Some(i);
      }
      i := i + 1;
    }
    return None;
  }

  /** Sums and advances every cursor standing at the pivot document. */
  method ScorePivot(cs: seq<TermCursor>, d: nat) returns (score: real, cs': seq<TermCursor>)
    requires d != NO_DOC
    ensures score == ScoreAt(cs, d) && cs' == AdvanceAt(cs, d)
  {
    score, cs' := 0.0, [];
    for i := 0 to |cs|
      invariant score + ScoreAt(cs[i..], d) == ScoreAt(cs, d)
      invariant cs' + AdvanceAt(cs[i..], d) == AdvanceAt(cs, d)
    {
      var c := cs[i];
      assert cs[i..][1..] == cs[i + 1..] && cs[i..][0] == c;
      if CurrentDoc(c) == d {
        score := score + c.postings[c.pos].score;
        cs' := cs' + [c.(pos := c.pos + 1)];
      } else {
        cs' := cs' + [c];
      }
    }
  }

  /** Walks the first lagging cursor, posting by posting, up to `target`. */
  method AdvanceLagging(cs: seq<TermCursor>, target: nat) returns (cs': seq<TermCursor>)
    ensures cs' == SkipLagging(cs, target)
  {
    var i := 0;
    while i < |cs|
      invariant 0 <= i <= |cs|
      invariant cs[..i] + SkipLagging(cs[i..], target) == SkipLagging(cs, target)
    {
      var c := cs[i];
      assert cs[i..][1..] == cs[i + 1..] && cs[i..][0] == c;
      if CurrentDoc(c) < target {
        var pos := c.pos;
        while pos < |c.postings| && c.postings[pos].docid < target
          invariant c.pos <= pos && SkipTo(c.(pos := pos), target) == SkipTo(c, target)
        {
          pos := pos + 1;
        }
        return cs[..i] + [c.(pos := pos)] + cs[i + 1..];
      }
      assert cs[..i + 1] == cs[..i] + [c];
      i := i + 1;
    }
    return cs;
  }

  /** The eager WAND loop computes `WandResult` for any cursors whatever. */
  method ScoringQueryWand(cursors: seq<TermCursor>, k: nat) returns (out: seq<ScoredDoc>, final: seq<TermCursor>, ghost moves: seq<Move>)
    ensures out == WandResult(cursors, k) && WandCourse(cursors, k) == Course(moves, final)
    ensures AllSafe(cursors) && (forall c :: c in cursors ==> c.pos == 0) ==>
              IsTopK(out, Totals(cursors), k) && BestFirst(out, Totals(cursors), k)
  {
    if AllSafeStart(cursors) {
      WandIsTopK(cursors, k);
      TopKBestFirst(WandResult(cursors, k), Totals(cursors), k);
    }
    final, moves := cursors, [];
    if k == 0 {
      return [], cursors, [];
    }
    var topk := new TopK(k);
    ghost var course := WandCourse(cursors, k);
    while true
      invariant fresh(topk) && topk.Valid() && topk.k == k
      invariant WandRun(final, topk.heap, k) == WandRun(cursors, [], k) && OnCourse(course, moves, final, topk.heap, k)
      decreases Unread(final)
    {
      SortKeepsUnread(final);
      SortSorts(final);
      var sorted := SortByDoc(final);
      if sorted == [] || CurrentDoc(sorted[0]) == NO_DOC {
        CourseEnds(course, moves, final, topk.heap, k);
        final := sorted;
        break;
      }
      var p := FindPivot(sorted, Threshold(topk.heap, k));
      if p.None? {
        CourseEnds(course, moves, final, topk.heap, k);
        final := sorted;
        break;
      }
      var d := CurrentDoc(sorted[p.value]);
      if CurrentDoc(sorted[0]) == d {
        AdvanceReads(sorted, d);
        CourseScores(course, moves, final, topk.heap, k, p.value, d);
        var score, moved := ScorePivot(sorted, d);
        topk.Offer(d, score);
        final, moves := moved, moves + [Scored(p.value, ScoredDoc(d, score))];
      } else {
        SkipReads(sorted, d);
        CourseSkips(course, moves, final, topk.heap, k, p.value, d);
        final := AdvanceLagging(sorted, d);
        moves := moves + [Skipped(p.value, d)];
      }
    }
    out := topk.DrainSorted();
  }

  ghost predicate AllSafeStart(cursors: seq<TermCursor>) {
    AllSafe(cursors) && forall c :: c in cursors ==> c.pos == 0
  }
}
