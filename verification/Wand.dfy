/** Document-at-a-time WAND with block-max bounds: the cursors, the loop, and the
    exhaustive baseline it claims to equal. */
module Wand {
  import opened Common
  import opened Ranking

  /** UINT32_MAX, the current docid of an exhausted cursor. */
  const NO_DOC: nat := 0xFFFF_FFFF

  datatype TermPosting = TermPosting(docid: nat, score: real)
  datatype WindowBound = WindowBound(lastDocid: nat, maxScore: real)
  datatype TermCursor = TermCursor(postings: seq<TermPosting>, windows: seq<WindowBound>, pos: nat)

  function CurrentDoc(c: TermCursor): nat {
    if c.pos < |c.postings| then c.postings[c.pos].docid else NO_DOC
  }

  /** The bound of the first window ending at or after `d`; 0 beyond the last window. */
  function BoundIn(ws: seq<WindowBound>, d: nat): real {
    if ws == [] then 0.0
    else if d <= ws[0].lastDocid then ws[0].maxScore
    else BoundIn(ws[1..], d)
  }

  function TermBoundAt(c: TermCursor, d: nat): real {
    BoundIn(c.windows, d)
  }

  // ----- one iteration of the loop

  /** Stable insertion by current docid. */
  function Place(c: TermCursor, s: seq<TermCursor>): seq<TermCursor> {
    if s == [] || CurrentDoc(c) <= CurrentDoc(s[0]) then [c] + s else [s[0]] + Place(c, s[1..])
  }

  function SortByDoc(s: seq<TermCursor>): seq<TermCursor> {
    if s == [] then [] else Place(s[0], SortByDoc(s[1..]))
  }

  /** Scanning from cursor `i`: the first at which the accumulated bounds reach theta. */
  function Pivot(cs: seq<TermCursor>, i: nat, acc: real, theta: real): (p: Option<nat>)
    ensures p.Some? ==> i <= p.value < |cs|
    decreases |cs| - i
  {
    if i >= |cs| || CurrentDoc(cs[i]) == NO_DOC then None
    else
      var bound := acc + TermBoundAt(cs[i], CurrentDoc(cs[i]));
      if bound >= theta then Some(i) else Pivot(cs, i + 1, bound, theta)
  }

  lemma {:induction false} PivotHasDoc(cs: seq<TermCursor>, i: nat, acc: real, theta: real)
    requires Pivot(cs, i, acc, theta).Some?
    ensures CurrentDoc(cs[Pivot(cs, i, acc, theta).value]) != NO_DOC
    decreases |cs| - i
  {
    var bound := acc + TermBoundAt(cs[i], CurrentDoc(cs[i]));
    if bound < theta {
      PivotHasDoc(cs, i + 1, bound, theta);
    }
  }

  /** The summed score of the cursors standing at `d`. */
  function ScoreAt(cs: seq<TermCursor>, d: nat): real {
    if cs == [] then 0.0
    else (if d != NO_DOC && CurrentDoc(cs[0]) == d then cs[0].postings[cs[0].pos].score else 0.0)
         + ScoreAt(cs[1..], d)
  }

  function AdvanceAt(cs: seq<TermCursor>, d: nat): seq<TermCursor> {
    if cs == [] then []
    else [if CurrentDoc(cs[0]) == d then cs[0].(pos := cs[0].pos + 1) else cs[0]] + AdvanceAt(cs[1..], d)
  }

  /** The per-document walk to the first posting at or after `target`. */
  function SkipTo(c: TermCursor, target: nat): TermCursor
    decreases |c.postings| - c.pos
  {
    if c.pos < |c.postings| && c.postings[c.pos].docid < target
    then SkipTo(c.(pos := c.pos + 1), target) else c
  }

  /** Moves the first cursor that lags behind `target`; the others stay. */
  function SkipLagging(cs: seq<TermCursor>, target: nat): seq<TermCursor> {
    if cs == [] then []
    else if CurrentDoc(cs[0]) < target then [SkipTo(cs[0], target)] + cs[1..]
    else [cs[0]] + SkipLagging(cs[1..], target)
  }

  // ----- the loop

  function Unread(cs: seq<TermCursor>): nat {
    if cs == [] then 0
    else (if cs[0].pos < |cs[0].postings| then |cs[0].postings| - cs[0].pos else 0) + Unread(cs[1..])
  }

  lemma {:induction false} PlaceKeepsUnread(c: TermCursor, s: seq<TermCursor>)
    ensures Unread(Place(c, s)) == Unread([c] + s)
    ensures |Place(c, s)| == |s| + 1
    ensures forall x :: x in Place(c, s) <==> x == c || x in s
  {
    if s == [] || CurrentDoc(c) <= CurrentDoc(s[0]) {
    } else {
      PlaceKeepsUnread(c, s[1..]);
      assert s == [s[0]] + s[1..];
      assert ([s[0]] + Place(c, s[1..]))[1..] == Place(c, s[1..]);
      assert ([c] + s)[1..] == s && ([c] + s[1..])[1..] == s[1..];
    }
  }

  lemma {:induction false} SortKeepsUnread(s: seq<TermCursor>)
    ensures Unread(SortByDoc(s)) == Unread(s) && |SortByDoc(s)| == |s|
    ensures forall x :: x in SortByDoc(s) <==> x in s
  {
    if s != [] {
      SortKeepsUnread(s[1..]);
      PlaceKeepsUnread(s[0], SortByDoc(s[1..]));
      assert s == [s[0]] + s[1..];
      assert ([s[0]] + SortByDoc(s[1..]))[1..] == SortByDoc(s[1..]);
    }
  }

  ghost predicate Sorted(s: seq<TermCursor>) {
    forall i, j :: 0 <= i < j < |s| ==> CurrentDoc(s[i]) <= CurrentDoc(s[j])
  }

  lemma {:induction false} SortSorts(s: seq<TermCursor>)
    ensures Sorted(SortByDoc(s))
  {
    if s != [] {
      SortSorts(s[1..]);
      PlaceSorts(s[0], SortByDoc(s[1..]));
    }
  }

  lemma {:induction false} PlaceSorts(c: TermCursor, s: seq<TermCursor>)
    requires Sorted(s)
    ensures Sorted(Place(c, s))
  {
    if s == [] || CurrentDoc(c) <= CurrentDoc(s[0]) {
    } else {
      PlaceSorts(c, s[1..]);
      PlaceKeepsUnread(c, s[1..]);
      var t := Place(c, s[1..]);
      forall j | 0 <= j < |t| ensures CurrentDoc(s[0]) <= CurrentDoc(t[j]) {
        assert t[j] in t;
        assert t[j] == c || t[j] in s[1..];
      }
    }
  }

  lemma {:induction false} AdvanceReads(cs: seq<TermCursor>, d: nat)
    requires d != NO_DOC
    ensures Unread(AdvanceAt(cs, d)) <= Unread(cs) && |AdvanceAt(cs, d)| == |cs|
    ensures cs != [] && CurrentDoc(cs[0]) == d ==> Unread(AdvanceAt(cs, d)) < Unread(cs)
  {
    if cs != [] {
      AdvanceReads(cs[1..], d);
    }
  }

  lemma {:induction false} SkipToReads(c: TermCursor, target: nat)
    ensures var c' := SkipTo(c, target);
            c'.postings == c.postings && c'.windows == c.windows && c.pos <= c'.pos
    ensures CurrentDoc(c) < target && c.pos < |c.postings| ==> c.pos < SkipTo(c, target).pos
    ensures forall i :: c.pos <= i < SkipTo(c, target).pos && i < |c.postings| ==> c.postings[i].docid < target
    ensures c.pos <= |c.postings| ==> SkipTo(c, target).pos <= |c.postings|
    ensures var c' := SkipTo(c, target); c'.pos < |c.postings| ==> c.postings[c'.pos].docid >= target
    decreases |c.postings| - c.pos
  {
    if c.pos < |c.postings| && c.postings[c.pos].docid < target {
      SkipToReads(c.(pos := c.pos + 1), target);
    }
  }

  lemma {:induction false} SkipReads(cs: seq<TermCursor>, target: nat)
    requires cs != [] && CurrentDoc(cs[0]) < target && cs[0].pos < |cs[0].postings|
    ensures Unread(SkipLagging(cs, target)) < Unread(cs)
  {
    SkipToReads(cs[0], target);
    assert SkipLagging(cs, target)[1..] == cs[1..];
  }

  /** The loop from a given state to its final heap. Total unread postings strictly
      decrease, so it ends for any cursors whatever. */
  function WandRun(cursors: seq<TermCursor>, heap: seq<ScoredDoc>, k: nat): seq<ScoredDoc>
    decreases Unread(cursors)
  {
    var cs := SortByDoc(cursors);
    if cs == [] || CurrentDoc(cs[0]) == NO_DOC then heap
    else
      match Pivot(cs, 0, 0.0, Threshold(heap, k))
      case None => heap
      case Some(p) =>
        SortKeepsUnread(cursors);
        SortSorts(cursors);
        var d := CurrentDoc(cs[p]);
        if CurrentDoc(cs[0]) == d then
          AdvanceReads(cs, d);
          WandRun(AdvanceAt(cs, d), Offered(heap, k, ScoredDoc(d, ScoreAt(cs, d))), k)
        else
          SkipReads(cs, d);
          WandRun(SkipLagging(cs, d), heap, k)
  }

  function WandResult(cursors: seq<TermCursor>, k: nat): seq<ScoredDoc> {
    if k == 0 then [] else WandRun(cursors, [], k)
  }

  // ----- the course of a run

  /** One iteration: the pivot's document is scored and offered, or a lagging cursor skips to
      it. */
  datatype Move = Scored(pivot: nat, doc: ScoredDoc) | Skipped(pivot: nat, docid: nat)

  /** The iterations in order, and where the cursors end up. */
  datatype Course = Course(moves: seq<Move>, final: seq<TermCursor>)

  function CourseFrom(cursors: seq<TermCursor>, heap: seq<ScoredDoc>, k: nat): Course
    decreases Unread(cursors)
  {
    var cs := SortByDoc(cursors);
    if cs == [] || CurrentDoc(cs[0]) == NO_DOC then Course([], cs)
    else
      match Pivot(cs, 0, 0.0, Threshold(heap, k))
      case None => Course([], cs)
      case Some(p) =>
        SortKeepsUnread(cursors);
        SortSorts(cursors);
        var d := CurrentDoc(cs[p]);
        if CurrentDoc(cs[0]) == d then
          AdvanceReads(cs, d);
          var doc := ScoredDoc(d, ScoreAt(cs, d));
          var rest := CourseFrom(AdvanceAt(cs, d), Offered(heap, k, doc), k);
          Course([Scored(p, doc)] + rest.moves, rest.final)
        else
          SkipReads(cs, d);
          var rest := CourseFrom(SkipLagging(cs, d), heap, k);
          Course([Skipped(p, d)] + rest.moves, rest.final)
  }

  function WandCourse(cursors: seq<TermCursor>, k: nat): Course {
    if k == 0 then Course([], cursors) else CourseFrom(cursors, [], k)
  }

  /** The heap after offering the documents scored on the way. */
  function Replay(heap: seq<ScoredDoc>, moves: seq<Move>, k: nat): seq<ScoredDoc>
    decreases |moves|
  {
    if moves == [] then heap
    else Replay(if moves[0].Scored? then Offered(heap, k, moves[0].doc) else heap, moves[1..], k)
  }

  /** The result of a run is its offers, in order. */
  lemma {:induction false} CourseDecides(cursors: seq<TermCursor>, heap: seq<ScoredDoc>, k: nat)
    ensures WandRun(cursors, heap, k) == Replay(heap, CourseFrom(cursors, heap, k).moves, k)
    decreases Unread(cursors)
  {
    var cs := SortByDoc(cursors);
    SortKeepsUnread(cursors);
    SortSorts(cursors);
    if cs != [] && CurrentDoc(cs[0]) != NO_DOC {
      var p := Pivot(cs, 0, 0.0, Threshold(heap, k));
      if p.Some? {
        var d := CurrentDoc(cs[p.value]);
        if CurrentDoc(cs[0]) == d {
          AdvanceReads(cs, d);
          CourseDecides(AdvanceAt(cs, d), Offered(heap, k, ScoredDoc(d, ScoreAt(cs, d))), k);
        } else {
          SkipReads(cs, d);
          CourseDecides(SkipLagging(cs, d), heap, k);
        }
      }
    }
  }

  /** A run that has made these moves and stands at these cursors is on the course. */
  ghost predicate OnCourse(start: Course, moves: seq<Move>, cursors: seq<TermCursor>, heap: seq<ScoredDoc>, k: nat) {
    var rest := CourseFrom(cursors, heap, k);
    start == Course(moves + rest.moves, rest.final)
  }

  lemma {:induction false} CourseEnds(start: Course, moves: seq<Move>, cursors: seq<TermCursor>, heap: seq<ScoredDoc>, k: nat)
    requires OnCourse(start, moves, cursors, heap, k)
    requires var cs := SortByDoc(cursors); cs == [] || CurrentDoc(cs[0]) == NO_DOC || Pivot(cs, 0, 0.0, Threshold(heap, k)).None?
    ensures start == Course(moves, SortByDoc(cursors))
  {
  }

  lemma {:induction false} CourseScores(start: Course, moves: seq<Move>, cursors: seq<TermCursor>, heap: seq<ScoredDoc>, k: nat, p: nat, d: nat)
    requires OnCourse(start, moves, cursors, heap, k)
    requires var cs := SortByDoc(cursors); cs != [] && p < |cs| && d == CurrentDoc(cs[p]) == CurrentDoc(cs[0]) != NO_DOC && Pivot(cs, 0, 0.0, Threshold(heap, k)) == Some(p)
    ensures var cs := SortByDoc(cursors); var doc := ScoredDoc(d, ScoreAt(cs, d));
            OnCourse(start, moves + [Scored(p, doc)], AdvanceAt(cs, d), Offered(heap, k, doc), k)
  {
  }

  lemma {:induction false} CourseSkips(start: Course, moves: seq<Move>, cursors: seq<TermCursor>, heap: seq<ScoredDoc>, k: nat, p: nat, d: nat)
    requires OnCourse(start, moves, cursors, heap, k)
    requires var cs := SortByDoc(cursors);
             cs != [] && p < |cs| && d == CurrentDoc(cs[p]) != CurrentDoc(cs[0]) && CurrentDoc(cs[0]) != NO_DOC && Pivot(cs, 0, 0.0, Threshold(heap, k)) == Some(p)
    ensures OnCourse(start, moves + [Skipped(p, d)], SkipLagging(SortByDoc(cursors), d), heap, k)
  {
  }

  // ----- what every document really scores

  function ScoreIn(ps: seq<TermPosting>, d: nat): real {
    if ps == [] then 0.0 else (if ps[0].docid == d then ps[0].score else 0.0) + ScoreIn(ps[1..], d)
  }

  function DocScore(cs: seq<TermCursor>, d: nat): real {
    if cs == [] then 0.0 else ScoreIn(cs[0].postings, d) + DocScore(cs[1..], d)
  }

  ghost predicate HasDoc(c: TermCursor, d: nat) {
    exists i :: 0 <= i < |c.postings| && c.postings[i].docid == d
  }

  function DocsOf(ps: seq<TermPosting>): set<nat> {
    set i | 0 <= i < |ps| :: ps[i].docid
  }

  function Docs(cs: seq<TermCursor>): set<nat> {
    if cs == [] then {} else DocsOf(cs[0].postings) + Docs(cs[1..])
  }

  /** The exact score of every document that holds any query term. */
  function Totals(cs: seq<TermCursor>): map<nat, real> {
    map d | d in Docs(cs) :: DocScore(cs, d)
  }
}
