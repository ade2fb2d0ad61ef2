/** One term's postings: what a token sequence means, how the accumulator groups it, how
    runs are concatenated, and when that is the same thing. */
module Postings {

  /** One occurrence of the term. */
  datatype Tok = Tok(docid: nat, pos: nat)

  /** One document's occurrences, in arrival order; its frequency is their number. */
  datatype Doc = Doc(docid: nat, poss: seq<nat>)

  // ----- the meaning of a token sequence

  /** The positions of document `d`, in arrival order. */
  function PositionsAt(ts: seq<Tok>, d: nat): seq<nat> {
    if ts == [] then []
    else PositionsAt(ts[..|ts| - 1], d) +
         (if ts[|ts| - 1].docid == d then [ts[|ts| - 1].pos] else [])
  }

  ghost predicate StrictlyAscending(g: seq<Doc>) {
    forall i, j :: 0 <= i < j < |g| ==> g[i].docid < g[j].docid
  }

  /** Exactly one entry per docid, ascending, holding that docid's tokens in order. */
  ghost predicate Canonical(g: seq<Doc>, ts: seq<Tok>) {
    && StrictlyAscending(g)
    && (forall x :: x in g ==> x.poss != [] && x.poss == PositionsAt(ts, x.docid))
    && (forall d :: PositionsAt(ts, d) != [] ==> Doc(d, PositionsAt(ts, d)) in g)
  }

  /** The meaning is unique. */
  lemma {:induction false} CanonicalUnique(g: seq<Doc>, h: seq<Doc>, ts: seq<Tok>)
    requires Canonical(g, ts) && Canonical(h, ts)
    ensures g == h
  {
    assert forall x :: x in g <==> x in h;
    SameSetSameList(g, h);
  }

  lemma {:induction false} SameSetSameList(g: seq<Doc>, h: seq<Doc>)
    requires StrictlyAscending(g) && StrictlyAscending(h) && forall x :: x in g <==> x in h
    ensures g == h
  {
    assert h != [] ==> h[0] in g;
    if g != [] {
      assert g[0] in h;
      assert h[0] in g;
      var i :| 0 <= i < |h| && h[i] == g[0];
      var j :| 0 <= j < |g| && g[j] == h[0];
      assert i == 0;
      forall x ensures x in g[1..] <==> x in h[1..] {
        TailMembers(g, x);
        TailMembers(h, x);
      }
      SameSetSameList(g[1..], h[1..]);
      assert g == [g[0]] + g[1..] && h == [h[0]] + h[1..];
    }
  }

  lemma {:induction false} TailMembers(g: seq<Doc>, x: Doc)
    requires StrictlyAscending(g) && g != []
    ensures x in g[1..] <==> x in g && x != g[0]
  {
    if x in g[1..] {
      var i :| 0 <= i < |g[1..]| && g[1..][i] == x;
      assert g[i + 1] == x;
    }
    if x in g && x != g[0] {
      var i :| 0 <= i < |g| && g[i] == x;
      assert g[1..][i - 1] == x;
    }
  }

  // ----- the accumulator's grouping

  /** A token extends the last document if it continues it, else starts a new one. */
  function Push(g: seq<Doc>, t: Tok): seq<Doc> {
    if g != [] && g[|g| - 1].docid == t.docid
    then g[..|g| - 1] + [Doc(t.docid, g[|g| - 1].poss + [t.pos])]
    else g + [Doc(t.docid, [t.pos])]
  }

  function Groups(ts: seq<Tok>): seq<Doc> {
    if ts == [] then [] else Push(Groups(ts[..|ts| - 1]), ts[|ts| - 1])
  }

  ghost predicate NonDecreasing(ts: seq<Tok>) {
    forall i, j :: 0 <= i < j < |ts| ==> ts[i].docid <= ts[j].docid
  }

  lemma {:induction false} GroupsLast(ts: seq<Tok>)
    requires ts != []
    ensures Groups(ts) != [] && Groups(ts)[|Groups(ts)| - 1].docid == ts[|ts| - 1].docid
  {
  }

  // ----- positions per docid through every reshaping

  /** The positions listed under `d`, in list order. */
  function PosIn(g: seq<Doc>, d: nat): seq<nat> {
    if g == [] then []
    else PosIn(g[..|g| - 1], d) + (if g[|g| - 1].docid == d then g[|g| - 1].poss else [])
  }

  ghost predicate NoneEmpty(g: seq<Doc>) {
    forall i :: 0 <= i < |g| ==> g[i].poss != []
  }

  lemma {:induction false} PosInConcat(a: seq<Doc>, b: seq<Doc>, d: nat)
    ensures PosIn(a + b, d) == PosIn(a, d) + PosIn(b, d)
  {
    if b == [] {
      assert a + b == a;
    } else {
      assert (a + b)[..|a + b| - 1] == a + b[..|b| - 1];
      PosInConcat(a, b[..|b| - 1], d);
    }
  }

  lemma {:induction false} PositionsConcat(a: seq<Tok>, b: seq<Tok>, d: nat)
    ensures PositionsAt(a + b, d) == PositionsAt(a, d) + PositionsAt(b, d)
  {
    if b == [] {
      assert a + b == a;
    } else {
      assert (a + b)[..|a + b| - 1] == a + b[..|b| - 1];
      PositionsConcat(a, b[..|b| - 1], d);
    }
  }

  /** In a strictly ascending list a docid's positions are its entry's. */
  lemma {:induction false} PosInAscending(g: seq<Doc>, d: nat)
    requires StrictlyAscending(g)
    ensures forall i :: 0 <= i < |g| && g[i].docid == d ==> PosIn(g, d) == g[i].poss
    ensures (forall i :: 0 <= i < |g| ==> g[i].docid != d) ==> PosIn(g, d) == []
  {
    if g != [] {
      PosInAscending(g[..|g| - 1], d);
    }
  }

  /** Ascending, nothing empty, and the right positions under every docid: that is the
      meaning. */
  lemma {:induction false} CanonicalByPositions(g: seq<Doc>, ts: seq<Tok>)
    requires StrictlyAscending(g) && NoneEmpty(g)
    requires forall d :: PosIn(g, d) == PositionsAt(ts, d)
    ensures Canonical(g, ts)
  {
    forall x | x in g ensures x.poss != [] && x.poss == PositionsAt(ts, x.docid) {
      var i :| 0 <= i < |g| && g[i] == x;
      PosInAscending(g, x.docid);
    }
    forall d | PositionsAt(ts, d) != [] ensures Doc(d, PositionsAt(ts, d)) in g {
      PosInAscending(g, d);
      assert PosIn(g, d) != [];
      var i :| 0 <= i < |g| && g[i].docid == d;
      assert g[i] == Doc(d, PositionsAt(ts, d));
    }
  }

  lemma {:induction false} GroupsPositions(ts: seq<Tok>, d: nat)
    ensures PosIn(Groups(ts), d) == PositionsAt(ts, d)
  {
    if ts != [] {
      var g, t := Groups(ts[..|ts| - 1]), ts[|ts| - 1];
      GroupsPositions(ts[..|ts| - 1], d);
      if g != [] && g[|g| - 1].docid == t.docid {
        PushInto(g, t, d);
      } else {
        PosInConcat(g, [Doc(t.docid, [t.pos])], d);
        SingletonPositions(Doc(t.docid, [t.pos]), d);
      }
    }
  }

  lemma {:induction false} SingletonPositions(x: Doc, d: nat)
    ensures PosIn([x], d) == if x.docid == d then x.poss else []
  {
    assert [x][..0] == [];
  }

  lemma {:induction false} PushInto(g: seq<Doc>, t: Tok, d: nat)
    requires g != [] && g[|g| - 1].docid == t.docid
    ensures PosIn(Push(g, t), d) == PosIn(g, d) + (if t.docid == d then [t.pos] else [])
  {
    var h := Push(g, t);
    assert h[..|h| - 1] == g[..|g| - 1];
  }

  lemma {:induction false} GroupsNoneEmpty(ts: seq<Tok>)
    ensures NoneEmpty(Groups(ts))
  {
    if ts != [] {
      GroupsNoneEmpty(ts[..|ts| - 1]);
    }
  }

  lemma {:induction false} PushAscends(g: seq<Doc>, t: Tok)
    requires StrictlyAscending(g) && (g != [] ==> g[|g| - 1].docid <= t.docid)
    ensures StrictlyAscending(Push(g, t))
  {
  }

  lemma {:induction false} GroupsAscend(ts: seq<Tok>)
    requires NonDecreasing(ts)
    ensures StrictlyAscending(Groups(ts))
  {
    if ts != [] {
      var init := ts[..|ts| - 1];
      assert NonDecreasing(init);
      GroupsAscend(init);
      if init != [] {
        GroupsLast(init);
        assert init[|init| - 1] == ts[|ts| - 2];
      }
      PushAscends(Groups(init), ts[|ts| - 1]);
    }
  }

  // ----- runs laid end to end

  /** Appends `b` behind `a`, folding a shared boundary document into one entry. */
  function Concat(a: seq<Doc>, b: seq<Doc>): seq<Doc> {
    if b == [] then a
    else if a != [] && a[|a| - 1].docid == b[0].docid
    then a[..|a| - 1] + [Doc(b[0].docid, a[|a| - 1].poss + b[0].poss)] + b[1..]
    else a + b
  }

  lemma {:induction false} ConcatPositions(a: seq<Doc>, b: seq<Doc>, d: nat)
    ensures PosIn(Concat(a, b), d) == PosIn(a, d) + PosIn(b, d)
  {
    if b != [] && a != [] && a[|a| - 1].docid == b[0].docid {
      BoundaryPositions(a[..|a| - 1], a[|a| - 1], b[0], b[1..], d);
      assert a == a[..|a| - 1] + [a[|a| - 1]] && b == [b[0]] + b[1..];
    } else {
      PosInConcat(a, b, d);
    }
  }

  lemma {:induction false} BoundaryPositions(init: seq<Doc>, last: Doc, first: Doc, rest: seq<Doc>, d: nat)
    requires last.docid == first.docid
    ensures PosIn(init + [Doc(first.docid, last.poss + first.poss)] + rest, d)
         == PosIn(init + [last], d) + PosIn([first] + rest, d)
  {
    var x := Doc(first.docid, last.poss + first.poss);
    PosInConcat(init + [x], rest, d);
    PosInConcat(init, [x], d);
    PosInConcat(init, [last], d);
    PosInConcat([first], rest, d);
    SingletonPositions(last, d);
    SingletonPositions(first, d);
    SingletonPositions(x, d);
    Regroup(PosIn(init, d), PosIn([last], d), PosIn([first], d), PosIn(rest, d));
  }

  lemma {:induction false} Regroup(p: seq<nat>, q: seq<nat>, r: seq<nat>, t: seq<nat>)
    ensures p + (q + r) + t == (p + q) + (r + t)
  {
  }

  lemma {:induction false} ConcatNoneEmpty(a: seq<Doc>, b: seq<Doc>)
    requires NoneEmpty(a) && NoneEmpty(b)
    ensures NoneEmpty(Concat(a, b))
  {
  }

  /** Concatenation stays ascending exactly when `b` does not start below `a`'s end. */
  lemma {:induction false} ConcatAscends(a: seq<Doc>, b: seq<Doc>)
    requires StrictlyAscending(a) && StrictlyAscending(b)
    ensures StrictlyAscending(Concat(a, b)) <==> (a == [] || b == [] || a[|a| - 1].docid <= b[0].docid)
  {
    if a != [] && b != [] {
      var c, n := Concat(a, b), |a|;
      if a[n - 1].docid > b[0].docid {
        assert c[n - 1] == a[n - 1] && c[n] == b[0];
      } else if a[n - 1].docid == b[0].docid {
        assert forall i :: 0 <= i < |c| ==> c[i].docid == if i < n then a[i].docid else b[i - n + 1].docid;
      }
    }
  }

  // ----- the defensive reordering

  /** Stable insertion behind every docid at or below. */
  function Ins(s: seq<Doc>, x: Doc): seq<Doc> {
    if s == [] || s[|s| - 1].docid <= x.docid then s + [x] else Ins(s[..|s| - 1], x) + [s[|s| - 1]]
  }

  function StableSort(g: seq<Doc>): seq<Doc> {
    if g == [] then [] else Ins(StableSort(g[..|g| - 1]), g[|g| - 1])
  }

  /** Folds neighbours with equal docids into one entry. */
  function Coalesce(g: seq<Doc>): seq<Doc> {
    if g == [] then [] else Concat(Coalesce(g[..|g| - 1]), [g[|g| - 1]])
  }

  ghost predicate Ascending(g: seq<Doc>) {
    forall i, j :: 0 <= i < j < |g| ==> g[i].docid <= g[j].docid
  }

  lemma {:induction false} InsMembers(s: seq<Doc>, x: Doc)
    ensures |Ins(s, x)| == |s| + 1
    ensures forall y :: y in Ins(s, x) <==> y == x || y in s
  {
    if s != [] && s[|s| - 1].docid > x.docid {
      InsMembers(s[..|s| - 1], x);
      assert s == s[..|s| - 1] + [s[|s| - 1]];
    }
  }

  lemma {:induction false} InsAscends(s: seq<Doc>, x: Doc)
    requires Ascending(s)
    ensures Ascending(Ins(s, x))
  {
    if s != [] && s[|s| - 1].docid > x.docid {
      var init, last := s[..|s| - 1], s[|s| - 1];
      InsAscends(init, x);
      InsMembers(init, x);
      var t := Ins(init, x);
      forall i | 0 <= i < |t| ensures t[i].docid <= last.docid {
        assert t[i] in t;
        assert t[i] == x || t[i] in init;
      }
    }
  }

  lemma {:induction false} SwapEmpty(a: seq<nat>, b: seq<nat>, c: seq<nat>)
    requires b == [] || c == []
    ensures a + b + c == a + c + b
  {
  }

  lemma {:induction false} InsPositions(s: seq<Doc>, x: Doc, d: nat)
    ensures PosIn(Ins(s, x), d) == PosIn(s, d) + (if x.docid == d then x.poss else [])
  {
    if s == [] || s[|s| - 1].docid <= x.docid {
      PosInConcat(s, [x], d);
      SingletonPositions(x, d);
    } else {
      var init, last := s[..|s| - 1], s[|s| - 1];
      InsPositions(init, x, d);
      PosInConcat(Ins(init, x), [last], d);
      SingletonPositions(last, d);
      SwapEmpty(PosIn(init, d), if x.docid == d then x.poss else [], if last.docid == d then last.poss else []);
    }
  }

  lemma {:induction false} InsKeeps(s: seq<Doc>, x: Doc, d: nat)
    requires Ascending(s) && NoneEmpty(s) && x.poss != []
    ensures Ascending(Ins(s, x)) && NoneEmpty(Ins(s, x))
    ensures PosIn(Ins(s, x), d) == PosIn(s, d) + (if x.docid == d then x.poss else [])
  {
    InsAscends(s, x);
    InsPositions(s, x, d);
    InsMembers(s, x);
    var t := Ins(s, x);
    forall i | 0 <= i < |t| ensures t[i].poss != [] {
      assert t[i] in t;
      assert t[i] == x || t[i] in s;
    }
  }

  lemma {:induction false} SortKeeps(g: seq<Doc>, d: nat)
    requires NoneEmpty(g)
    ensures Ascending(StableSort(g)) && NoneEmpty(StableSort(g)) && PosIn(StableSort(g), d) == PosIn(g, d)
  {
    if g != [] {
      SortKeeps(g[..|g| - 1], d);
      InsKeeps(StableSort(g[..|g| - 1]), g[|g| - 1], d);
    }
  }

  lemma {:induction false} CoalesceAscends(g: seq<Doc>)
    requires Ascending(g) && NoneEmpty(g)
    ensures StrictlyAscending(Coalesce(g)) && NoneEmpty(Coalesce(g))
    ensures g != [] ==> Coalesce(g) != [] && Coalesce(g)[|Coalesce(g)| - 1].docid == g[|g| - 1].docid
  {
    if g != [] {
      var init, last := g[..|g| - 1], g[|g| - 1];
      CoalesceAscends(init);
      if init != [] {
        assert init[|init| - 1] == g[|g| - 2];
      }
      ConcatAscends(Coalesce(init), [last]);
      ConcatNoneEmpty(Coalesce(init), [last]);
    }
  }

  lemma {:induction false} CoalescePositions(g: seq<Doc>, d: nat)
    ensures PosIn(Coalesce(g), d) == PosIn(g, d)
  {
    if g != [] {
      CoalescePositions(g[..|g| - 1], d);
      ConcatPositions(Coalesce(g[..|g| - 1]), [g[|g| - 1]], d);
      SingletonPositions(g[|g| - 1], d);
    }
  }

  /** What one fill of the buffer yields for the term: the groups as they are, or
      reordered when a docid stepped back. */
  ghost function Drained(ts: seq<Tok>): seq<Doc> {
    if NonDecreasing(ts) then Groups(ts) else Coalesce(StableSort(Groups(ts)))
  }

  /** One fill always yields the meaning of its tokens, in order or not. */
  lemma {:induction false} DrainedCanonical(ts: seq<Tok>)
    ensures Canonical(Drained(ts), ts) && NoneEmpty(Drained(ts))
    ensures forall d :: PosIn(Drained(ts), d) == PositionsAt(ts, d)
  {
    GroupsNoneEmpty(ts);
    var g := Groups(ts);
    if NonDecreasing(ts) {
      GroupsAscend(ts);
    } else {
      SortKeeps(g, 0);
      CoalesceAscends(StableSort(g));
    }
    forall d ensures PosIn(Drained(ts), d) == PositionsAt(ts, d) {
      GroupsPositions(ts, d);
      SortKeeps(g, d);
      CoalescePositions(StableSort(g), d);
    }
    CanonicalByPositions(Drained(ts), ts);
  }

  // ----- spilling

  function Flatten(segs: seq<seq<Tok>>): seq<Tok> {
    if segs == [] then [] else Flatten(segs[..|segs| - 1]) + segs[|segs| - 1]
  }

  /** The runs of consecutive fills, concatenated in run order. */
  ghost function Merged(segs: seq<seq<Tok>>): seq<Doc> {
    if segs == [] then [] else Concat(Merged(segs[..|segs| - 1]), Drained(segs[|segs| - 1]))
  }

  lemma {:induction false} MergedPositions(segs: seq<seq<Tok>>, d: nat)
    ensures PosIn(Merged(segs), d) == PositionsAt(Flatten(segs), d) && NoneEmpty(Merged(segs))
  {
    if segs != [] {
      var init, last := segs[..|segs| - 1], segs[|segs| - 1];
      MergedPositions(init, d);
      DrainedCanonical(last);
      ConcatPositions(Merged(init), Drained(last), d);
      PositionsConcat(Flatten(init), last, d);
      ConcatNoneEmpty(Merged(init), Drained(last));
    }
  }

  lemma {:induction false} GroupsEnds(ts: seq<Tok>)
    requires ts != [] && NonDecreasing(ts)
    ensures Groups(ts) != [] && Groups(ts)[0].docid == ts[0].docid
    ensures Groups(ts)[|Groups(ts)| - 1].docid == ts[|ts| - 1].docid
  {
    GroupsLast(ts);
    if |ts| > 1 {
      var init := ts[..|ts| - 1];
      GroupsEnds(init);
    } else {
      assert ts[..0] == [];
    }
  }

  lemma {:induction false} Halves(front: seq<Tok>, last: seq<Tok>)
    requires NonDecreasing(front + last)
    ensures NonDecreasing(front) && NonDecreasing(last)
    ensures front != [] && last != [] ==> front[|front| - 1].docid <= last[0].docid
  {
    var whole := front + last;
    assert forall i :: 0 <= i < |front| ==> whole[i] == front[i];
    assert forall i :: 0 <= i < |last| ==> whole[|front| + i] == last[i];
  }

  lemma {:induction false} ConcatEnds(a: seq<Doc>, b: seq<Doc>)
    requires b != []
    ensures var c := Concat(a, b); c != [] && c[|c| - 1].docid == b[|b| - 1].docid
  {
  }

  /** What the runs so far amount to: ascending, and ending where their tokens end. */
  ghost predicate EndsWith(m: seq<Doc>, ts: seq<Tok>) {
    && StrictlyAscending(m)
    && (ts == [] ==> m == [])
    && (ts != [] ==> m != [] && m[|m| - 1].docid == ts[|ts| - 1].docid)
  }

  lemma {:induction false} RunJoins(m: seq<Doc>, front: seq<Tok>, last: seq<Tok>)
    requires EndsWith(m, front) && NonDecreasing(front + last)
    ensures EndsWith(Concat(m, Drained(last)), front + last)
  {
    Halves(front, last);
    assert Drained(last) == Groups(last);
    if last == [] {
      assert front + last == front;
    } else {
      GroupsAscend(last);
      GroupsEnds(last);
      ConcatEnds(m, Groups(last));
      ConcatAscends(m, Groups(last));
    }
  }

  lemma {:induction false} MergedAscends(segs: seq<seq<Tok>>)
    requires NonDecreasing(Flatten(segs))
    ensures EndsWith(Merged(segs), Flatten(segs))
  {
    if segs != [] {
      var init, last := segs[..|segs| - 1], segs[|segs| - 1];
      Halves(Flatten(init), last);
      MergedAscends(init);
      RunJoins(Merged(init), Flatten(init), last);
    }
  }

  /** However the tokens are cut into fills, the merged runs mean the whole sequence,
      provided docids never step back. */
  lemma {:induction false} MergedCanonical(segs: seq<seq<Tok>>)
    requires NonDecreasing(Flatten(segs))
    ensures Canonical(Merged(segs), Flatten(segs))
  {
    forall d ensures PosIn(Merged(segs), d) == PositionsAt(Flatten(segs), d) {
      MergedPositions(segs, d);
    }
    MergedPositions(segs, 0);
    MergedAscends(segs);
    CanonicalByPositions(Merged(segs), Flatten(segs));
  }

  ghost predicate Cuts(segs: seq<seq<Tok>>, ts: seq<Tok>) {
    Flatten(segs) == ts
  }

  /** Every way to cut the tokens gives what no cut gives. */
  ghost predicate ScheduleFree(ts: seq<Tok>) {
    forall segs {:trigger Cuts(segs, ts)} :: Cuts(segs, ts) ==> Merged(segs) == Drained(ts)
  }

  lemma {:induction false} CutsAgree(ts: seq<Tok>, segs: seq<seq<Tok>>)
    requires NonDecreasing(ts) && Flatten(segs) == ts
    ensures Merged(segs) == Drained(ts)
  {
    MergedCanonical(segs);
    DrainedCanonical(ts);
    CanonicalUnique(Merged(segs), Drained(ts), ts);
  }

  /** The documented independence of the spill schedule holds exactly for terms whose
      docids never step back. */
  lemma {:induction false} ScheduleFreeIff(ts: seq<Tok>)
    ensures ScheduleFree(ts) <==> NonDecreasing(ts)
  {
    if NonDecreasing(ts) {
      forall segs | Cuts(segs, ts) ensures Merged(segs) == Drained(ts) {
        CutsAgree(ts, segs);
      }
    } else {
      var i := StepBack(ts);
      var segs := CutAtStepBack(ts, i);
    }
  }

  lemma {:induction false} StepBack(ts: seq<Tok>) returns (i: nat)
    requires !NonDecreasing(ts)
    ensures i + 1 < |ts| && ts[i].docid > ts[i + 1].docid
  {
    i := 0;
    while i + 1 < |ts| && ts[i].docid <= ts[i + 1].docid
      invariant i < |ts|
      invariant forall j, k :: 0 <= j < k <= i ==> ts[j].docid <= ts[k].docid
    {
      i := i + 1;
    }
  }

  /** A spill between the two tokens of a backward step leaves the merged list unsorted. */
  lemma {:induction false} CutAtStepBack(ts: seq<Tok>, i: nat) returns (segs: seq<seq<Tok>>)
    requires i + 1 < |ts| && ts[i].docid > ts[i + 1].docid
    ensures segs == [ts[..i + 1], ts[i + 1..]] && Cuts(segs, ts) && Merged(segs) != Drained(ts)
  {
    var a, b := ts[..i + 1], ts[i + 1..];
    segs := [a, b];
    var front := [a];
    assert segs[..1] == front && front[..0] == [];
    assert Flatten(front) == a;
    assert Flatten(segs) == a + b == ts;
    assert Merged(front) == Concat([], Drained(a)) == Drained(a);
    assert Merged(segs) == Concat(Drained(a), Drained(b));
    DrainedCanonical(a);
    DrainedCanonical(b);
    DrainedCanonical(ts);
    Reaches(a, a[i]);
    Reaches(b, b[0]);
    ConcatAscends(Drained(a), Drained(b));
  }

  /** A fill's list spans every docid it saw. */
  lemma {:induction false} Reaches(ts: seq<Tok>, t: Tok)
    requires t in ts
    ensures var g := Drained(ts); g != [] && g[0].docid <= t.docid <= g[|g| - 1].docid
  {
    DrainedCanonical(ts);
    SeenHasPositions(ts, t);
    var x := Doc(t.docid, PositionsAt(ts, t.docid));
    var i :| 0 <= i < |Drained(ts)| && Drained(ts)[i] == x;
  }

  lemma {:induction false} SeenHasPositions(ts: seq<Tok>, t: Tok)
    requires t in ts
    ensures PositionsAt(ts, t.docid) != []
  {
    var init := ts[..|ts| - 1];
    if ts[|ts| - 1].docid != t.docid {
      assert ts == init + [ts[|ts| - 1]];
      SeenHasPositions(init, t);
    }
  }
}
