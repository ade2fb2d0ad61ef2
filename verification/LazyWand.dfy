/** Selective-fetch WAND: windows are fetched only when the control flow lands in them.
    It makes the same moves as the eager loop for arbitrary window bounds. */
module LazyWand {
  import opened Common
  import opened Ranking
  import opened Wand
  import opened IndexSort

  /** `disk` is what the index holds and `postings` the cache, meaningless outside the
      fetched windows. `log` lists the window fetches. */
  datatype LazyCursor = LazyCursor(
    windows: seq<WindowBound>,
    winStart: seq<nat>,
    disk: seq<TermPosting>,
    postings: seq<TermPosting>,
    fetched: seq<bool>,
    pos: nat,
    log: seq<nat>)

  /** The prefix sums of non-empty windows over ascending docids. */
  ghost predicate Layout(c: LazyCursor) {
    && |c.winStart| == |c.windows| + 1 && |c.fetched| == |c.windows|
    && c.winStart[0] == 0 && c.winStart[|c.windows|] == |c.disk|
    && (forall v, w :: 0 <= v < w < |c.winStart| ==> c.winStart[v] < c.winStart[w])
    && (forall i, j :: 0 <= i < j < |c.disk| ==> c.disk[i].docid < c.disk[j].docid)
    && (forall i :: 0 <= i < |c.disk| ==> c.disk[i].docid < NO_DOC)
    && (forall w :: 0 <= w < |c.windows| ==>
          0 < c.winStart[w + 1] <= |c.disk| && c.windows[w].lastDocid == c.disk[c.winStart[w + 1] - 1].docid)
  }

  ghost predicate Agree(a: seq<TermPosting>, b: seq<TermPosting>, lo: nat, hi: nat) {
    hi <= |a| && hi <= |b| && forall i :: lo <= i < hi ==> a[i] == b[i]
  }

  ghost predicate CacheGood(c: LazyCursor)
    requires Layout(c)
  {
    && |c.postings| == |c.disk|
    && (forall w :: 0 <= w < |c.fetched| && c.fetched[w] ==>
          Agree(c.postings, c.disk, c.winStart[w], c.winStart[w + 1]))
  }

  /** Each window is fetched at most once, and a fetched window is marked. */
  ghost predicate FetchedOnce(c: LazyCursor) {
    Distinct(c.log) && forall w :: w in c.log ==> w < |c.fetched| && c.fetched[w]
  }

  ghost predicate Valid(c: LazyCursor) {
    Layout(c) && CacheGood(c) && FetchedOnce(c) && c.pos <= |c.disk|
  }

  /** The eager cursor this one stands for. */
  function View(c: LazyCursor): TermCursor {
    TermCursor(c.disk, c.windows, c.pos)
  }

  function Views(cs: seq<LazyCursor>): (v: seq<TermCursor>)
    ensures |v| == |cs| && forall i :: 0 <= i < |cs| ==> v[i] == View(cs[i])
  {
    seq(|cs|, i requires 0 <= i < |cs| => View(cs[i]))
  }

  function TotalPostings(c: LazyCursor): nat {
    if c.winStart == [] then 0 else c.winStart[|c.winStart| - 1]
  }

  /** The window of posting index `p`: the last start at or below it. */
  function WindowFrom(starts: seq<nat>, p: nat, w: nat): (r: nat)
    requires w + 1 < |starts| && starts[w] <= p < starts[|starts| - 1]
    ensures w <= r && r + 1 < |starts| && starts[r] <= p < starts[r + 1]
    decreases |starts| - w
  {
    if p < starts[w + 1] then w else WindowFrom(starts, p, w + 1)
  }

  function WindowOf(starts: seq<nat>, p: nat): (r: nat)
    requires |starts| > 0 && starts[0] == 0 && p < starts[|starts| - 1]
    ensures r + 1 < |starts| && starts[r] <= p < starts[r + 1]
  {
    WindowFrom(starts, p, 0)
  }

  /** Fetches and caches window `w` unless it is already there. */
  function Materialize(c: LazyCursor, w: nat): (c': LazyCursor)
    requires Layout(c) && |c.postings| == |c.disk| && w < |c.windows|
  {
    if c.fetched[w] then c
    else
      var lo, hi := c.winStart[w], c.winStart[w + 1];
      c.(postings := c.postings[..lo] + c.disk[lo..hi] + c.postings[hi..],
         fetched := c.fetched[w := true],
         log := c.log + [w])
  }

  lemma {:induction false} MaterializeKeeps(c: LazyCursor, w: nat)
    requires Valid(c) && w < |c.windows|
    ensures var c' := Materialize(c, w); Valid(c') && View(c') == View(c) && c'.fetched[w]
    ensures Materialize(c, w).winStart == c.winStart
  {
    var c' := Materialize(c, w);
    if !c.fetched[w] {
      assert Layout(c');
      MaterializeCaches(c, w);
      assert w !in c.log;
      assert FetchedOnce(c');
    }
  }

  lemma {:induction false} MaterializeCaches(c: LazyCursor, w: nat)
    requires Layout(c) && CacheGood(c) && w < |c.windows| && !c.fetched[w]
    ensures Layout(Materialize(c, w)) && CacheGood(Materialize(c, w))
  {
    var c' := Materialize(c, w);
    assert Layout(c');
    forall v | 0 <= v < |c.fetched| && c'.fetched[v]
      ensures Agree(c'.postings, c.disk, c.winStart[v], c.winStart[v + 1])
    {
      assert v < w ==> c.winStart[v + 1] <= c.winStart[w];
      assert v > w ==> c.winStart[w + 1] <= c.winStart[v];
      PatchAgrees(c.postings, c.disk, c.winStart[w], c.winStart[w + 1], c.winStart[v], c.winStart[v + 1]);
    }
  }

  /** Copying one stretch from disk keeps the stretches beside it. */
  lemma {:induction false} PatchAgrees(a: seq<TermPosting>, disk: seq<TermPosting>, lo: nat, hi: nat, x: nat, y: nat)
    requires |a| == |disk| && lo <= hi <= |a| && x <= y <= |a|
    requires (x == lo && y == hi) || ((y <= lo || hi <= x) && Agree(a, disk, x, y))
    ensures Agree(a[..lo] + disk[lo..hi] + a[hi..], disk, x, y)
  {
  }

  /** The window under the cursor is in the cache. */
  ghost predicate Ready(c: LazyCursor) {
    Valid(c) && (c.pos < TotalPostings(c) ==> c.fetched[WindowOf(c.winStart, c.pos)])
  }

  /** Every read of a cached posting goes through here, so none precedes its fetch. */
  function CachedAt(c: LazyCursor, p: nat): (r: TermPosting)
    requires Valid(c) && p < TotalPostings(c) && c.fetched[WindowOf(c.winStart, p)]
    ensures r == c.disk[p]
  {
    c.postings[p]
  }

  function LazyDoc(c: LazyCursor): (d: nat)
    requires Ready(c)
    ensures d == CurrentDoc(View(c))
  {
    if c.pos >= TotalPostings(c) then NO_DOC else CachedAt(c, c.pos).docid
  }

  /** Brings the current window in; the log grows by at most that window. */
  method LazyCurrentDoc(c: LazyCursor) returns (c': LazyCursor, d: nat)
    requires Valid(c)
    ensures Ready(c') && View(c') == View(c) && d == CurrentDoc(View(c))
    ensures (Ready(c) ==> c' == c) && Later(c, c')
    ensures c'.log == c.log
            || (c.pos < TotalPostings(c) && c'.log == c.log + [WindowOf(c.winStart, c.pos)])
  {
    if c.pos >= TotalPostings(c) {
      return c, NO_DOC;
    }
    MaterializeKeeps(c, WindowOf(c.winStart, c.pos));
    c' := Materialize(c, WindowOf(c.winStart, c.pos));
    d := LazyDoc(c');
  }

  lemma {:induction false} SkipOver(c: TermCursor, pos: nat, target: nat)
    requires c.pos <= pos <= |c.postings|
    requires forall i :: c.pos <= i < pos ==> c.postings[i].docid < target
    ensures SkipTo(c, target) == SkipTo(c.(pos := pos), target)
    decreases pos - c.pos
  {
    if c.pos < pos {
      SkipOver(c.(pos := c.pos + 1), pos, target);
    }
  }

  /** A cursor may stand anywhere. */
  lemma {:induction false} ValidAt(c: LazyCursor, pos: nat)
    requires Valid(c) && pos <= |c.disk|
    ensures Valid(c.(pos := pos))
  {
    var c' := c.(pos := pos);
    assert Layout(c') && CacheGood(c') && FetchedOnce(c');
  }

  /** Passes whole windows that end before `target`, by the directory alone. */
  method SkipWindows(c: LazyCursor, target: nat) returns (pos: nat)
    requires Valid(c)
    ensures c.pos <= pos <= TotalPostings(c) == |c.disk|
    ensures forall i :: c.pos <= i < pos ==> c.disk[i].docid < target
    ensures pos < TotalPostings(c) ==> c.windows[WindowOf(c.winStart, pos)].lastDocid >= target
  {
    pos := c.pos;
    while pos < TotalPostings(c)
      invariant c.pos <= pos <= TotalPostings(c) == |c.disk|
      invariant forall i :: c.pos <= i < pos ==> c.disk[i].docid < target
    {
      var w := WindowOf(c.winStart, pos);
      if c.windows[w].lastDocid >= target {
        return;
      }
      var last := c.winStart[w + 1] - 1;
      assert forall i :: 0 <= i < last ==> c.disk[i].docid < c.disk[last].docid;
      pos := c.winStart[w + 1];
    }
  }

  /** Walks inside the fetched window under `from` to the first docid at `target`. */
  method WalkWindow(c: LazyCursor, from: nat, target: nat) returns (pos: nat)
    requires Valid(c) && from < TotalPostings(c) && c.fetched[WindowOf(c.winStart, from)]
    requires c.windows[WindowOf(c.winStart, from)].lastDocid >= target
    ensures from <= pos < TotalPostings(c) == |c.disk| && WindowOf(c.winStart, pos) == WindowOf(c.winStart, from)
    ensures c.disk[pos].docid >= target
    ensures forall i :: from <= i < pos ==> c.disk[i].docid < target
  {
    pos := from;
    var w := WindowOf(c.winStart, from);
    while pos < TotalPostings(c) && CachedAt(c, pos).docid < target
      invariant from <= pos < TotalPostings(c) == |c.disk| && WindowOf(c.winStart, pos) == w
      invariant forall i :: from <= i < pos ==> c.disk[i].docid < target
    {
      pos := pos + 1;
      WindowUnique(c, pos, w);
    }
  }

  /** Lands where the per-document walk lands, and fetches the landing window only. */
  method LazySkipTo(c: LazyCursor, target: nat) returns (c': LazyCursor)
    requires Valid(c)
    ensures Valid(c') && View(c') == SkipTo(View(c), target) && Later(c, c')
    ensures c'.log == c.log
            || (c'.pos < TotalPostings(c') && c'.log == c.log + [WindowOf(c'.winStart, c'.pos)])
  {
    var landing := SkipWindows(c, target);
    SkipOver(View(c), landing, target);
    ValidAt(c, landing);
    c' := c.(pos := landing);
    if landing < TotalPostings(c) {
      var w := WindowOf(c'.winStart, landing);
      MaterializeKeeps(c', w);
      c' := Materialize(c', w);
      var pos := WalkWindow(c', landing, target);
      SkipOver(View(c'), pos, target);
      ValidAt(c', pos);
      c' := c'.(pos := pos);
    }
  }

  lemma {:induction false} WindowUnique(c: LazyCursor, p: nat, w: nat)
    requires Layout(c) && w < |c.windows| && c.winStart[w] <= p < c.winStart[w + 1]
    ensures p < TotalPostings(c) && WindowOf(c.winStart, p) == w
  {
    var v := WindowOf(c.winStart, p);
    if v < w {
    } else if v > w {
    }
  }

  // ----- the loop over all terms

  ghost predicate AllValid(cs: seq<LazyCursor>) {
    forall i {:trigger Valid(cs[i])} :: 0 <= i < |cs| ==> Valid(cs[i])
  }

  ghost predicate AllReady(cs: seq<LazyCursor>) {
    forall i {:trigger Ready(cs[i])} :: 0 <= i < |cs| ==> Ready(cs[i])
  }

  lemma {:induction false} ReadyIsValid(cs: seq<LazyCursor>)
    requires AllReady(cs)
    ensures AllValid(cs)
  {
    forall i | 0 <= i < |cs| ensures Valid(cs[i]) {
      assert Ready(cs[i]);
    }
  }

  lemma {:induction false} AllFetchedOnce(cs: seq<LazyCursor>)
    requires AllValid(cs)
    ensures forall i :: 0 <= i < |cs| ==> FetchedOnce(cs[i])
  {
    forall i | 0 <= i < |cs| ensures FetchedOnce(cs[i]) {
      assert Valid(cs[i]);
    }
  }

  // ----- which input cursor a cursor comes from

  /** The same term later in the run: it only moves forward, and its fetches are kept. */
  ghost predicate Later(a: LazyCursor, b: LazyCursor) {
    b.disk == a.disk && b.windows == a.windows && b.winStart == a.winStart && a.pos <= b.pos && a.log <= b.log
  }

  /** Position by position. */
  ghost predicate Stays(a: seq<LazyCursor>, b: seq<LazyCursor>) {
    |b| == |a| && forall i: nat {:trigger Later(a[i], b[i])} :: i < |a| ==> Later(a[i], b[i])
  }

  /** Cursor `i` of `b` is cursor `origin[i]` of `a`, later; every cursor of `a` is there once. */
  ghost predicate Descends(a: seq<LazyCursor>, b: seq<LazyCursor>, origin: seq<nat>) {
    && Permutation(origin, |a|) && |b| == |a|
    && forall i: nat {:trigger Later(a[origin[i]], b[i])} :: i < |b| ==> Later(a[origin[i]], b[i])
  }

  function Identity(n: nat): (r: seq<nat>)
    ensures |r| == n && forall i: nat {:trigger r[i]} :: i < n ==> r[i] == i
  {
    seq(n, i requires 0 <= i < n => i)
  }

  lemma {:induction false} IdentityPermutes(n: nat)
    ensures Permutation(Identity(n), n)
  {
    forall t: nat | t < n ensures t in Identity(n) {
      assert Identity(n)[t] == t;
    }
  }

  function Through(p: seq<nat>, q: seq<nat>): (r: seq<nat>)
    requires forall i :: 0 <= i < |q| ==> q[i] < |p|
    ensures |r| == |q| && forall i: nat {:trigger r[i]} :: i < |q| ==> r[i] == p[q[i]]
  {
    seq(|q|, i requires 0 <= i < |q| => p[q[i]])
  }

  lemma {:induction false} ThroughPermutes(p: seq<nat>, q: seq<nat>, n: nat)
    requires Permutation(p, n) && Permutation(q, n)
    ensures Permutation(Through(p, q), n)
  {
    var r := Through(p, q);
    forall t: nat | t < n ensures t in r {
      assert t in p;
      var i :| 0 <= i < n && p[i] == t;
      assert i in q;
      var j :| 0 <= j < n && q[j] == i;
      assert r[j] == t;
    }
    forall k, m | 0 <= k < m < n ensures r[k] != r[m] {
      assert q[k] != q[m] && r[k] == p[q[k]] && r[m] == p[q[m]];
      assert if q[k] < q[m] then p[q[k]] != p[q[m]] else p[q[m]] != p[q[k]];
    }
  }

  lemma {:induction false} DescendsStart(cs: seq<LazyCursor>)
    ensures Descends(cs, cs, Identity(|cs|))
  {
    IdentityPermutes(|cs|);
  }

  lemma {:induction false} DescendsStays(a: seq<LazyCursor>, b: seq<LazyCursor>, c: seq<LazyCursor>, origin: seq<nat>)
    requires Descends(a, b, origin) && Stays(b, c)
    ensures Descends(a, c, origin)
  {
    forall i: nat | i < |c| ensures Later(a[origin[i]], c[i]) {
      assert Later(a[origin[i]], b[i]) && Later(b[i], c[i]);
    }
  }

  lemma {:induction false} DescendsThrough(a: seq<LazyCursor>, b: seq<LazyCursor>, c: seq<LazyCursor>, p: seq<nat>, q: seq<nat>)
    requires Descends(a, b, p) && Descends(b, c, q)
    ensures Descends(a, c, Through(p, q))
  {
    ThroughPermutes(p, q, |a|);
    forall i: nat | i < |c| ensures Later(a[Through(p, q)[i]], c[i]) {
      assert Later(a[p[q[i]]], b[q[i]]) && Later(b[q[i]], c[i]);
    }
  }

  function PutFirst(q: seq<nat>, k: nat): (r: seq<nat>)
    requires k <= |q|
    ensures |r| == |q| + 1
  {
    seq(|q| + 1, i requires 0 <= i <= |q| => if i < k then q[i] + 1 else if i == k then 0 else q[i - 1] + 1)
  }

  lemma {:induction false} PutFirstPermutes(q: seq<nat>, n: nat, k: nat)
    requires Permutation(q, n) && k <= n
    ensures Permutation(PutFirst(q, k), n + 1)
  {
    var r := PutFirst(q, k);
    forall t: nat | t < n + 1 ensures t in r {
      if t == 0 {
        assert r[k] == 0;
      } else {
        assert t - 1 in q;
        var i :| 0 <= i < n && q[i] == t - 1;
        assert r[if i < k then i else i + 1] == t;
      }
    }
  }

  function PlaceLazy(c: LazyCursor, s: seq<LazyCursor>): (r: seq<LazyCursor>)
    requires Ready(c) && AllReady(s)
    ensures AllReady(r) && Views(r) == Place(View(c), Views(s))
  {
    if s == [] then [c]
    else if LazyDoc(c) <= LazyDoc(s[0]) then
      Prepend(c, s);
      [c] + s
    else
      var r := PlaceLazy(c, s[1..]);
      ReadyTail(s);
      Prepend(s[0], r);
      [s[0]] + r
  }

  lemma {:induction false} Prepend(c: LazyCursor, s: seq<LazyCursor>)
    requires Ready(c) && AllReady(s)
    ensures AllReady([c] + s) && Views([c] + s) == [View(c)] + Views(s)
  {
    forall i | 0 <= i < |[c] + s| ensures Ready(([c] + s)[i]) {
      assert i > 0 ==> Ready(s[i - 1]);
    }
  }

  lemma {:induction false} ReadyTail(s: seq<LazyCursor>)
    requires AllReady(s) && s != []
    ensures Ready(s[0]) && AllReady(s[1..]) && Views(s)[1..] == Views(s[1..]) && Views(s)[0] == View(s[0])
  {
    forall i | 0 <= i < |s[1..]| ensures Ready(s[1..][i]) {
      assert Ready(s[i + 1]);
    }
  }

  function SortLazy(s: seq<LazyCursor>): (r: seq<LazyCursor>)
    requires AllReady(s)
    ensures AllReady(r) && Views(r) == SortByDoc(Views(s))
  {
    if s == [] then []
    else
      assert Views(s)[1..] == Views(s[1..]);
      PlaceLazy(s[0], SortLazy(s[1..]))
  }

  lemma {:induction false} PlaceSplits(c: LazyCursor, s: seq<LazyCursor>) returns (k: nat)
    requires Ready(c) && AllReady(s)
    ensures k <= |s| && PlaceLazy(c, s) == s[..k] + [c] + s[k..]
  {
    k := 0;
    if s != [] {
      ReadyTail(s);
      if LazyDoc(c) > LazyDoc(s[0]) {
        k := PlaceSplits(c, s[1..]);
        SplitShifts(s, c, k);
        k := k + 1;
      }
    }
  }

  lemma {:induction false} SplitShifts<T>(s: seq<T>, c: T, k: nat)
    requires k < |s|
    ensures [s[0]] + (s[1..][..k] + [c] + s[1..][k..]) == s[..k + 1] + [c] + s[k + 1..]
  {
  }

  lemma {:induction false} PutFirstReorders<T>(s: seq<T>, sub: seq<T>, inner: seq<nat>, k: nat)
    requires s != [] && |sub| == |inner| == |s| - 1 && k <= |sub| && Permutation(inner, |sub|)
    requires forall i: nat {:trigger inner[i]} :: i < |sub| ==> sub[i] == s[1..][inner[i]]
    ensures forall i: nat {:trigger PutFirst(inner, k)[i]} :: i < |s| ==> PutFirst(inner, k)[i] < |s| && (sub[..k] + [s[0]] + sub[k..])[i] == s[PutFirst(inner, k)[i]]
  {
    forall i: nat | i < |s| ensures PutFirst(inner, k)[i] < |s| && (sub[..k] + [s[0]] + sub[k..])[i] == s[PutFirst(inner, k)[i]] {
      if i < k {
        assert sub[i] == s[inner[i] + 1];
      } else if i > k {
        assert sub[i - 1] == s[inner[i - 1] + 1];
      }
    }
  }

  /** Sorting only reorders. */
  lemma {:induction false} SortReorders(s: seq<LazyCursor>) returns (q: seq<nat>)
    requires AllReady(s)
    ensures Permutation(q, |s|) && |SortLazy(s)| == |s| && forall i: nat {:trigger q[i]} :: i < |s| ==> SortLazy(s)[i] == s[q[i]]
  {
    if s == [] {
      q := [];
    } else {
      var inner := SortReorders(s[1..]);
      var sub := SortLazy(s[1..]);
      var k := PlaceSplits(s[0], sub);
      PutFirstPermutes(inner, |s| - 1, k);
      q := PutFirst(inner, k);
      PutFirstReorders(s, sub, inner, k);
    }
  }

  /** Materializes every current window, then sorts by current docid. */
  method SelectiveSortByDoc(cs: seq<LazyCursor>) returns (sorted: seq<LazyCursor>, ghost origin: seq<nat>)
    requires AllValid(cs)
    ensures AllReady(sorted) && Views(sorted) == SortByDoc(Views(cs)) && Descends(cs, sorted, origin)
  {
    var ready := [];
    for i := 0 to |cs|
      invariant |ready| == i && AllReady(ready) && Stays(cs[..i], ready)
      invariant forall j :: 0 <= j < i ==> View(ready[j]) == View(cs[j])
    {
      var c, d := LazyCurrentDoc(cs[i]);
      StaysSnoc(cs, ready, i, c);
      ready := ready + [c];
    }
    assert Views(ready) == Views(cs) && cs[..|cs|] == cs;
    sorted := SortLazy(ready);
    origin := SortReorders(ready);
    forall i: nat | i < |cs| ensures Later(cs[origin[i]], sorted[i]) {
      assert Later(cs[origin[i]], ready[origin[i]]) && sorted[i] == ready[origin[i]];
    }
  }

  lemma {:induction false} StaysSnoc(cs: seq<LazyCursor>, done: seq<LazyCursor>, i: nat, c: LazyCursor)
    requires i < |cs| && Stays(cs[..i], done) && Later(cs[i], c)
    ensures Stays(cs[..i + 1], done + [c])
  {
    forall j: nat | j < i + 1 ensures Later(cs[..i + 1][j], (done + [c])[j]) {
      assert j < i ==> Later(cs[..i][j], done[j]);
    }
  }

  method SelectivePivot(cs: seq<LazyCursor>, theta: real) returns (p: Option<nat>)
    requires AllReady(cs)
    ensures p == Pivot(Views(cs), 0, 0.0, theta)
  {
    var bound, i := 0.0, 0;
    ghost var views := Views(cs);
    while i < |cs|
      invariant 0 <= i <= |cs|
      invariant Pivot(views, 0, 0.0, theta) == Pivot(views, i, bound, theta)
    {
      assert views[i] == View(cs[i]);
      var d := LazyDoc(cs[i]);
      if d == NO_DOC {
        return None;
      }
      bound := bound + BoundIn(cs[i].windows, d);
      if bound >= theta {
        return Some(i);
      }
      i := i + 1;
    }
    return None;
  }

  /** One cursor of the score and of the advance. */
  lemma {:induction false} HeadStep(views: seq<TermCursor>, i: nat, d: nat)
    requires i < |views|
    ensures ScoreAt(views[i..], d) == ScoreAt([views[i]], d) + ScoreAt(views[i + 1..], d)
    ensures AdvanceAt(views[i..], d) == AdvanceAt([views[i]], d) + AdvanceAt(views[i + 1..], d)
  {
    assert views[i..][0] == views[i] && views[i..][1..] == views[i + 1..];
    assert [views[i]][1..] == [];
  }

  method SelectiveScoreOne(c: LazyCursor, d: nat) returns (score: real, c': LazyCursor)
    requires Ready(c) && d != NO_DOC
    ensures score == ScoreAt([View(c)], d) && Valid(c') && [View(c')] == AdvanceAt([View(c)], d) && Later(c, c')
  {
    score, c' := 0.0, c;
    assert [View(c)][1..] == [];
    if LazyDoc(c) == d {
      score := CachedAt(c, c.pos).score;
      ValidAt(c, c.pos + 1);
      c' := c.(pos := c.pos + 1);
    }
  }

  lemma {:induction false} Extend(cs: seq<LazyCursor>, c: LazyCursor, rest: seq<TermCursor>)
    requires AllValid(cs) && Valid(c)
    ensures AllValid(cs + [c]) && Views(cs + [c]) + rest == Views(cs) + ([View(c)] + rest)
  {
    assert Views(cs + [c]) == Views(cs) + [View(c)];
  }

  method SelectiveScorePivot(cs: seq<LazyCursor>, d: nat) returns (score: real, cs': seq<LazyCursor>)
    requires AllReady(cs) && d != NO_DOC
    ensures score == ScoreAt(Views(cs), d)
    ensures AllValid(cs') && Views(cs') == AdvanceAt(Views(cs), d) && Stays(cs, cs')
  {
    score, cs' := 0.0, [];
    var views := Views(cs);
    for i := 0 to |cs|
      invariant |cs'| == i && AllValid(cs') && Stays(cs[..i], cs')
      invariant score + ScoreAt(views[i..], d) == ScoreAt(views, d)
      invariant Views(cs') + AdvanceAt(views[i..], d) == AdvanceAt(views, d)
    {
      HeadStep(views, i, d);
      assert Ready(cs[i]) && views[i] == View(cs[i]);
      var part, c := SelectiveScoreOne(cs[i], d);
      Extend(cs', c, AdvanceAt(views[i + 1..], d));
      StaysSnoc(cs, cs', i, c);
      score, cs' := score + part, cs' + [c];
    }
    assert cs[..|cs|] == cs;
  }

  /** The first cursor behind `target`, or the number of cursors. */
  method FirstLagging(cs: seq<LazyCursor>, target: nat) returns (i: nat)
    requires AllReady(cs)
    ensures i <= |cs| && (i < |cs| ==> CurrentDoc(View(cs[i])) < target)
    ensures forall j :: 0 <= j < i ==> CurrentDoc(View(cs[j])) >= target
  {
    i := 0;
    while i < |cs| && LazyDoc(cs[i]) >= target
      invariant i <= |cs| && forall j :: 0 <= j < i ==> CurrentDoc(View(cs[j])) >= target
    {
      i := i + 1;
    }
  }

  lemma {:induction false} SkipLaggingAt(views: seq<TermCursor>, i: nat, target: nat)
    requires i <= |views| && forall j :: 0 <= j < i ==> CurrentDoc(views[j]) >= target
    requires i < |views| ==> CurrentDoc(views[i]) < target
    ensures SkipLagging(views, target) == if i < |views| then views[i := SkipTo(views[i], target)] else views
  {
    if i > 0 {
      SkipLaggingAt(views[1..], i - 1, target);
    } else if views != [] {
      assert views[0 := SkipTo(views[0], target)] == [SkipTo(views[0], target)] + views[1..];
    }
  }

  method SelectiveAdvanceLagging(cs: seq<LazyCursor>, target: nat) returns (cs': seq<LazyCursor>)
    requires AllReady(cs)
    ensures AllValid(cs') && Views(cs') == SkipLagging(Views(cs), target) && Stays(cs, cs')
  {
    ReadyIsValid(cs);
    var i := FirstLagging(cs, target);
    SkipLaggingAt(Views(cs), i, target);
    if i == |cs| {
      return cs;
    }
    var moved := LazySkipTo(cs[i], target);
    cs' := cs[i := moved];
    forall j | 0 <= j < |cs'| ensures Valid(cs'[j]) {
      assert j != i ==> Valid(cs[j]);
    }
    assert Views(cs') == Views(cs)[i := View(moved)];
  }

  /** Scores and offers the pivot's document, or moves a lagging cursor up to it: the eager
      move on the same places. */
  method SelectiveMove(topk: TopK, cs: seq<LazyCursor>, p: nat, ghost before: seq<TermCursor>, ghost course: Course, ghost moves: seq<Move>)
    returns (next: seq<LazyCursor>, ghost move: Move)
    requires topk.Valid() && topk.k > 0 && AllReady(cs) && Views(cs) == SortByDoc(before)
    requires cs != [] && LazyDoc(cs[0]) != NO_DOC && Pivot(Views(cs), 0, 0.0, Threshold(topk.heap, topk.k)) == Some(p)
    requires OnCourse(course, moves, before, topk.heap, topk.k)
    modifies topk
    ensures topk.Valid() && AllValid(next) && Stays(cs, next) && Unread(Views(next)) < Unread(before)
    ensures WandRun(Views(next), topk.heap, topk.k) == old(WandRun(before, topk.heap, topk.k))
    ensures OnCourse(course, moves + [move], Views(next), topk.heap, topk.k)
  {
    SortKeepsUnread(before);
    SortSorts(before);
    var d := LazyDoc(cs[p]);
    if LazyDoc(cs[0]) == d {
      AdvanceReads(Views(cs), d);
      CourseScores(course, moves, before, topk.heap, topk.k, p, d);
      var score;
      score, next := SelectiveScorePivot(cs, d);
      topk.Offer(d, score);
      move := Scored(p, ScoredDoc(d, score));
    } else {
      SkipReads(Views(cs), d);
      CourseSkips(course, moves, before, topk.heap, topk.k, p, d);
      next := SelectiveAdvanceLagging(cs, d);
      move := Skipped(p, d);
    }
  }

  /** The eager run, move by move, for arbitrary window bounds: the same pivots, the same
      documents scored and offered in the same order, the same final places and the same
      result. The final cursors are the query's own, each exactly once, and over the whole run
      each window of each of them is fetched at most once. */
  method WandSelective(cursors: seq<LazyCursor>, k: nat)
    returns (out: seq<ScoredDoc>, final: seq<LazyCursor>, ghost origin: seq<nat>, ghost moves: seq<Move>)
    requires AllValid(cursors)
    ensures out == WandResult(Views(cursors), k) && WandCourse(Views(cursors), k) == Course(moves, Views(final))
    ensures Descends(cursors, final, origin)
    ensures forall i :: 0 <= i < |final| ==> FetchedOnce(final[i])
  {
    final, origin, moves := cursors, Identity(|cursors|), [];
    DescendsStart(cursors);
    if k == 0 {
      AllFetchedOnce(cursors);
      return [], cursors, origin, moves;
    }
    var topk := new TopK(k);
    ghost var course := WandCourse(Views(cursors), k);
    while true
      invariant fresh(topk) && topk.Valid() && topk.k == k && AllValid(final) && Descends(cursors, final, origin)
      invariant WandRun(Views(final), topk.heap, k) == WandRun(Views(cursors), [], k)
      invariant OnCourse(course, moves, Views(final), topk.heap, k)
      decreases Unread(Views(final))
    {
      ghost var before := Views(final);
      var cs;
      ghost var q;
      cs, q := SelectiveSortByDoc(final);
      DescendsThrough(cursors, final, cs, origin, q);
      origin := Through(origin, q);
      ReadyIsValid(cs);
      final := cs;
      if cs == [] || LazyDoc(cs[0]) == NO_DOC {
        CourseEnds(course, moves, before, topk.heap, k);
        break;
      }
      var p := SelectivePivot(cs, Threshold(topk.heap, k));
      if p.None? {
        CourseEnds(course, moves, before, topk.heap, k);
        break;
      }
      ghost var move;
      final, move := SelectiveMove(topk, cs, p.value, before, course, moves);
      moves := moves + [move];
      DescendsStays(cursors, cs, final, origin);
    }
    AllFetchedOnce(final);
    out := topk.DrainSorted();
  }
}
