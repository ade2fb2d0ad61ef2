/** The docid conjunction: the rarest term is read whole, every later term only in the
    windows that cover a surviving candidate. */
module Conjunction {
  import opened DocidSets
  import opened WindowDirectory
  import opened PositionalPostings
  import opened IndexSort

  // ----- covering windows

  /** Every window that covers `d` has been selected. */
  ghost predicate Reached(lasts: seq<nat>, d: nat, sel: seq<nat>) {
    forall w: nat {:trigger Covers(lasts, d, w)} :: Covers(lasts, d, w) ==> w in sel
  }

  ghost predicate CoversSome(lasts: seq<nat>, candidates: seq<nat>, w: nat) {
    exists d :: d in candidates && Covers(lasts, d, w)
  }

  lemma {:induction false} CoversMonotone(lasts: seq<nat>, d: nat, w: nat, d': nat, w': nat)
    requires Covers(lasts, d, w) && Covers(lasts, d', w') && d <= d'
    ensures w <= w' && (d == d' ==> w == w')
  {
  }

  method SelectCoveringWindows(dir: Directory, candidates: seq<nat>) returns (sel: seq<nat>)
    requires WindowDirectory.Valid(dir) && Ascending(candidates)
    ensures Increasing(sel, |dir.lasts|)
    ensures forall x {:trigger candidates[x]} :: 0 <= x < |candidates| ==> Reached(dir.lasts, candidates[x], sel)
    ensures forall k :: 0 <= k < |sel| ==> CoversSome(dir.lasts, candidates, sel[k])
  {
    sel := [];
    ghost var from := 0;
    for n := 0 to |candidates|
      invariant Increasing(sel, |dir.lasts|)
      invariant forall x {:trigger candidates[x]} :: 0 <= x < n ==> Reached(dir.lasts, candidates[x], sel)
      invariant forall k :: 0 <= k < |sel| ==> CoversSome(dir.lasts, candidates, sel[k])
      invariant sel != [] ==> 0 <= from < n && Covers(dir.lasts, candidates[from], sel[|sel| - 1])
    {
      var d := candidates[n];
      var w := LocateWindow(dir, d);
      ghost var was := sel;
      if w.Some? {
        CoveredOnce(dir.lasts, d, w.value);
        if sel != [] {
          CoversMonotone(dir.lasts, candidates[from], sel[|sel| - 1], d, w.value);
        }
        from := n;
        if sel == [] || sel[|sel| - 1] != w.value {
          AscendingSnoc(sel, w.value);
          sel := sel + [w.value];
        }
      }
      forall x | 0 <= x < n ensures Reached(dir.lasts, candidates[x], sel) {
        assert Reached(dir.lasts, candidates[x], was);
      }
    }
  }

  lemma {:induction false} CoveredOnce(lasts: seq<nat>, d: nat, w: nat)
    requires Covers(lasts, d, w)
    ensures forall v: nat {:trigger Covers(lasts, d, v)} :: Covers(lasts, d, v) ==> v == w
  {
    forall v: nat | Covers(lasts, d, v) ensures v == w {
      CoversMonotone(lasts, d, v, d, w);
    }
  }

  // ----- reading one term's docids

  ghost predicate DocsOf(docs: seq<nat>, cs: seq<Chunk>) {
    Ascending(docs) && forall d :: d in docs <==> Has(cs, d)
  }

  lemma {:induction false} HasSnoc(cs: seq<Chunk>, c: Chunk, d: nat)
    ensures Has(cs + [c], d) <==> Has(cs, d) || d in c.docids
  {
    var r := cs + [c];
    if Has(r, d) {
      var i: nat, j: nat :| Located(r, d, i, j);
      assert i < |cs| ==> Located(cs, d, i, j);
    }
    if Has(cs, d) {
      var i: nat, j: nat :| Located(cs, d, i, j);
      assert Located(r, d, i, j);
    }
    if d in c.docids {
      var j :| 0 <= j < |c.docids| && c.docids[j] == d;
      assert Located(r, d, |cs|, j);
    }
  }

  lemma {:induction false} DocsSnoc(docs: seq<nat>, cs: seq<Chunk>, c: Chunk)
    requires DocsOf(docs, cs) && ValidChunks(cs + [c])
    ensures DocsOf(docs + c.docids, cs + [c])
  {
    var r := cs + [c];
    assert ValidChunk(r[|cs|]);
    forall d ensures d in docs + c.docids <==> Has(r, d) {
      HasSnoc(cs, c, d);
    }
    forall x, y | 0 <= x < |docs| && 0 <= y < |c.docids| ensures docs[x] < c.docids[y] {
      assert docs[x] in docs;
      var i: nat, j: nat :| Located(cs, docs[x], i, j);
      ChunkOrder(r, i, j, |cs|, y);
    }
    JoinAscending(docs, c.docids);
  }

  lemma {:induction false} JoinAscending(a: seq<nat>, b: seq<nat>)
    requires Ascending(a) && Ascending(b) && forall x, y :: 0 <= x < |a| && 0 <= y < |b| ==> a[x] < b[y]
    ensures Ascending(a + b)
  {
  }

  lemma {:induction false} PrefixValid(cs: seq<Chunk>, n: nat)
    requires ValidChunks(cs) && n <= |cs|
    ensures ValidChunks(cs[..n])
  {
    var r := cs[..n];
    assert forall i :: 0 <= i < n ==> r[i] == cs[i];
    forall i | 0 <= i < n ensures ValidChunk(r[i]) {
      assert ValidChunk(cs[i]);
    }
    forall i, j | 0 <= i < j < n ensures Precedes(r[i], r[j]) {
      assert Precedes(cs[i], cs[j]);
    }
  }

  /** The next selected window adds its documents. */
  lemma {:induction false} SelectNext(windows: seq<Chunk>, sel: seq<nat>, k: nat, docs: seq<nat>)
    requires ValidChunks(windows) && Increasing(sel, |windows|) && k < |sel| && DocsOf(docs, Select(windows, sel)[..k])
    ensures Select(windows, sel)[..k + 1] == Select(windows, sel)[..k] + [windows[sel[k]]]
    ensures DocsOf(docs + windows[sel[k]].docids, Select(windows, sel)[..k + 1])
  {
    var all := Select(windows, sel);
    SelectValid(windows, sel);
    PrefixValid(all, k + 1);
    assert all[..k + 1] == all[..k] + [windows[sel[k]]];
    DocsSnoc(docs, all[..k], windows[sel[k]]);
  }

  /** Fetches and decodes the given windows, in order. */
  method DecodeWindowedDocids(windows: seq<Chunk>, sel: seq<nat>) returns (chunks: seq<Chunk>, docs: seq<nat>)
    requires ValidChunks(windows) && Increasing(sel, |windows|)
    ensures chunks == Select(windows, sel) && DocsOf(docs, chunks)
  {
    chunks, docs := [], [];
    ghost var all := Select(windows, sel);
    for k := 0 to |sel|
      invariant chunks == all[..k] && DocsOf(docs, chunks)
    {
      SelectNext(windows, sel, k, docs);
      docs := docs + windows[sel[k]].docids;
      chunks := chunks + [windows[sel[k]]];
    }
    assert all[..|sel|] == all;
  }

  function AllWindows(n: nat): (r: seq<nat>)
    ensures Increasing(r, n) && |r| == n && forall i :: 0 <= i < n ==> r[i] == i
  {
    seq(n, i => i)
  }

  /** What reading a term must preserve of one document. */
  ghost predicate Kept(sub: seq<Chunk>, cs: seq<Chunk>, d: nat) {
    Has(cs, d) ==> Has(sub, d) && PositionsAt(sub, d) == PositionsAt(cs, d)
  }

  lemma {:induction false} SelectionKeeps(p: Posting, sel: seq<nat>, d: nat)
    requires p.Windowed? && ValidPosting(p) && Increasing(sel, |p.windows|)
    requires Reached(p.directory.lasts, d, sel) || sel == AllWindows(|p.windows|)
    ensures Kept(Select(p.windows, sel), p.windows, d)
  {
    if Has(p.windows, d) {
      var i: nat, j: nat :| Located(p.windows, d, i, j);
      if sel != AllWindows(|p.windows|) {
        CoveringWindow(p, d, i, j);
      } else {
        assert sel[i] == i;
      }
      var k :| 0 <= k < |sel| && sel[k] == i;
      SelectedAt(p.windows, sel, d, k, j);
    }
  }

  /** The window that holds `d` is the window that covers it. */
  lemma {:induction false} CoveringWindow(p: Posting, d: nat, i: nat, j: nat)
    requires p.Windowed? && ValidPosting(p) && Located(p.windows, d, i, j)
    ensures Covers(p.directory.lasts, d, i)
  {
    var lasts := p.directory.lasts;
    assert Records(p.windows[i], lasts[i]) && ValidChunk(p.windows[i]);
    forall w | 0 <= w < i ensures lasts[w] < d {
      assert Records(p.windows[w], lasts[w]);
      ChunkOrder(p.windows, w, |p.windows[w].docids| - 1, i, j);
    }
  }

  lemma {:induction false} SelectionAddsNothing(cs: seq<Chunk>, sel: seq<nat>)
    requires Increasing(sel, |cs|)
    ensures forall d {:trigger Has(cs, d)} {:trigger Has(Select(cs, sel), d)} :: Has(Select(cs, sel), d) ==> Has(cs, d)
  {
    forall d | Has(Select(cs, sel), d) ensures Has(cs, d) {
      SelectHas(cs, sel, d);
    }
  }

  /** What `sub` must be for reading a term: its own documents, the candidates' kept. */
  ghost predicate Serves(p: Posting, driver: bool, candidates: seq<nat>, sub: seq<Chunk>) {
    && ValidChunks(sub)
    && (forall d {:trigger Has(sub, d)} :: Has(sub, d) ==> Has(Chunks(p), d))
    && (forall d {:trigger Kept(sub, Chunks(p), d)} :: driver || d in candidates ==> Kept(sub, Chunks(p), d))
  }

  /** All windows of the driver, or those covering the candidates, serve. */
  lemma {:induction false} SelectionServes(p: Posting, driver: bool, candidates: seq<nat>, sel: seq<nat>)
    requires p.Windowed? && ValidPosting(p) && Increasing(sel, |p.windows|)
    requires if driver then sel == AllWindows(|p.windows|)
             else forall x {:trigger candidates[x]} :: 0 <= x < |candidates| ==> Reached(p.directory.lasts, candidates[x], sel)
    ensures Serves(p, driver, candidates, Select(p.windows, sel))
  {
    SelectValid(p.windows, sel);
    SelectionAddsNothing(p.windows, sel);
    forall d | driver || d in candidates ensures Kept(Select(p.windows, sel), p.windows, d) {
      SelectionKeeps(p, sel, d);
    }
  }

  lemma {:induction false} FlatServes(p: Posting, driver: bool, candidates: seq<nat>)
    requires p.Flat? && ValidPosting(p)
    ensures Serves(p, driver, candidates, [p.chunk]) && DocsOf(p.chunk.docids, [p.chunk])
  {
    assert ValidChunk(Chunks(p)[0]);
    DocsSnoc([], [], p.chunk);
    assert [] + [p.chunk] == [p.chunk] && [] + p.chunk.docids == p.chunk.docids;
  }

  /** The driver reads every window; a later term only those covering a candidate. */
  method ReadTerm(p: Posting, driver: bool, candidates: seq<nat>) returns (sub: seq<Chunk>, docs: seq<nat>)
    requires ValidPosting(p) && Ascending(candidates)
    ensures Serves(p, driver, candidates, sub) && DocsOf(docs, sub)
  {
    match p
    case Flat(_, chunk) =>
      FlatServes(p, driver, candidates);
      sub, docs := [chunk], chunk.docids;
    case Windowed(_, windows, directory) =>
      var sel := SelectWindows(directory, driver, candidates);
      sub, docs := DecodeWindowedDocids(windows, sel);
      SelectionServes(p, driver, candidates, sel);
  }

  /** The windows to read: all of the driver's, and of a later term only those covering a
      candidate. */
  method SelectWindows(dir: Directory, driver: bool, candidates: seq<nat>) returns (sel: seq<nat>)
    requires WindowDirectory.Valid(dir) && Ascending(candidates)
    ensures Increasing(sel, |dir.lasts|)
    ensures if driver then sel == AllWindows(|dir.lasts|)
            else forall x {:trigger candidates[x]} :: 0 <= x < |candidates| ==> Reached(dir.lasts, candidates[x], sel)
    ensures !driver ==> forall k :: 0 <= k < |sel| ==> CoversSome(dir.lasts, candidates, sel[k])
  {
    if driver {
      sel := AllWindows(|dir.lasts|);
    } else {
      sel := SelectCoveringWindows(dir, candidates);
    }
  }

  // ----- all terms

  /** Plan positions by ascending df. */
  method AscendingDfOrder(dfs: seq<nat>) returns (order: seq<nat>)
    ensures Permutation(order, |dfs|)
    ensures forall k, m :: 0 <= k < m < |order| ==> dfs[order[k]] <= dfs[order[m]]
  {
    order := SortByKey(dfs);
    assert ByKey(dfs, order, |dfs|);
  }

  ghost predicate HasFirst(ps: seq<Posting>, order: seq<nat>, k: nat, d: nat)
    requires Permutation(order, |ps|) && k <= |ps|
  {
    forall m {:trigger order[m]} :: 0 <= m < k ==> Has(Chunks(ps[order[m]]), d)
  }

  lemma {:induction false} HasFirstAll(ps: seq<Posting>, order: seq<nat>, d: nat)
    requires Permutation(order, |ps|)
    ensures HasFirst(ps, order, |ps|, d) <==> HasAll(ps, d)
  {
    if HasFirst(ps, order, |ps|, d) {
      forall t | 0 <= t < |ps| ensures Has(Chunks(ps[t]), d) {
        assert t in order;
      }
    }
    if HasAll(ps, d) {
      forall m | 0 <= m < |ps| ensures Has(Chunks(ps[order[m]]), d) {
        assert Has(Chunks(ps[order[m]]), d);
      }
    }
  }

  lemma {:induction false} HasFirstPrefix(ps: seq<Posting>, order: seq<nat>, k: nat, d: nat)
    requires Permutation(order, |ps|) && k <= |ps| && HasAll(ps, d)
    ensures HasFirst(ps, order, k, d)
  {
    HasFirstAll(ps, order, d);
    forall m | 0 <= m < k ensures Has(Chunks(ps[order[m]]), d) {
      assert order[m] < |ps|;
    }
  }

  /** The candidates after `k` terms, and what the terms read so far still say of them. */
  ghost predicate Narrowed(ps: seq<Posting>, order: seq<nat>, k: nat, srcs: seq<seq<Chunk>>, candidates: seq<nat>)
    requires Permutation(order, |ps|) && k <= |ps|
  {
    && |srcs| == |ps| && Ascending(candidates)
    && (forall d {:trigger HasFirst(ps, order, k, d)} {:trigger d in candidates} :: d in candidates <==> HasFirst(ps, order, k, d))
    && (forall m {:trigger order[m]} :: 0 <= m < k ==> Retains(srcs[order[m]], Chunks(ps[order[m]]), candidates))
  }

  lemma {:induction false} FewerCandidates(sub: seq<Chunk>, cs: seq<Chunk>, candidates: seq<nat>, fewer: seq<nat>)
    requires Retains(sub, cs, candidates) && forall d :: d in fewer ==> d in candidates
    ensures Retains(sub, cs, fewer)
  {
  }

  /** Reading term `order[k]` narrows the candidates to those that also have it. */
  lemma {:induction false} NarrowStep(ps: seq<Posting>, order: seq<nat>, k: nat, srcs: seq<seq<Chunk>>, candidates: seq<nat>,
                                      sub: seq<Chunk>, docs: seq<nat>, next: seq<nat>)
    requires Permutation(order, |ps|) && k < |ps| && |srcs| == |ps|
    requires k > 0 ==> Narrowed(ps, order, k, srcs, candidates)
    requires Serves(ps[order[k]], k == 0, candidates, sub) && DocsOf(docs, sub)
    requires Ascending(next) && forall d :: d in next <==> d in docs && (k > 0 ==> d in candidates)
    ensures Narrowed(ps, order, k + 1, srcs[order[k] := sub], next)
  {
    var ti := order[k];
    var cs, srcs' := Chunks(ps[ti]), srcs[ti := sub];
    forall d ensures d in next <==> HasFirst(ps, order, k + 1, d) {
      if d in next {
        assert Has(sub, d);
        assert k > 0 ==> HasFirst(ps, order, k, d);
        assert Has(Chunks(ps[order[k]]), d);
      }
      if HasFirst(ps, order, k + 1, d) {
        assert Has(Chunks(ps[order[k]]), d);
        assert HasFirst(ps, order, k, d);
        assert Kept(sub, cs, d);
      }
    }
    forall m | 0 <= m < k + 1 ensures Retains(srcs'[order[m]], Chunks(ps[order[m]]), next) {
      if m < k {
        assert srcs'[order[m]] == srcs[order[m]];
        FewerCandidates(srcs[order[m]], Chunks(ps[order[m]]), candidates, next);
      } else {
        forall d | d in next ensures Has(sub, d) && PositionsAt(sub, d) == PositionsAt(cs, d) {
          assert Has(sub, d) && Kept(sub, cs, d);
        }
      }
    }
  }

  /** The documents that have every term, and per term the chunks read on the way. */
  method BuildConjunction(ps: seq<Posting>) returns (srcs: seq<seq<Chunk>>, candidates: seq<nat>)
    requires ps != [] && AllValid(ps)
    ensures Ascending(candidates) && forall d :: d in candidates <==> HasAll(ps, d)
    ensures |srcs| == |ps|
    ensures candidates != [] ==> forall t {:trigger Chunks(ps[t])} :: 0 <= t < |ps| ==> Retains(srcs[t], Chunks(ps[t]), candidates)
  {
    var order := AscendingDfOrder(seq(|ps|, i requires 0 <= i < |ps| => ps[i].df));
    srcs := seq(|ps|, _ => []);
    candidates := [];
    for k := 0 to |ps|
      invariant |srcs| == |ps| && Ascending(candidates)
      invariant k > 0 ==> Narrowed(ps, order, k, srcs, candidates)
    {
      var ti := order[k];
      var sub, docs := ReadTerm(ps[ti], k == 0, candidates);
      var next := docs;
      if k > 0 {
        next := IntersectSorted(candidates, docs);
      }
      NarrowStep(ps, order, k, srcs, candidates, sub, docs, next);
      srcs, candidates := srcs[ti := sub], next;
      if candidates == [] {
        NobodyLeft(ps, order, k + 1, srcs, candidates);
        return;
      }
    }
    EveryTermRead(ps, order, srcs, candidates);
  }

  lemma {:induction false} NobodyLeft(ps: seq<Posting>, order: seq<nat>, k: nat, srcs: seq<seq<Chunk>>, candidates: seq<nat>)
    requires Permutation(order, |ps|) && k <= |ps| && Narrowed(ps, order, k, srcs, candidates) && candidates == []
    ensures forall d :: !HasAll(ps, d)
  {
    forall d | HasAll(ps, d) ensures false {
      HasFirstPrefix(ps, order, k, d);
    }
  }

  lemma {:induction false} EveryTermRead(ps: seq<Posting>, order: seq<nat>, srcs: seq<seq<Chunk>>, candidates: seq<nat>)
    requires Permutation(order, |ps|) && Narrowed(ps, order, |ps|, srcs, candidates)
    ensures forall d :: d in candidates <==> HasAll(ps, d)
    ensures forall t {:trigger Chunks(ps[t])} :: 0 <= t < |ps| ==> Retains(srcs[t], Chunks(ps[t]), candidates)
  {
    forall d ensures d in candidates <==> HasAll(ps, d) {
      HasFirstAll(ps, order, d);
    }
    forall t | 0 <= t < |ps| ensures Retains(srcs[t], Chunks(ps[t]), candidates) {
      assert t in order;
      var m :| 0 <= m < |order| && order[m] == t;
    }
  }
}
