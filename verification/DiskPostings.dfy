/** What a windowed posting on disk is to the query operators: a valid positional posting
    for phrases, and recorded windows that bound every score for WAND. */
module DiskPostings {
  import opened Common
  import opened FrqRegions
  import opened PrxWindows
  import opened DocidSets
  import opened WindowRows
  import opened FrqPrelude
  import opened FrqPreludeReader
  import opened WindowedLayout
  import opened WindowedReader
  import P = PositionalPostings
  import B = BlockMax
  import W = WandSafety
  import Wand

  // ----- windows in docid order

  lemma {:induction false} CutsOrder(p: TermPostings, w: nat, v: nat)
    requires w < v < Windows(p)
    ensures To(p, w) <= From(p, v)
    decreases v - w
  {
    Cuts(p, v - 1);
    if w < v - 1 {
      CutsOrder(p, w, v - 1);
    }
  }

  /** Every document is in some window. */
  lemma {:induction false} WindowFor(p: TermPostings, i: nat) returns (w: nat)
    requires i < |p.docids|
    ensures w < Windows(p) && From(p, w) <= i < To(p, w)
  {
    w := 0;
    ReachedStart(p);
    ghost var k: nat := 0;
    while w < Windows(p) && To(p, w) <= i
      invariant w <= Windows(p) && Reached(p, w, k) && k <= i
      decreases Windows(p) - w
    {
      ReachedNext(p, w);
      k := To(p, w);
      w := w + 1;
    }
  }

  // ----- for phrases

  ghost function ChunkOf(p: TermPostings, w: nat): P.Chunk
    requires WindowedLayout.ValidTerm(p, true) && w < Windows(p)
  {
    P.Chunk(DocsOf(p, w), ListsOf(p, w))
  }

  ghost function ChunksOf(p: TermPostings): (r: seq<P.Chunk>)
    requires WindowedLayout.ValidTerm(p, true)
    ensures |r| == Windows(p) && forall w: nat {:trigger r[w]} :: w < |r| ==> r[w] == ChunkOf(p, w)
  {
    seq(Windows(p), w requires 0 <= w < Windows(p) => ChunkOf(p, w))
  }

  lemma {:induction false} ClimbsSorted(s: seq<nat>, i: nat, j: nat)
    requires Climbs(s, 0) && i <= j < |s|
    ensures s[i] <= s[j]
    decreases j - i
  {
    if i < j {
      ClimbsSorted(s, i, j - 1);
      assert Rises(s, 0, j);
    }
  }

  lemma {:induction false} GoodIsPositionList(list: seq<nat>)
    requires ListGood(list)
    ensures P.PositionList(list)
  {
    forall i, j | 0 <= i < j < |list| ensures list[i] <= list[j] {
      ClimbsSorted(list, i, j);
    }
  }

  lemma {:induction false} ChunkValid(p: TermPostings, w: nat)
    requires WindowedLayout.ValidTerm(p, true) && AllGood(Lists(p.positions, p.freqs)) && w < Windows(p)
    ensures P.ValidChunk(ChunkOf(p, w))
  {
    Cuts(p, w);
    var c, all := ChunkOf(p, w), Lists(p.positions, p.freqs);
    forall j | 0 <= j < |c.prx| ensures P.PositionList(c.prx[j]) {
      assert ListGood(all[From(p, w) + j]);
      GoodIsPositionList(all[From(p, w) + j]);
    }
  }

  lemma {:induction false} ChunksOrdered(p: TermPostings, w: nat, v: nat)
    requires WindowedLayout.ValidTerm(p, true) && w < v < Windows(p)
    ensures P.Precedes(ChunkOf(p, w), ChunkOf(p, v))
  {
    CutsOrder(p, w, v);
    Cuts(p, w);
    Cuts(p, v);
    var a, b := DocsOf(p, w), DocsOf(p, v);
    forall x, y | 0 <= x < |a| && 0 <= y < |b| ensures a[x] < b[y] {
      assert a[x] == p.docids[From(p, w) + x] && b[y] == p.docids[From(p, v) + y];
    }
  }

  lemma {:induction false} ChunksValid(p: TermPostings)
    requires WindowedLayout.ValidTerm(p, true) && AllGood(Lists(p.positions, p.freqs))
    ensures P.ValidChunks(ChunksOf(p))
  {
    var cs := ChunksOf(p);
    forall w | 0 <= w < |cs| ensures P.ValidChunk(cs[w]) {
      ChunkValid(p, w);
    }
    forall w, v | 0 <= w < v < |cs| ensures P.Precedes(cs[w], cs[v]) {
      ChunksOrdered(p, w, v);
    }
  }

  /** The posting a query sees: the windows, and the directory opened from disk. */
  ghost function QueryPosting(p: TermPostings, f: Features, ms: seq<WindowMeta>): P.Posting
    requires WindowedLayout.ValidTerm(p, true) && Buildable(TableOf(f, ms))
  {
    P.Posting.Windowed(|p.docids|, ChunksOf(p), DirectoryOf(Opened(TableOf(f, ms))))
  }

  /** What was written is what the phrase operators require. */
  lemma {:induction false} DiskPostingValid(p: TermPostings, f: Features, ms: seq<WindowMeta>, c: WindowBytes)
    requires Laid(p, f, ms, c) && f.hasPrx && AllGood(Lists(p.positions, p.freqs)) && Buildable(TableOf(f, ms))
    ensures P.ValidPosting(QueryPosting(p, f, ms))
  {
    ChunksValid(p);
    OpenedSearchable(TableOf(f, ms));
    var cs, lasts := ChunksOf(p), LastDocids(ms);
    forall w | 0 <= w < |cs| ensures P.Records(cs[w], lasts[w]) {
      assert FirstRow(p, f, ms[w], c.pxs, c.payloads, w);
      assert cs[w] == ChunkOf(p, w);
    }
  }

  /** It holds exactly the term's documents, each with its own positions. */
  lemma {:induction false} DiskPostingMeans(p: TermPostings, i: nat)
    requires WindowedLayout.ValidTerm(p, true) && AllGood(Lists(p.positions, p.freqs)) && i < |p.docids|
    ensures P.Has(ChunksOf(p), p.docids[i]) && P.PositionsAt(ChunksOf(p), p.docids[i]) == Lists(p.positions, p.freqs)[i]
  {
    var w := WindowFor(p, i);
    var cs, j := ChunksOf(p), i - From(p, w);
    assert cs[w] == ChunkOf(p, w);
    assert P.Located(cs, p.docids[i], w, j);
    ChunksValid(p);
    P.PositionsWhere(cs, p.docids[i], w, j);
  }

  lemma {:induction false} DiskPostingOnly(p: TermPostings, d: nat)
    requires WindowedLayout.ValidTerm(p, true) && P.Has(ChunksOf(p), d)
    ensures d in p.docids
  {
    var cs := ChunksOf(p);
    var w: nat, j: nat :| P.Located(cs, d, w, j);
    assert cs[w] == ChunkOf(p, w);
    Cuts(p, w);
    assert p.docids[From(p, w) + j] == d;
  }

  // ----- for scoring

  ghost function PostingsOf(p: TermPostings, w: nat): (r: seq<B.Posting>)
    requires |p.freqs| == |p.docids| && w < Windows(p)
    ensures |r| == |DocsOf(p, w)| == |FreqsOf(p, w)| && forall i: nat {:trigger r[i]} :: i < |r| ==> r[i] == B.Posting(DocsOf(p, w)[i], FreqsOf(p, w)[i])
  {
    seq(|DocsOf(p, w)|, i requires 0 <= i < |DocsOf(p, w)| => B.Posting(DocsOf(p, w)[i], FreqsOf(p, w)[i]))
  }

  /** The windows from `w` on, each with the peak its row records. */
  ghost function ScoredFrom(p: TermPostings, ms: seq<WindowMeta>, w: nat): seq<B.Window>
    requires |p.freqs| == |p.docids| && |ms| == Windows(p) && w <= |ms|
    decreases |ms| - w
  {
    if w == |ms| then [] else [B.Window(PostingsOf(p, w), ms[w].maxFreq, ms[w].maxNorm)] + ScoredFrom(p, ms, w + 1)
  }

  lemma {:induction false} RowRecorded(p: TermPostings, f: Features, m: WindowMeta, pxs: seq<Bytes>, pays: seq<Bytes>, w: nat)
    requires FirstRow(p, f, m, pxs, pays, w) && forall i :: 0 <= i < |p.docids| ==> p.docids[i] < |f.norms|
    ensures B.Recorded(B.Window(PostingsOf(p, w), m.maxFreq, m.maxNorm), f.norms)
  {
    Cuts(p, w);
    var ps, docs, freqs := PostingsOf(p, w), DocsOf(p, w), FreqsOf(p, w);
    forall i: nat | i < |ps|
      ensures ps[i].docid < |f.norms| && ps[i].freq <= m.maxFreq && B.DecodeNorm(m.maxNorm) <= B.DecodeNorm(f.norms[ps[i].docid])
    {
      assert docs[i] == p.docids[From(p, w) + i] && freqs[i] <= m.maxFreq;
    }
  }

  lemma {:induction false} AllRowsRecorded(p: TermPostings, f: Features, ms: seq<WindowMeta>, c: WindowBytes, w: nat)
    requires Laid(p, f, ms, c) && w <= |ms| && forall i :: 0 <= i < |p.docids| ==> p.docids[i] < |f.norms|
    ensures B.AllRecorded(ScoredFrom(p, ms, w), f.norms)
    decreases |ms| - w
  {
    if w < |ms| {
      assert FirstRow(p, f, ms[w], c.pxs, c.payloads, w);
      RowRecorded(p, f, ms[w], c.pxs, c.payloads, w);
      AllRowsRecorded(p, f, ms, c, w + 1);
    }
  }

  lemma {:induction false} WindowsTile(p: TermPostings, ms: seq<WindowMeta>, w: nat, low: int)
    requires |p.freqs| == |p.docids| && Ascending(p.docids) && |ms| == Windows(p) && w <= |ms|
    requires forall i :: 0 <= i < |p.docids| ==> p.docids[i] < Wand.NO_DOC
    requires w < |ms| ==> low < DocsOf(p, w)[0]
    ensures B.Tiled(ScoredFrom(p, ms, w), low)
    decreases |ms| - w
  {
    if w < |ms| {
      var last := WindowSpan(p, w);
      WindowsTile(p, ms, w + 1, last);
      assert ScoredFrom(p, ms, w)[1..] == ScoredFrom(p, ms, w + 1);
    }
  }

  /** A window's documents ascend to `last`, and the next window starts above it. */
  lemma {:induction false} WindowSpan(p: TermPostings, w: nat) returns (last: nat)
    requires |p.freqs| == |p.docids| && Ascending(p.docids) && w < Windows(p)
    ensures var ps := PostingsOf(p, w);
            && ps != [] && last == ps[|ps| - 1].docid
            && (forall i: nat, j: nat :: i < j < |ps| ==> ps[i].docid < ps[j].docid)
            && (forall i: nat {:trigger ps[i]} :: i < |ps| ==> ps[i].docid in p.docids)
            && (w + 1 < Windows(p) ==> last < DocsOf(p, w + 1)[0])
  {
    Cuts(p, w);
    var ps, lo := PostingsOf(p, w), From(p, w);
    assert forall i: nat {:trigger ps[i]} :: i < |ps| ==> ps[i].docid == p.docids[lo + i];
    last := ps[|ps| - 1].docid;
    if w + 1 < Windows(p) {
      Cuts(p, w + 1);
      assert DocsOf(p, w + 1)[0] == p.docids[To(p, w)];
    }
  }

  /** The cursor built from the directory's recorded peaks bounds every score, so the WAND
      theorems apply to what the writer wrote. */
  lemma {:induction false} DiskCursorValid(p: TermPostings, f: Features, ms: seq<WindowMeta>, c: WindowBytes, s: B.Scorer)
    requires Laid(p, f, ms, c) && B.Proper(s)
    requires forall i :: 0 <= i < |p.docids| ==> p.docids[i] < |f.norms| && p.docids[i] < Wand.NO_DOC
    ensures B.AllRecorded(ScoredFrom(p, ms, 0), f.norms)
    ensures W.ValidTerm(Wand.TermCursor(B.Tile(s, ScoredFrom(p, ms, 0), f.norms), B.Bounds(s, ScoredFrom(p, ms, 0), f.norms), 0))
  {
    AllRowsRecorded(p, f, ms, c, 0);
    WindowsTile(p, ms, 0, -1);
    B.WindowedCursorValid(s, ScoredFrom(p, ms, 0), f.norms);
  }
}
