/** Written entries fit the dictionary's formats: nothing but the size of a block and of the
    file limits what can be read back. */
module SegmentFits {
  import opened Common
  import opened Varint
  import opened Pieces
  import opened PforRuns
  import opened FrqRegions
  import opened PrxWindows
  import opened PrxFrames
  import opened TermDict
  import opened WindowedLayout
  import opened SlimEntries
  import opened PostingLoader
  import opened Dictionary
  import opened SegmentWriter
  import BR = DictBlockReader
  import DB = DictBlocks
  import D = DictEntries
  import Crc32c

  // ----- blocks

  lemma {:induction false} PieceLe(ps: seq<Bytes>, i: nat)
    requires i < |ps|
    ensures |ps[i]| <= |Join(ps, 0, |ps|)|
  {
    JoinSnoc(ps, i);
    JoinSplit(ps, 0, i + 1, |ps|);
  }

  lemma {:induction false} JoinAtLeast(ps: seq<Bytes>, k: nat)
    requires k <= |ps| && forall i :: 0 <= i < |ps| ==> ps[i] != []
    ensures |Join(ps, 0, k)| >= k
  {
    if k > 0 {
      JoinAtLeast(ps, k - 1);
      JoinSnoc(ps, k - 1);
    }
  }

  ghost predicate SmallBlock(b: DB.Block) {
    b.interval > 0 && |DB.Covered(b)| < TWO32
  }

  lemma {:induction false} CoveredBounds(b: DB.Block, i: nat)
    requires b.interval > 0 && i < |b.entries|
    ensures |D.PutBody(b.entries[i], DB.PrevOf(b, i))| < |DB.Covered(b)|
  {
    var ps := DB.Coded(b);
    PieceLe(ps, i);
    assert ps[i] == D.EncodeEntry(b.entries[i], DB.PrevOf(b, i));
  }

  lemma {:induction false} CountBounds(b: DB.Block)
    requires b.interval > 0
    ensures |b.entries| <= |DB.Covered(b)|
  {
    var ps := DB.Coded(b);
    forall i | 0 <= i < |ps| ensures ps[i] != [] {
      assert ps[i] == D.EncodeEntry(b.entries[i], DB.PrevOf(b, i));
    }
    JoinAtLeast(ps, |ps|);
  }

  ghost predicate AllFit(es: seq<D.DictEntry>, rich: bool) {
    forall i: nat {:trigger D.Fits(es[i], rich)} :: i < |es| ==> D.Fits(es[i], rich)
  }

  lemma {:induction false} BlockCarried(b: DB.Block)
    requires SmallBlock(b) && AllFit(b.entries, b.rich) && b.frqBase < TWO64 && b.prxBase < TWO64 && b.hasPositions
    ensures BR.Carries(b)
  {
    CountBounds(b);
    forall i: nat | i < |b.entries| ensures BR.EntryFits(b, i) {
      assert D.Fits(b.entries[i], b.rich);
      CoveredBounds(b, i);
    }
  }

  // ----- entries

  lemma {:induction false} RegionForFits(bytes: Bytes, checked: bool)
    requires |bytes| < TWO64
    ensures D.RegionFits(RegionFor(bytes, checked), checked)
  {
    Crc32c.DigestFits(bytes);
  }

  lemma {:induction false} FrameLength(c: Codec, payload: Bytes)
    requires |payload| <= MAX_PLAIN
    ensures |Frame(c, payload)| <= 15 + |payload|
  {
    EncodedShort(|payload|);
  }

  lemma {:induction false} InlineFits(loc: Locator, p: TermPostings, f: Features, s: SlimBytes)
    requires loc.Inline? && SlimCoded(p, f, s) && SlimLeads([], 0, loc, f, s) && f.hasFreq && f.hasPrx
    requires |p.docids| <= 1024 && |s.payload| <= MAX_PLAIN
    ensures D.LocatorFits(loc, true)
  {
    DdLength(s.dd, p.docids, 0);
    RunsLength(s.fq, p.freqs);
    RegionForFits(s.dd, false);
    RegionForFits(s.fq, false);
    FrameLength(PforCodec, s.payload);
  }

  lemma {:induction false} SlimRefFits(region: Bytes, base: nat, loc: Locator, f: Features, s: SlimBytes)
    requires loc.PodRef? && SlimLeads(region, base, loc, f, s) && f.hasFreq && f.hasPrx && |region| < TWO64
    ensures D.LocatorFits(loc, true)
  {
    RegionForFits(s.dd, true);
    RegionForFits(s.fq, true);
  }

  lemma {:induction false} WindowedFits(region: Bytes, base: nat, loc: Locator, f: Features, a: WindowedLayout.Parts)
    requires Leads(region, base, loc, f.hasPrx, a) && f.hasPrx && |region| < TWO64
    ensures D.LocatorFits(loc, true)
  {
  }

  lemma {:induction false} LocatorFitsAll(region: Bytes, base: nat, loc: Locator, p: TermPostings, f: Features, w: EntryBytes)
    requires PostingWritten(region, base, loc, p, f, w) && Loadable(p, w) && f.hasFreq && f.hasPrx && |region| < TWO64
    ensures D.LocatorFits(loc, true)
  {
    match w
    case AsSlim(s) =>
      if loc.Inline? {
        InlineFits(loc, p, f, s);
      } else {
        SlimRefFits(region, base, loc, f, s);
      }
    case AsWindows(ms, c) =>
      WindowedFits(region, base, loc, f, WindowedLayout.PartsOf(f, ms, c));
  }

  lemma {:induction false} EntryFits(region: Bytes, base: nat, e: D.DictEntry, term: Bytes, p: TermPostings, f: Features, w: EntryBytes)
    requires EntryWritten(region, base, e, term, p, f, w) && Loadable(p, w) && f.hasFreq && f.hasPrx && |region| < TWO64
    requires |term| < TWO32 && |p.docids| < TWO32 && Sum(p.freqs, |p.freqs|) < TWO64
    ensures D.Fits(e, true)
  {
    LocatorFitsAll(region, base, e.locator, p, f, w);
  }

  // ----- the whole segment

  ghost predicate TermFits(t: Entry<TermPostings>, w: EntryBytes) {
    |t.term| < TWO32 && |t.value.docids| < TWO32 && |t.value.freqs| == |t.value.docids| && Sum(t.value.freqs, |t.value.freqs|) < TWO64 && Loadable(t.value, w)
  }

  ghost predicate TermsFit(ts: seq<Entry<TermPostings>>, ws: seq<EntryBytes>) {
    |ts| == |ws| && forall i: nat {:trigger TermFits(ts[i], ws[i])} :: i < |ts| ==> TermFits(ts[i], ws[i])
  }

  ghost predicate SmallBlocks(bs: seq<DB.Block>) {
    forall k: nat {:trigger SmallBlock(bs[k])} :: k < |bs| ==> SmallBlock(bs[k])
  }

  lemma {:induction false} HitFits(region: Bytes, h: Entry<Hit>, t: Entry<TermPostings>, f: Features, w: EntryBytes)
    requires HitIs(region, h, t, f, w) && TermFits(t, w) && f.hasFreq && f.hasPrx && |region| < TWO64
    ensures D.Fits(h.value.entry, true) && h.value.frqBase == h.value.prxBase < TWO64
  {
    EntryFits(region, h.value.frqBase, h.value.entry, t.term, t.value, f, w);
  }

  /** The hits of block `k` sit together in the list of all hits. */
  lemma {:induction false} HitsWithin(bs: seq<DB.Block>, k: nat, i: nat)
    requires k < |bs| && i < |bs[k].entries|
    ensures var at := |AllHits(bs, 0, k)| + i; at < |AllHits(bs, 0, |bs|)| && AllHits(bs, 0, |bs|)[at] == HitsOf(bs[k])[i]
  {
    HitsAround(bs, k);
  }

  lemma {:induction false} HitAtFits(region: Bytes, hits: seq<Entry<Hit>>, ts: seq<Entry<TermPostings>>, f: Features, ws: seq<EntryBytes>, at: nat)
    requires HitsAre(region, hits, ts, f, ws) && TermsFit(ts, ws) && at < |hits| && f.hasFreq && f.hasPrx && |region| < TWO64
    ensures D.Fits(hits[at].value.entry, true) && hits[at].value.frqBase == hits[at].value.prxBase < TWO64
  {
    assert HitIs(region, hits[at], ts[at], f, ws[at]) && TermFits(ts[at], ws[at]);
    HitFits(region, hits[at], ts[at], f, ws[at]);
  }

  ghost predicate Segment(region: Bytes, bs: seq<DB.Block>, ts: seq<Entry<TermPostings>>, f: Features, ws: seq<EntryBytes>) {
    && HitsAre(region, AllHits(bs, 0, |bs|), ts, f, ws) && |ws| == |ts| && TermsFit(ts, ws)
    && f.hasFreq && f.hasPrx && |region| < TWO64
  }

  lemma {:induction false} EntryInBlock(region: Bytes, bs: seq<DB.Block>, ts: seq<Entry<TermPostings>>, f: Features, ws: seq<EntryBytes>, k: nat, i: nat)
    requires Segment(region, bs, ts, f, ws) && k < |bs| && i < |bs[k].entries|
    ensures D.Fits(bs[k].entries[i], true) && bs[k].frqBase == bs[k].prxBase < TWO64
  {
    HitsWithin(bs, k, i);
    HitAtFits(region, AllHits(bs, 0, |bs|), ts, f, ws, |AllHits(bs, 0, k)| + i);
  }

  lemma {:induction false} OneCarried(region: Bytes, bs: seq<DB.Block>, ts: seq<Entry<TermPostings>>, f: Features, ws: seq<EntryBytes>, k: nat)
    requires Segment(region, bs, ts, f, ws) && k < |bs| && Dictionary.Buildable(bs[k], true, true) && SmallBlock(bs[k])
    ensures BR.Carries(bs[k])
  {
    forall i: nat | i < |bs[k].entries| ensures D.Fits(bs[k].entries[i], true) {
      EntryInBlock(region, bs, ts, f, ws, k, i);
    }
    EntryInBlock(region, bs, ts, f, ws, k, 0);
    BlockCarried(bs[k]);
  }

  lemma {:induction false} SegmentCarried(region: Bytes, bs: seq<DB.Block>, ts: seq<Entry<TermPostings>>, f: Features, ws: seq<EntryBytes>)
    requires Segment(region, bs, ts, f, ws) && AllBuildable(bs, f) && SmallBlocks(bs)
    ensures AllCarried(bs)
  {
    forall k: nat | k < |bs| ensures BR.Carries(bs[k]) {
      assert Dictionary.Buildable(bs[k], f.hasFreq, f.hasPrx) && SmallBlock(bs[k]);
      OneCarried(region, bs, ts, f, ws, k);
    }
  }
}
