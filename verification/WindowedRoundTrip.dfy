/** Whole-posting consequences: writing then reading is the identity, and one window can be
    read alone from the ranges its directory row gives. */
module WindowedRoundTrip {
  import opened Common
  import opened Pieces
  import opened FrqRegions
  import opened PrxWindows
  import opened PrxSizes
  import PrxFrames
  import opened DocidSets
  import opened WindowRows
  import opened WindowDirectory
  import opened FrqPrelude
  import opened FrqPreludeReader
  import opened WindowedLayout
  import opened WindowedWriter
  import opened WindowedReader
  import DictEntries

  // ----- the reader's caps, on the posting

  ghost predicate CappedAt(p: TermPostings, w: nat)
    requires w < Windows(p) && |p.freqs| == |p.docids|
  {
    Cuts(p, w);
    Sum(p.freqs, To(p, w)) - Sum(p.freqs, From(p, w)) <= MAX_POSITIONS
  }

  /** No window holds more positions than the reader takes. */
  ghost predicate Capped(p: TermPostings) {
    |p.freqs| == |p.docids| && forall w: nat {:trigger CappedAt(p, w)} :: w < Windows(p) ==> CappedAt(p, w)
  }

  /** The reader takes a window exactly when it is within the cap on positions: its bytes then
      are within theirs. */
  lemma {:induction false} CapDecides(p: TermPostings, payload: Bytes, px: Bytes, w: nat)
    requires Typed(p) && ValidTerm(p, true) && w < Windows(p) && WindowedLayout.WindowIs(p, px, payload, w)
    ensures Accepted(p, payload, w) <==> CappedAt(p, w)
    ensures CappedAt(p, w) ==> |payload| < TWO32
  {
    WindowAccepted(p, payload, px, w);
    var ls := ListsOf(p, w);
    Cuts(p, w);
    WindowTotal(p, w);
    if CappedAt(p, w) {
      PackedWithinCap(payload, ls);
    }
  }

  lemma {:induction false} WindowTotal(p: TermPostings, w: nat)
    requires ValidTerm(p, true) && w < Windows(p)
    ensures var ls := ListsOf(p, w);
            From(p, w) <= To(p, w) <= |p.freqs| && Sum(Counts(ls), |ls|) == Sum(p.freqs, To(p, w)) - Sum(p.freqs, From(p, w))
  {
    Cuts(p, w);
    WindowLists(p.positions, p.freqs, From(p, w), To(p, w));
    CountsOfLists(PosOf(p, w), FreqsOf(p, w));
    SumCut(p.freqs, From(p, w), To(p, w), To(p, w) - From(p, w));
  }

  lemma {:induction false} CappedFits(p: TermPostings, f: Features, ms: seq<WindowMeta>, c: WindowBytes)
    requires Laid(p, f, ms, c) && Capped(p) && f.hasPrx
    ensures PayloadsFit(c)
  {
    forall w: nat | w < Windows(p) ensures |c.payloads[w]| < TWO32 {
      assert FirstRow(p, f, ms[w], c.pxs, c.payloads, w) && CappedAt(p, w);
      CapDecides(p, c.payloads[w], c.pxs[w], w);
    }
  }

  /** What the reader takes, read off the posting alone. */
  lemma {:induction false} CapsDecide(p: TermPostings, f: Features, ms: seq<WindowMeta>, c: WindowBytes, wants: Wants)
    requires Laid(p, f, ms, c) && f.hasPrx
    ensures AllWithin(p, wants, c, Windows(p)) <==> !wants.positions || Capped(p)
  {
    forall w: nat | w < Windows(p) ensures Within(p, wants, c.payloads[w], w) <==> !wants.positions || CappedAt(p, w) {
      assert FirstRow(p, f, ms[w], c.pxs, c.payloads, w);
      CapDecides(p, c.payloads[w], c.pxs[w], w);
    }
  }

  lemma {:induction false} FrameHolds(codec: Codec, payload: Bytes)
    ensures |payload| <= |PrxFrames.Frame(codec, payload)|
  {
  }

  /** In a file below 2^32 bytes every payload is below it too. */
  lemma {:induction false} PayloadsInFile(file: Bytes, regionOff: nat, region: Bytes, base: nat, loc: Locator, p: TermPostings, f: Features, ms: seq<WindowMeta>, c: WindowBytes)
    requires Written(region, base, loc, p, f, ms, c) && f.hasPrx && Stored(file, regionOff, region) && |file| < TWO32
    ensures PayloadsFit(c)
  {
    forall w: nat | w < Windows(p) ensures |c.payloads[w]| < TWO32 {
      assert FirstRow(p, f, ms[w], c.pxs, c.payloads, w);
      FrameHolds(PforCodec, c.payloads[w]);
      PieceWithin(c.pxs, w);
    }
  }

  /** A file that holds the posting somewhere inside. */
  method WriteInto(p: TermPostings, f: Features, before: Bytes, base: nat, head: Bytes, after: Bytes)
    returns (file: Bytes, loc: Locator, ghost region: Bytes, ghost ms: seq<WindowMeta>, ghost c: WindowBytes)
    requires Typed(p) && ValidTerm(p, f.hasPrx) && GoodTo(p, f, |p.docids|) && base <= |before|
    ensures Written(region, base, loc, p, f, ms, c) && Stored(file, |head|, region)
  {
    var r, written;
    r, written, ms, c := BuildWindowedEntry(p, f, before, base);
    loc := r.value;
    WrittenGrows(written, base, loc, p, f, ms, c, after);
    region := written + after;
    file := head + (written + after);
    StoredIn(head, written + after, []);
    assert file + [] == file;
  }

  /** Writing a posting behind others, then reading it from the finished file, restores it,
      whatever came before and after; only positions beyond the reader's cap are refused, and
      they always are. */
  method WriteThenRead(p: TermPostings, norms: seq<byte>, before: Bytes, base: nat, head: Bytes, after: Bytes, wants: Wants, inflate: Inflate)
    returns (file: Bytes, r: Result<Decoded>)
    requires Typed(p) && ValidTerm(p, true) && AllGood(Lists(p.positions, p.freqs)) && base <= |before|
    ensures |file| < TWO64 && (Capped(p) || |file| < TWO32) ==>
              if wants.positions && !Capped(p) then r.Error?
              else r == Ok(Decoded(p.docids, if wants.freqs then p.freqs else [], if wants.positions then Lists(p.positions, p.freqs) else []))
  {
    var f := Features(true, true, norms);
    var loc;
    ghost var region, ms, c;
    file, loc, region, ms, c := WriteInto(p, f, before, base, head, after);
    ghost var good := |file| < TWO64 && (Capped(p) || |file| < TWO32);
    if good {
      if Capped(p) {
        CappedFits(p, f, ms, c);
      } else {
        PayloadsInFile(file, |head|, region, base, loc, p, f, ms, c);
      }
      CapsDecide(p, f, ms, c, wants);
      WholeOf(p, wants);
    }
    r := ReadWindowedPosting(file, |head|, base, loc, wants, inflate, region, p, f, ms, c, good);
  }

  // ----- one window alone

  datatype AbsRange = AbsRange(dd: Range, freq: Range, prx: Range)

  function InBounds(off: nat, len: nat, total: nat): bool {
    off <= total && len <= total - off
  }

  /** The ranges hold exactly the window's bytes. */
  ghost predicate RangeOf(file: Bytes, g: AbsRange, c: WindowBytes, wants: Wants, w: nat) {
    && w < |c.dds| && w < |c.fqs| && w < |c.pxs|
    && Fetch(file, g.dd.off, g.dd.len) == Ok(c.dds[w])
    && (wants.freqs ==> Fetch(file, g.freq.off, g.freq.len) == Ok(c.fqs[w]))
    && (wants.positions ==> Fetch(file, g.prx.off, g.prx.len) == Ok(c.pxs[w]))
  }

  lemma {:induction false} SubFetch(file: Bytes, off: nat, block: Bytes, at: nat, part: Bytes)
    requires Fetch(file, off, |block|) == Ok(block) && Stored(block, at, part)
    ensures Fetch(file, off + at, |part|) == Ok(part)
  {
    var x, y := file[off + at..off + at + |part|], block[at..at + |part|];
    assert forall k :: 0 <= k < |part| ==> x[k] == block[at + k] == y[k];
    assert x == y;
  }

  lemma {:induction false} PieceFetch(file: Bytes, off: nat, ps: seq<Bytes>, w: nat)
    requires w < |ps| && Fetch(file, off, |Whole(ps)|) == Ok(Whole(ps))
    ensures Fetch(file, off + At(ps, 0, w), |ps[w]|) == Ok(ps[w]) && InBounds(At(ps, 0, w), |ps[w]|, |Whole(ps)|)
  {
    PieceWithin(ps, w);
    SubFetch(file, off, Whole(ps), At(ps, 0, w), ps[w]);
  }

  /** The row points at the window's pieces. */
  ghost predicate PointsAt(m: WindowMeta, f: Features, c: WindowBytes, w: nat) {
    && w < |c.dds| && w < |c.fqs| && w < |c.pxs|
    && m.dd.off == At(c.dds, 0, w) && m.dd.diskLen == |c.dds[w]|
    && (f.hasFreq ==> m.freq.off == At(c.fqs, 0, w) && m.freq.diskLen == |c.fqs[w]|)
    && (f.hasPrx ==> m.prxOff == At(c.pxs, 0, w) && m.prxLen == |c.pxs[w]|)
  }

  lemma {:induction false} LaidPointsAt(p: TermPostings, f: Features, ms: seq<WindowMeta>, c: WindowBytes, w: nat)
    requires Laid(p, f, ms, c) && w < |ms|
    ensures PointsAt(ms[w], f, c, w)
  {
    assert FirstRow(p, f, ms[w], c.pxs, c.payloads, w) && SecondRow(p, f, ms[w], c.dds, c.fqs, w);
  }

  /** Where the three blocks lie in the file. */
  datatype Spots = Spots(dd: Range, freq: Range, prx: Range)

  ghost predicate SpotsHold(file: Bytes, s: Spots, hasPrx: bool, c: WindowBytes) {
    && s.dd.len == |Whole(c.dds)| && Fetch(file, s.dd.off, s.dd.len) == Ok(Whole(c.dds))
    && s.freq.len == |Whole(c.fqs)| && Fetch(file, s.freq.off, s.freq.len) == Ok(Whole(c.fqs))
    && (hasPrx ==> s.prx.len == |Whole(c.pxs)| && Fetch(file, s.prx.off, s.prx.len) == Ok(Whole(c.pxs)))
  }

  function PrxSpan(loc: Locator): DictEntries.Span
    requires loc.PodRef?
  {
    if loc.prx.Some? then loc.prx.value else DictEntries.Span(0, 0)
  }

  /** The block ranges, from the entry and the opened directory. */
  function SpotsOf(regionOff: nat, base: nat, loc: Locator, pre: Prelude): Spots
    requires loc.PodRef? && loc.layout.Windowed?
  {
    var start := regionOff + base + loc.frq.off + loc.layout.preludeLen;
    Spots(Range(start, pre.ddLen), Range(start + pre.ddLen, pre.freqLen), Range(regionOff + base + PrxSpan(loc).off, PrxSpan(loc).len))
  }

  /** The opened directory of a posting on disk. */
  ghost predicate Resolved(file: Bytes, regionOff: nat, base: nat, loc: Locator, pre: Prelude, f: Features, ms: seq<WindowMeta>, c: WindowBytes) {
    && loc.PodRef? && loc.layout.Windowed? && pre.windows == ms && pre.hasPrx == f.hasPrx
    && loc.frq.len == loc.layout.preludeLen + pre.ddLen + pre.freqLen && SpotsHold(file, SpotsOf(regionOff, base, loc, pre), f.hasPrx, c)
  }

  lemma {:induction false} OpenedResolves(file: Bytes, regionOff: nat, region: Bytes, base: nat, loc: Locator, p: TermPostings, f: Features, ms: seq<WindowMeta>, c: WindowBytes)
    requires OnDisk(file, regionOff, region, base, loc, p, f, ms, c)
    ensures Resolved(file, regionOff, base, loc, Opened(TableOf(f, ms)), f, ms, c)
  {
    OnDiskOpens(file, regionOff, region, base, loc, p, f, ms, c);
    Resolves(file, regionOff, region, base, loc, Opened(TableOf(f, ms)), f, ms, c, PreludeBytes(TableOf(f, ms)));
  }

  lemma {:induction false} Resolves(file: Bytes, regionOff: nat, region: Bytes, base: nat, loc: Locator, pre: Prelude, f: Features, ms: seq<WindowMeta>, c: WindowBytes, prelude: Bytes)
    requires InFile(file, regionOff, region, base, loc, f.hasPrx, WindowedLayout.Parts(prelude, Whole(c.dds), Whole(c.fqs), Whole(c.pxs)))
    requires pre.windows == ms && pre.hasPrx == f.hasPrx && pre.ddLen == |Whole(c.dds)| && pre.freqLen == |Whole(c.fqs)|
    ensures Resolved(file, regionOff, base, loc, pre, f, ms, c)
  {
    PartsFetched(file, regionOff, region, base, loc, f.hasPrx, WindowedLayout.Parts(prelude, Whole(c.dds), Whole(c.fqs), Whole(c.pxs)));
  }

  /** Where window `w` lies in the file: the ranges a selective reader fetches hold exactly
      that window's bytes. */
  method WindowRange(regionOff: nat, base: nat, loc: Locator, pre: Prelude, w: nat, wants: Wants,
                     ghost file: Bytes, ghost p: TermPostings, ghost f: Features, ghost ms: seq<WindowMeta>, ghost c: WindowBytes, ghost good: bool)
    returns (r: Result<AbsRange>)
    requires loc.PodRef? && loc.layout.Windowed?
    requires good ==> Laid(p, f, ms, c) && CanGive(f, wants) && Resolved(file, regionOff, base, loc, pre, f, ms, c)
    ensures good ==> if w < |ms| then r.Ok? && RangeOf(file, r.value, c, wants, w) else r.Error?
  {
    var plen := loc.layout.preludeLen;
    if plen > loc.frq.len {
      return Error(Corruption("windowed_posting: prelude_len exceeds frq_len"));
    }
    if pre.ddLen > loc.frq.len - plen || pre.freqLen > loc.frq.len - plen - pre.ddLen {
      return Error(Corruption("windowed_posting: blocks exceed frq region"));
    }
    if w >= |pre.windows| {
      return Error(InvalidArgument("frq_prelude: window index out of range"));
    }
    if good {
      LaidPointsAt(p, f, ms, c, w);
    }
    r := RangeIn(pre.windows[w], SpotsOf(regionOff, base, loc, pre), pre.hasPrx, wants, file, f, c, w, good);
  }

  /** Row offsets made absolute, each checked against its block. */
  method RangeIn(m: WindowMeta, s: Spots, hasPrx: bool, wants: Wants, ghost file: Bytes, ghost f: Features, ghost c: WindowBytes, ghost w: nat, ghost good: bool)
    returns (r: Result<AbsRange>)
    requires good ==> SpotsHold(file, s, f.hasPrx, c) && hasPrx == f.hasPrx && CanGive(f, wants) && PointsAt(m, f, c, w)
    ensures good ==> r.Ok? && RangeOf(file, r.value, c, wants, w)
  {
    if good {
      PieceFetch(file, s.dd.off, c.dds, w);
      PieceFetch(file, s.freq.off, c.fqs, w);
      if f.hasPrx {
        PieceFetch(file, s.prx.off, c.pxs, w);
      }
    }
    if !InBounds(m.dd.off, m.dd.diskLen, s.dd.len) {
      return Error(Corruption("windowed_posting: range out of section"));
    }
    var g := AbsRange(Range(s.dd.off + m.dd.off, m.dd.diskLen), Range(0, 0), Range(0, 0));
    if wants.freqs {
      if !InBounds(m.freq.off, m.freq.diskLen, s.freq.len) {
        return Error(Corruption("windowed_posting: range out of section"));
      }
      g := g.(freq := Range(s.freq.off + m.freq.off, m.freq.diskLen));
    }
    if wants.positions {
      if !hasPrx {
        return Error(Corruption("windowed_posting: positions requested but prelude has none"));
      }
      if !InBounds(m.prxOff, m.prxLen, s.prx.len) {
        return Error(Corruption("windowed_posting: range out of section"));
      }
      g := g.(prx := Range(s.prx.off + m.prxOff, m.prxLen));
    }
    r := Ok(g);
  }

  lemma {:induction false} LastAt(p: TermPostings, f: Features, ms: seq<WindowMeta>, c: WindowBytes, w: nat)
    requires Laid(p, f, ms, c) && w < |ms|
    ensures w < Windows(p) && From(p, w) < To(p, w) <= |p.docids| && ms[w].lastDocid == p.docids[To(p, w) - 1]
    ensures w + 1 < |ms| ==> From(p, w + 1) == To(p, w)
  {
    assert FirstRow(p, f, ms[w], c.pxs, c.payloads, w);
    Cuts(p, w);
  }

  /** A document is in the posting exactly when it is in the window the directory points at. */
  lemma {:induction false} LocatedWindow(p: TermPostings, f: Features, ms: seq<WindowMeta>, c: WindowBytes, d: nat, w: nat)
    requires Laid(p, f, ms, c) && Covers(LastDocids(ms), d, w)
    ensures w < Windows(p) && (d in p.docids <==> d in DocsOf(p, w))
  {
    LastAt(p, f, ms, c, w);
    var lo, hi := From(p, w), To(p, w);
    assert d <= LastDocids(ms)[w];
    if w > 0 {
      LastAt(p, f, ms, c, w - 1);
      assert LastDocids(ms)[w - 1] < d;
    }
    InThisCut(p.docids, d, lo, hi);
  }

  lemma {:induction false} InThisCut(docids: seq<nat>, d: nat, lo: nat, hi: nat)
    requires Ascending(docids) && lo < hi <= |docids| && d <= docids[hi - 1] && (lo > 0 ==> docids[lo - 1] < d)
    ensures d in docids <==> d in docids[lo..hi]
  {
    if d in docids {
      var i :| 0 <= i < |docids| && docids[i] == d;
      InsideCut(docids, i, lo, hi);
      assert docids[lo..hi][i - lo] == d;
    }
  }

  lemma {:induction false} InsideCut(docids: seq<nat>, i: nat, lo: nat, hi: nat)
    requires Ascending(docids) && i < |docids| && lo < hi <= |docids| && docids[i] <= docids[hi - 1] && (lo > 0 ==> docids[lo - 1] < docids[i])
    ensures lo <= i < hi
  {
  }
}
