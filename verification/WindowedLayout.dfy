/** How a term's posting is cut into windows and what each window's directory row and bytes
    hold. */
module WindowedLayout {
  import opened Common
  import opened Pieces
  import opened Pfor
  import opened PforRuns
  import opened DocidSets
  import opened FrqRegions
  import opened PrxWindows
  import opened PrxFrames
  import opened WindowRows
  import opened WindowDirectory
  import opened FrqPrelude
  import opened BlockMax
  import Crc32c
  import DictEntries
  import FlatPostings

  type Locator = DictEntries.Locator

  /** The accumulator's arrays: document `d` owns the next `freqs[d]` positions. */
  type TermPostings = FlatPostings.Flat

  /** What the index stores beside docids. */
  datatype Features = Features(hasFreq: bool, hasPrx: bool, norms: seq<byte>)

  ghost predicate Typed(p: TermPostings) {
    Values(p.docids) && Values(p.freqs) && Values(p.positions)
  }

  ghost predicate ValidTerm(p: TermPostings, hasPrx: bool) {
    && |p.freqs| == |p.docids| && Ascending(p.docids)
    && (hasPrx ==> Parted(p.positions, p.freqs))
  }

  // ----- cutting

  /** High-frequency terms take larger windows. */
  function Unit(df: nat): nat {
    if df >= 8192 then 1024 else 256
  }

  function Windows(p: TermPostings): nat {
    Groups(|p.docids|, Unit(|p.docids|))
  }

  function From(p: TermPostings, w: nat): nat {
    FirstWindow(w, Unit(|p.docids|))
  }

  function To(p: TermPostings, w: nat): nat {
    BlockEnd(w, Unit(|p.docids|), |p.docids|)
  }

  lemma {:induction false} Cuts(p: TermPostings, w: nat)
    requires w < Windows(p)
    ensures From(p, w) < To(p, w) <= |p.docids| && To(p, w) - From(p, w) <= 1024
    ensures (w + 1 < Windows(p) ==> From(p, w + 1) == To(p, w)) && (w + 1 == Windows(p) ==> To(p, w) == |p.docids|)
  {
    var n, g := |p.docids|, Unit(|p.docids|);
    GroupStarts(n, g, w);
    if w + 1 < Windows(p) {
      GroupStarts(n, g, w + 1);
    } else {
      GroupsCover(n, g);
    }
  }

  /** Before window `w` the first `k` documents are behind us. */
  ghost predicate Reached(p: TermPostings, w: nat, k: nat) {
    if w < Windows(p) then k == From(p, w) else k == |p.docids|
  }

  lemma {:induction false} ReachedStart(p: TermPostings)
    ensures Reached(p, 0, 0)
  {
  }

  lemma {:induction false} ReachedNext(p: TermPostings, w: nat)
    requires w < Windows(p)
    ensures Reached(p, w + 1, To(p, w))
  {
    Cuts(p, w);
  }

  function DocsOf(p: TermPostings, w: nat): (r: seq<nat>)
    requires w < Windows(p)
    ensures 0 < |r| == To(p, w) - From(p, w) <= 1024
  {
    Cuts(p, w);
    p.docids[From(p, w)..To(p, w)]
  }

  function FreqsOf(p: TermPostings, w: nat): (r: seq<nat>)
    requires w < Windows(p) && |p.freqs| == |p.docids|
    ensures |r| == To(p, w) - From(p, w)
  {
    Cuts(p, w);
    p.freqs[From(p, w)..To(p, w)]
  }

  function PosOf(p: TermPostings, w: nat): seq<nat>
    requires w < Windows(p) && |p.freqs| == |p.docids| && Parted(p.positions, p.freqs)
  {
    Cuts(p, w);
    SumMono(p.freqs, From(p, w), To(p, w));
    SumMono(p.freqs, To(p, w), |p.freqs|);
    p.positions[Sum(p.freqs, From(p, w))..Sum(p.freqs, To(p, w))]
  }

  lemma {:induction false} SumCut(freqs: seq<nat>, lo: nat, hi: nat, k: nat)
    requires lo <= hi <= |freqs| && k <= hi - lo
    ensures Sum(freqs[lo..hi], k) == Sum(freqs, lo + k) - Sum(freqs, lo)
  {
    if k > 0 {
      SumCut(freqs, lo, hi, k - 1);
    }
  }

  lemma {:induction false} SliceSlice(s: seq<nat>, a: nat, b: nat, i: nat, j: nat)
    requires a <= b <= |s| && i <= j <= b - a
    ensures s[a..b][i..j] == s[a + i..a + j]
  {
    var x, y := s[a..b][i..j], s[a + i..a + j];
    assert forall k :: 0 <= k < |x| ==> x[k] == y[k];
  }

  /** A window's positions are parted by its frequencies into the same lists. */
  lemma {:induction false} WindowLists(flat: seq<nat>, freqs: seq<nat>, lo: nat, hi: nat)
    requires Parted(flat, freqs) && lo <= hi <= |freqs|
    ensures Sum(freqs, lo) <= Sum(freqs, hi) <= |flat| && Parted(flat[Sum(freqs, lo)..Sum(freqs, hi)], freqs[lo..hi])
    ensures Lists(flat[Sum(freqs, lo)..Sum(freqs, hi)], freqs[lo..hi]) == Lists(flat, freqs)[lo..hi]
  {
    SumMono(freqs, lo, hi);
    SumMono(freqs, hi, |freqs|);
    SumCut(freqs, lo, hi, hi - lo);
    var part, fs := flat[Sum(freqs, lo)..Sum(freqs, hi)], freqs[lo..hi];
    var a, b := Lists(part, fs), Lists(flat, freqs)[lo..hi];
    forall d: nat | d < |a| ensures a[d] == b[d] {
      ListInWindow(flat, freqs, lo, hi, d);
      assert a[d] == ListAt(part, fs, d) && Lists(flat, freqs)[lo + d] == ListAt(flat, freqs, lo + d);
    }
  }

  lemma {:induction false} ListInWindow(flat: seq<nat>, freqs: seq<nat>, lo: nat, hi: nat, d: nat)
    requires Parted(flat, freqs) && lo <= hi <= |freqs| && d < hi - lo
    requires Sum(freqs, lo) <= Sum(freqs, hi) <= |flat| && Parted(flat[Sum(freqs, lo)..Sum(freqs, hi)], freqs[lo..hi])
    ensures ListAt(flat[Sum(freqs, lo)..Sum(freqs, hi)], freqs[lo..hi], d) == ListAt(flat, freqs, lo + d)
  {
    SumCut(freqs, lo, hi, d);
    SumCut(freqs, lo, hi, d + 1);
    SumMono(freqs, lo + d + 1, hi);
    SliceSlice(flat, Sum(freqs, lo), Sum(freqs, hi), Sum(freqs[lo..hi], d), Sum(freqs[lo..hi], d + 1));
  }

  // ----- what each window's row and bytes hold

  /** The byte form of every window, region by region. */
  datatype WindowBytes = WindowBytes(dds: seq<Bytes>, fqs: seq<Bytes>, pxs: seq<Bytes>, payloads: seq<Bytes>)

  function BaseOf(p: TermPostings, w: nat): nat
    requires w < Windows(p)
  {
    Cuts(p, w);
    if From(p, w) == 0 then 0 else p.docids[From(p, w) - 1]
  }

  ghost predicate ExtentIs(p: TermPostings, m: WindowMeta, w: nat)
    requires w < Windows(p)
  {
    var docs := DocsOf(p, w);
    m.lastDocid == docs[|docs| - 1] && m.winBase == BaseOf(p, w) && m.docCount == |docs|
  }

  ghost predicate IsMax(m: nat, vs: seq<nat>) {
    m < TWO32 && (forall i :: 0 <= i < |vs| ==> vs[i] <= m) && (vs != [] ==> m in vs)
  }

  /** The row's peak: the largest frequency, and a norm no document of the window undercuts,
      some document's own unless it is 0, the loosest. */
  ghost predicate PeakIs(docs: seq<nat>, freqs: seq<nat>, norms: seq<byte>, m: WindowMeta) {
    && IsMax(m.maxFreq, freqs)
    && (forall i :: 0 <= i < |docs| && docs[i] < |norms| ==> DecodeNorm(m.maxNorm) <= DecodeNorm(norms[docs[i]]))
    && (m.maxNorm != 0 ==> exists i :: 0 <= i < |docs| && docs[i] < |norms| && norms[docs[i]] == m.maxNorm)
    && (m.maxNorm == 0 ==> Unbounded(docs, norms))
  }

  /** A region stored raw at its place in the joined block. */
  ghost function PlaceOf(ps: seq<Bytes>, w: nat): Place
    requires w < |ps|
  {
    Place(At(ps, 0, w), false, |ps[w]|, |ps[w]|, Crc32c.Digest(ps[w]))
  }

  ghost predicate DdIs(p: TermPostings, m: WindowMeta, dds: seq<Bytes>, w: nat)
    requires w < Windows(p)
  {
    w < |dds| && m.dd == PlaceOf(dds, w) && IsDd(dds[w], DocsOf(p, w), BaseOf(p, w))
  }

  ghost predicate FreqIs(p: TermPostings, m: WindowMeta, fqs: seq<Bytes>, hasFreq: bool, w: nat)
    requires w < Windows(p) && |p.freqs| == |p.docids|
  {
    && w < |fqs|
    && if hasFreq then m.freq == PlaceOf(fqs, w) && Coded(fqs[w], FreqsOf(p, w)) else m.freq == NoPlace() && fqs[w] == []
  }

  ghost predicate PrxIs(p: TermPostings, m: WindowMeta, pxs: seq<Bytes>, payloads: seq<Bytes>, hasPrx: bool, w: nat)
    requires w < Windows(p) && ValidTerm(p, hasPrx)
  {
    && w < |pxs| && w < |payloads|
    && if hasPrx then
      m.prxOff == At(pxs, 0, w) && m.prxLen == |pxs[w]| && WindowIs(p, pxs[w], payloads[w], w)
    else
      m.prxOff == 0 && m.prxLen == 0 && pxs[w] == []
  }

  ghost predicate WindowIs(p: TermPostings, px: Bytes, payload: Bytes, w: nat)
    requires w < Windows(p) && ValidTerm(p, true)
  {
    Cuts(p, w);
    WindowLists(p.positions, p.freqs, From(p, w), To(p, w));
    IsWindow(px, Lists(PosOf(p, w), FreqsOf(p, w)), PforCodec, payload)
  }

  /** First pass: extent, peak and positions. */
  ghost predicate FirstRow(p: TermPostings, f: Features, m: WindowMeta, pxs: seq<Bytes>, payloads: seq<Bytes>, w: nat) {
    && ValidTerm(p, f.hasPrx) && w < Windows(p)
    && ExtentIs(p, m, w) && PeakIs(DocsOf(p, w), FreqsOf(p, w), f.norms, m) && PrxIs(p, m, pxs, payloads, f.hasPrx, w)
  }

  ghost predicate FirstRows(p: TermPostings, f: Features, ms: seq<WindowMeta>, pxs: seq<Bytes>, payloads: seq<Bytes>, k: nat) {
    && |ms| == |pxs| == |payloads| == k <= Windows(p)
    && forall w: nat {:trigger FirstRow(p, f, ms[w], pxs, payloads, w)} :: w < k ==> FirstRow(p, f, ms[w], pxs, payloads, w)
  }

  /** Second pass: docid and frequency regions. */
  ghost predicate SecondRow(p: TermPostings, f: Features, m: WindowMeta, dds: seq<Bytes>, fqs: seq<Bytes>, w: nat) {
    && w < Windows(p) && |p.freqs| == |p.docids|
    && DdIs(p, m, dds, w) && FreqIs(p, m, fqs, f.hasFreq, w)
  }

  ghost predicate SecondRows(p: TermPostings, f: Features, ms: seq<WindowMeta>, dds: seq<Bytes>, fqs: seq<Bytes>, k: nat) {
    && |dds| == |fqs| == k <= |ms|
    && forall w: nat {:trigger SecondRow(p, f, ms[w], dds, fqs, w)} :: w < k ==> SecondRow(p, f, ms[w], dds, fqs, w)
  }

  /** Rows and bytes of a whole posting. */
  ghost predicate Laid(p: TermPostings, f: Features, ms: seq<WindowMeta>, c: WindowBytes) {
    && Typed(p) && ValidTerm(p, f.hasPrx)
    && FirstRows(p, f, ms, c.pxs, c.payloads, Windows(p)) && SecondRows(p, f, ms, c.dds, c.fqs, Windows(p))
  }

  // ----- the posting region

  const GROUP: nat := 64

  function TableOf(f: Features, ms: seq<WindowMeta>): Table {
    Table(f.hasFreq, f.hasPrx, GROUP, ms)
  }

  ghost predicate Stored(region: Bytes, off: nat, part: Bytes) {
    off + |part| <= |region| && region[off..off + |part|] == part
  }

  lemma {:induction false} StoredIn(a: Bytes, b: Bytes, c: Bytes)
    ensures Stored(a + b + c, |a|, b)
  {
  }

  /** What was stored stays where it was as the region grows. */
  lemma {:induction false} StoredGrows(region: Bytes, off: nat, part: Bytes, more: Bytes)
    requires Stored(region, off, part)
    ensures Stored(region + more, off, part)
  {
    assert (region + more)[off..off + |part|] == region[off..off + |part|];
  }

  /** Directory, docid block and frequency block, one after the other. */
  ghost predicate FrqStored(region: Bytes, off: nat, len: nat, preludeLen: nat, prelude: Bytes, dd: Bytes, fq: Bytes) {
    && preludeLen == |prelude| && len == |prelude| + |dd| + |fq|
    && Stored(region, off, prelude) && Stored(region, off + |prelude|, dd) && Stored(region, off + |prelude| + |dd|, fq)
  }

  lemma {:induction false} FrqIn(a: Bytes, prelude: Bytes, dd: Bytes, fq: Bytes)
    ensures FrqStored(a + prelude + dd + fq, |a|, |prelude| + |dd| + |fq|, |prelude|, prelude, dd, fq)
  {
    StoredIn(a, prelude, dd + fq);
    assert a + prelude + (dd + fq) == a + prelude + dd + fq;
    StoredIn(a + prelude, dd, fq);
    StoredIn(a + prelude + dd, fq, []);
    assert a + prelude + dd + fq + [] == a + prelude + dd + fq;
  }

  ghost function Whole(ps: seq<Bytes>): Bytes {
    Join(ps, 0, |ps|)
  }

  datatype Parts = Parts(prelude: Bytes, dd: Bytes, fq: Bytes, px: Bytes)

  /** The locator, counted from `base`, leads to the parts in the region. */
  ghost predicate Leads(region: Bytes, base: nat, loc: Locator, hasPrx: bool, a: Parts) {
    && loc.PodRef? && loc.layout.Windowed? && loc.prx.Some? == hasPrx
    && FrqStored(region, base + loc.frq.off, loc.frq.len, loc.layout.preludeLen, a.prelude, a.dd, a.fq)
    && (if hasPrx then loc.prx.value.len == |a.px| && Stored(region, base + loc.prx.value.off, a.px) else a.px == [])
  }

  /** A posting's parts. */
  ghost function PartsOf(f: Features, ms: seq<WindowMeta>, c: WindowBytes): Parts
    requires Buildable(TableOf(f, ms))
  {
    Parts(PreludeBytes(TableOf(f, ms)), Whole(c.dds), Whole(c.fqs), Whole(c.pxs))
  }

  ghost predicate Written(region: Bytes, base: nat, loc: Locator, p: TermPostings, f: Features, ms: seq<WindowMeta>, c: WindowBytes) {
    Laid(p, f, ms, c) && Buildable(TableOf(f, ms)) && Leads(region, base, loc, f.hasPrx, PartsOf(f, ms, c))
  }

  lemma {:induction false} LeadsGrows(region: Bytes, base: nat, loc: Locator, hasPrx: bool, a: Parts, more: Bytes)
    requires Leads(region, base, loc, hasPrx, a)
    ensures Leads(region + more, base, loc, hasPrx, a)
  {
    var off := base + loc.frq.off;
    StoredGrows(region, off, a.prelude, more);
    StoredGrows(region, off + |a.prelude|, a.dd, more);
    StoredGrows(region, off + |a.prelude| + |a.dd|, a.fq, more);
    if hasPrx {
      StoredGrows(region, base + loc.prx.value.off, a.px, more);
    }
  }

  /** Later terms do not disturb a posting already written. */
  lemma {:induction false} WrittenGrows(region: Bytes, base: nat, loc: Locator, p: TermPostings, f: Features, ms: seq<WindowMeta>, c: WindowBytes, more: Bytes)
    requires Written(region, base, loc, p, f, ms, c)
    ensures Written(region + more, base, loc, p, f, ms, c)
  {
    LeadsGrows(region, base, loc, f.hasPrx, PartsOf(f, ms, c), more);
  }
}
