/** Building a windowed posting in two passes, positions first, and laying it out behind
    what the posting region already holds. */
module WindowedWriter {
  import opened Common
  import opened Pieces
  import opened Pfor
  import opened DocidSets
  import opened FrqRegions
  import opened PrxWindows
  import opened PrxFrames
  import opened WindowRows
  import opened FrqPrelude
  import opened WindowedLayout
  import opened BlockMax
  import DictEntries

  // ----- pass 1

  method MaxOf(vs: seq<nat>) returns (m: nat)
    requires Values(vs)
    ensures IsMax(m, vs)
  {
    m := 0;
    for i := 0 to |vs|
      invariant m < TWO32 && (forall j :: 0 <= j < i ==> vs[j] <= m) && (if i == 0 then m == 0 else m in vs)
    {
      assert vs[i] in vs;
      if vs[i] > m {
        m := vs[i];
      }
    }
  }

  /** A window's extent and peak. */
  method Skeleton(p: TermPostings, f: Features, start: nat, end: nat, base: nat, ghost w: nat) returns (m: WindowMeta)
    requires Typed(p) && |p.freqs| == |p.docids| && w < Windows(p) && start == From(p, w) && end == To(p, w) && base == BaseOf(p, w)
    ensures ExtentIs(p, m, w) && PeakIs(DocsOf(p, w), FreqsOf(p, w), f.norms, m)
    ensures m.prxOff == 0 && m.prxLen == 0 && m.freq == NoPlace()
  {
    Cuts(p, w);
    var docs, freqs := p.docids[start..end], p.freqs[start..end];
    var maxFreq := MaxOf(freqs);
    var maxNorm := WindowMaxNorm(f.norms, docs);
    m := WindowMeta(docs[|docs| - 1], base, |docs|, NoPlace(), NoPlace(), 0, 0, maxFreq, maxNorm);
  }

  /** A window's positions, refused when those of some document step back. */
  method PositionsOf(p: TermPostings, start: nat, end: nat, posOff: nat, ghost w: nat) returns (r: Result<Bytes>, ghost payload: Bytes)
    requires Typed(p) && ValidTerm(p, true) && w < Windows(p) && start == From(p, w) && end == To(p, w)
    requires start <= end <= |p.docids| && posOff == Sum(p.freqs, start)
    ensures r.Ok? <==> AllGood(Lists(p.positions, p.freqs)[start..end])
    ensures r.Ok? ==> WindowedLayout.WindowIs(p, r.value, payload, w)
  {
    Cuts(p, w);
    WindowLists(p.positions, p.freqs, start, end);
    SumCut(p.freqs, start, end, end - start);
    var freqs := p.freqs[start..end];
    var n := TotalOf(freqs);
    r, payload := BuildPrxWindow(p.positions[posOff..posOff + n], freqs, false);
  }

  ghost predicate NoFreqs(ms: seq<WindowMeta>, from: nat) {
    forall w :: from <= w < |ms| ==> ms[w].freq == NoPlace()
  }

  ghost predicate GoodTo(p: TermPostings, f: Features, k: nat) {
    f.hasPrx ==> Parted(p.positions, p.freqs) && GoodUpTo(Lists(p.positions, p.freqs), k)
  }

  lemma {:induction false} GoodGrows(lists: seq<seq<nat>>, lo: nat, hi: nat)
    requires lo <= hi <= |lists| && GoodUpTo(lists, lo)
    ensures AllGood(lists[lo..hi]) <==> GoodUpTo(lists, hi)
  {
    var part := lists[lo..hi];
    if AllGood(part) {
      forall d: nat | d < hi ensures ListGood(lists[d]) {
        if d >= lo {
          assert ListGood(part[d - lo]);
        }
      }
    }
    if GoodUpTo(lists, hi) {
      forall d: nat | d < |part| ensures ListGood(part[d]) {
        assert ListGood(lists[lo + d]);
      }
    }
  }

  /** A row's positions, written at `off`. */
  ghost predicate PrxPart(p: TermPostings, f: Features, m: WindowMeta, px: Bytes, pay: Bytes, w: nat, off: nat)
    requires ValidTerm(p, f.hasPrx) && w < Windows(p)
  {
    if f.hasPrx then m.prxOff == off && m.prxLen == |px| && WindowedLayout.WindowIs(p, px, pay, w)
    else m.prxOff == 0 && m.prxLen == 0 && px == []
  }

  datatype Row = Row(meta: WindowMeta, px: Bytes)

  method FirstOf(p: TermPostings, f: Features, start: nat, end: nat, base: nat, posOff: nat, prxOff: nat, ghost w: nat)
    returns (r: Result<Row>, ghost pay: Bytes)
    requires Typed(p) && ValidTerm(p, f.hasPrx) && w < Windows(p) && start == From(p, w) && end == To(p, w) && base == BaseOf(p, w)
    requires start <= end <= |p.docids| && posOff == Sum(p.freqs, start) && GoodTo(p, f, start)
    ensures r.Ok? <==> GoodTo(p, f, end)
    ensures r.Ok? ==> var m := r.value.meta;
                      && ExtentIs(p, m, w) && PeakIs(DocsOf(p, w), FreqsOf(p, w), f.norms, m) && m.freq == NoPlace()
                      && PrxPart(p, f, m, r.value.px, pay, w, prxOff)
  {
    pay := [];
    var m := Skeleton(p, f, start, end, base, w);
    if !f.hasPrx {
      r := Ok(Row(m, []));
      return;
    }
    var win;
    win, pay := PositionsOf(p, start, end, posOff, w);
    GoodGrows(Lists(p.positions, p.freqs), start, end);
    if win.Error? {
      r := Error(win.status);
      return;
    }
    r := Ok(Row(m.(prxOff := prxOff, prxLen := |win.value|), win.value));
  }

  lemma {:induction false} FirstStays(p: TermPostings, f: Features, m: WindowMeta, pxs: seq<Bytes>, pays: seq<Bytes>, w: nat, px: Bytes, pay: Bytes)
    requires w < |pxs| && w < |pays| && FirstRow(p, f, m, pxs, pays, w)
    ensures FirstRow(p, f, m, pxs + [px], pays + [pay], w)
  {
    JoinGrows(pxs, px, w);
  }

  lemma {:induction false} FirstLast(p: TermPostings, f: Features, m: WindowMeta, pxs: seq<Bytes>, pays: seq<Bytes>, px: Bytes, pay: Bytes)
    requires |pays| == |pxs| < Windows(p) && ValidTerm(p, f.hasPrx)
    requires ExtentIs(p, m, |pxs|) && PeakIs(DocsOf(p, |pxs|), FreqsOf(p, |pxs|), f.norms, m)
    requires PrxPart(p, f, m, px, pay, |pxs|, |Join(pxs, 0, |pxs|)|)
    ensures FirstRow(p, f, m, pxs + [px], pays + [pay], |pxs|)
  {
    JoinGrows(pxs, px, |pxs|);
  }

  lemma {:induction false} FirstSnoc(p: TermPostings, f: Features, ms: seq<WindowMeta>, pxs: seq<Bytes>, pays: seq<Bytes>, m: WindowMeta, px: Bytes, pay: Bytes)
    requires FirstRows(p, f, ms, pxs, pays, |ms|) && |ms| < Windows(p)
    requires ValidTerm(p, f.hasPrx) && ExtentIs(p, m, |ms|) && PeakIs(DocsOf(p, |ms|), FreqsOf(p, |ms|), f.norms, m)
    requires PrxPart(p, f, m, px, pay, |ms|, |Join(pxs, 0, |pxs|)|)
    ensures FirstRows(p, f, ms + [m], pxs + [px], pays + [pay], |ms| + 1)
    ensures Join(pxs + [px], 0, |pxs| + 1) == Join(pxs, 0, |pxs|) + px
  {
    var ms', pxs', pays' := ms + [m], pxs + [px], pays + [pay];
    JoinGrows(pxs, px, |pxs|);
    forall w: nat | w < |ms'| ensures FirstRow(p, f, ms'[w], pxs', pays', w) {
      if w < |ms| {
        assert FirstRow(p, f, ms[w], pxs, pays, w);
        FirstStays(p, f, ms[w], pxs, pays, w, px, pay);
      } else {
        FirstLast(p, f, m, pxs, pays, px, pay);
      }
    }
    JoinSnoc(pxs', |pxs|);
  }

  /** Window `w` starts at `start`, coded against `base`; behind the last one all is done. */
  ghost predicate Standing(p: TermPostings, w: nat, start: nat, base: nat) {
    Reached(p, w, start) && (w < Windows(p) ==> base == BaseOf(p, w))
  }

  lemma {:induction false} Starting(p: TermPostings)
    ensures Standing(p, 0, 0, 0)
  {
    ReachedStart(p);
  }

  lemma {:induction false} NextStart(p: TermPostings, w: nat, m: WindowMeta)
    requires w < Windows(p) && ExtentIs(p, m, w)
    ensures Standing(p, w + 1, To(p, w), m.lastDocid)
  {
    Cuts(p, w);
    ReachedNext(p, w);
  }

  method TotalIn(freqs: seq<nat>, lo: nat, hi: nat) returns (n: nat)
    requires lo <= hi <= |freqs|
    ensures Sum(freqs, lo) + n == Sum(freqs, hi)
  {
    n := TotalOf(freqs[lo..hi]);
    SumCut(freqs, lo, hi, hi - lo);
  }

  /** Rows with extent, peak and positions; the position windows are streamed out in order. */
  method FirstPass(p: TermPostings, f: Features) returns (r: Result<seq<WindowMeta>>, prx: Bytes, ghost pxs: seq<Bytes>, ghost pays: seq<Bytes>)
    requires Typed(p) && ValidTerm(p, f.hasPrx)
    ensures r.Ok? <==> GoodTo(p, f, |p.docids|)
    ensures r.Ok? ==> FirstRows(p, f, r.value, pxs, pays, Windows(p)) && prx == Join(pxs, 0, |pxs|) && NoFreqs(r.value, 0)
    ensures !f.hasPrx ==> prx == []
  {
    pxs, pays, prx := [], [], [];
    var ms: seq<WindowMeta>, base: nat, posOff: nat, start: nat := [], 0, 0, 0;
    var n := |p.docids|;
    Starting(p);
    while |ms| < Windows(p)
      invariant FirstRows(p, f, ms, pxs, pays, |ms|) && prx == Join(pxs, 0, |pxs|)
      invariant start <= n && posOff == Sum(p.freqs, start) && GoodTo(p, f, start) && NoFreqs(ms, 0)
      invariant Standing(p, |ms|, start, base) && (!f.hasPrx ==> prx == [])
      decreases Windows(p) - |ms|
    {
      ghost var w := |ms|;
      Cuts(p, w);
      var end := Min(start + Unit(n), n);
      var row;
      ghost var pay;
      row, pay := FirstOf(p, f, start, end, base, posOff, |prx|, w);
      if row.Error? {
        GoodShrinks(p, f, end);
        r := Error(row.status);
        return;
      }
      var m, px := row.value.meta, row.value.px;
      FirstSnoc(p, f, ms, pxs, pays, m, px, pay);
      NextStart(p, w, m);
      var winPos := TotalIn(p.freqs, start, end);
      posOff := posOff + winPos;
      prx, pxs, pays, ms := prx + px, pxs + [px], pays + [pay], ms + [m];
      base, start := m.lastDocid, end;
    }
    r := Ok(ms);
  }

  lemma {:induction false} GoodShrinks(p: TermPostings, f: Features, k: nat)
    requires k <= |p.docids| && |p.freqs| == |p.docids|
    ensures GoodTo(p, f, |p.docids|) ==> GoodTo(p, f, k)
  {
  }

  // ----- pass 2

  lemma {:induction false} WindowClimbs(p: TermPostings, w: nat)
    requires Ascending(p.docids) && w < Windows(p)
    ensures Climbs(DocsOf(p, w), BaseOf(p, w))
  {
    Cuts(p, w);
    var docs, base, lo := DocsOf(p, w), BaseOf(p, w), From(p, w);
    forall i: nat | i < |docs| ensures Rises(docs, base, i) {
      assert docs[i] == p.docids[lo + i];
      assert lo + i > 0 ==> p.docids[lo + i - 1] < p.docids[lo + i];
    }
  }

  function Placed(off: nat, g: Region): Place {
    Place(off, g.meta.zstd, g.meta.diskLen, g.meta.uncompLen, g.meta.crc)
  }

  lemma {:induction false} SecondSnoc(p: TermPostings, f: Features, ms: seq<WindowMeta>, dds: seq<Bytes>, fqs: seq<Bytes>, m: WindowMeta, dd: Bytes, fq: Bytes)
    requires SecondRows(p, f, ms, dds, fqs, |dds|) && |dds| < |ms| && |dds| < Windows(p) && |p.freqs| == |p.docids|
    requires DdIs(p, m, dds + [dd], |dds|) && FreqIs(p, m, fqs + [fq], f.hasFreq, |dds|)
    ensures SecondRows(p, f, ms[|dds| := m], dds + [dd], fqs + [fq], |dds| + 1)
    ensures Join(dds + [dd], 0, |dds| + 1) == Join(dds, 0, |dds|) + dd && Join(fqs + [fq], 0, |fqs| + 1) == Join(fqs, 0, |fqs|) + fq
  {
    var k := |dds|;
    var ms', dds', fqs' := ms[k := m], dds + [dd], fqs + [fq];
    forall w: nat | w < k + 1 ensures SecondRow(p, f, ms'[w], dds', fqs', w) {
      JoinGrows(dds, dd, w);
      JoinGrows(fqs, fq, w);
      if w < k {
        assert SecondRow(p, f, ms[w], dds, fqs, w);
      }
    }
    JoinGrows(dds, dd, k);
    JoinGrows(fqs, fq, k);
    JoinSnoc(dds', k);
    JoinSnoc(fqs', k);
  }

  /** Filling in the regions leaves a row's extent, peak and positions as they were. */
  lemma {:induction false} FirstKept(p: TermPostings, f: Features, ms: seq<WindowMeta>, pxs: seq<Bytes>, pays: seq<Bytes>, k: nat, dd: Place, fq: Place)
    requires FirstRows(p, f, ms, pxs, pays, |ms|) && k < |ms|
    ensures FirstRows(p, f, ms[k := ms[k].(dd := dd, freq := fq)], pxs, pays, |ms|)
  {
    var ms' := ms[k := ms[k].(dd := dd, freq := fq)];
    forall w: nat | w < |ms| ensures FirstRow(p, f, ms'[w], pxs, pays, w) {
      assert FirstRow(p, f, ms[w], pxs, pays, w);
    }
  }

  method PlaceDd(p: TermPostings, m: WindowMeta, start: nat, end: nat, base: nat, off: nat, ghost dds: seq<Bytes>) returns (m': WindowMeta, dd: Bytes)
    requires Values(p.docids) && Ascending(p.docids) && |dds| < Windows(p) && start == From(p, |dds|) && end == To(p, |dds|) && base == BaseOf(p, |dds|)
    requires off == |Join(dds, 0, |dds|)|
    ensures m' == m.(dd := m'.dd) && DdIs(p, m', dds + [dd], |dds|)
  {
    Cuts(p, |dds|);
    WindowClimbs(p, |dds|);
    var g := BuildDdRegion(p.docids[start..end], base);
    dd := g.value.bytes;
    JoinGrows(dds, dd, |dds|);
    m' := m.(dd := Placed(off, g.value));
  }

  method PlaceFreq(p: TermPostings, hasFreq: bool, m: WindowMeta, start: nat, end: nat, off: nat, ghost fqs: seq<Bytes>) returns (m': WindowMeta, fq: Bytes)
    requires Values(p.freqs) && |p.freqs| == |p.docids| && |fqs| < Windows(p) && start == From(p, |fqs|) && end == To(p, |fqs|)
    requires off == |Join(fqs, 0, |fqs|)| && (!hasFreq ==> m.freq == NoPlace())
    ensures m' == m.(freq := m'.freq) && FreqIs(p, m', fqs + [fq], hasFreq, |fqs|)
  {
    m', fq := m, [];
    if hasFreq {
      Cuts(p, |fqs|);
      var h := BuildFreqRegion(p.freqs[start..end]);
      fq := h.bytes;
      JoinGrows(fqs, fq, |fqs|);
      m' := m.(freq := Placed(off, h));
    }
  }

  /** Encodes one window's regions and records where they go. */
  method FillRow(p: TermPostings, f: Features, ms: seq<WindowMeta>, w: nat, start: nat, end: nat, base: nat, ddOff: nat, fqOff: nat,
                 ghost pxs: seq<Bytes>, ghost pays: seq<Bytes>, ghost dds: seq<Bytes>, ghost fqs: seq<Bytes>)
    returns (ms': seq<WindowMeta>, dd: Bytes, fq: Bytes)
    requires Typed(p) && ValidTerm(p, f.hasPrx) && w < |ms| == Windows(p) && start == From(p, w) && end == To(p, w) && base == BaseOf(p, w)
    requires FirstRows(p, f, ms, pxs, pays, |ms|) && SecondRows(p, f, ms, dds, fqs, w) && NoFreqs(ms, w)
    requires ddOff == |Join(dds, 0, |dds|)| && fqOff == |Join(fqs, 0, |fqs|)|
    ensures |ms'| == |ms| && FirstRows(p, f, ms', pxs, pays, |ms|) && SecondRows(p, f, ms', dds + [dd], fqs + [fq], w + 1)
    ensures NoFreqs(ms', w + 1) && ExtentIs(p, ms'[w], w)
    ensures Join(dds + [dd], 0, |dds| + 1) == Join(dds, 0, |dds|) + dd && Join(fqs + [fq], 0, |fqs| + 1) == Join(fqs, 0, |fqs|) + fq
  {
    var m;
    m, dd := PlaceDd(p, ms[w], start, end, base, ddOff, dds);
    m, fq := PlaceFreq(p, f.hasFreq, m, start, end, fqOff, fqs);
    SecondSnoc(p, f, ms, dds, fqs, m, dd, fq);
    FirstKept(p, f, ms, pxs, pays, w, m.dd, m.freq);
    assert FirstRow(p, f, ms[w], pxs, pays, w);
    ms' := ms[w := m];
  }

  /** Docid regions and frequency regions, each grouped into one block. */
  method SecondPass(p: TermPostings, f: Features, first: seq<WindowMeta>, ghost pxs: seq<Bytes>, ghost pays: seq<Bytes>)
    returns (ms: seq<WindowMeta>, ddBlock: Bytes, fqBlock: Bytes, ghost dds: seq<Bytes>, ghost fqs: seq<Bytes>)
    requires Typed(p) && ValidTerm(p, f.hasPrx) && FirstRows(p, f, first, pxs, pays, Windows(p))
    requires NoFreqs(first, 0)
    ensures Laid(p, f, ms, WindowBytes(dds, fqs, pxs, pays))
    ensures ddBlock == Join(dds, 0, |dds|) && fqBlock == Join(fqs, 0, |fqs|)
  {
    ms, ddBlock, fqBlock, dds, fqs := first, [], [], [], [];
    var n := |p.docids|;
    var start: nat, base: nat := 0, 0;
    Starting(p);
    for w := 0 to |first|
      invariant FirstRows(p, f, ms, pxs, pays, |first|) && SecondRows(p, f, ms, dds, fqs, w)
      invariant ddBlock == Join(dds, 0, |dds|) && fqBlock == Join(fqs, 0, |fqs|)
      invariant Standing(p, w, start, base)
      invariant NoFreqs(ms, w)
    {
      var end := Min(start + Unit(n), n);
      var dd, fq;
      ms, dd, fq := FillRow(p, f, ms, w, start, end, base, |ddBlock|, |fqBlock|, pxs, pays, dds, fqs);
      dds, fqs := dds + [dd], fqs + [fq];
      ddBlock, fqBlock := ddBlock + dd, fqBlock + fq;
      NextStart(p, w, ms[w]);
      base, start := ms[w].lastDocid, end;
    }
  }

  // ----- the posting region

  lemma {:induction false} AscendingBounded(docids: seq<nat>, i: nat)
    requires Ascending(docids) && i < |docids|
    ensures i <= docids[i]
  {
    if i > 0 {
      AscendingBounded(docids, i - 1);
    }
  }

  /** The directory never has too many windows: 2^32 documents make at most 2^22. */
  lemma {:induction false} WindowsUnderCap(p: TermPostings)
    requires Values(p.docids) && Ascending(p.docids)
    ensures Windows(p) <= MAX_WINDOWS
  {
    var n := |p.docids|;
    if n > 0 {
      AscendingBounded(p.docids, n - 1);
    }
    GroupsIsCeil(n, Unit(n));
  }

  /** Each window ends before the next one does and is based on the end of the one before. */
  lemma {:induction false} RowChain(p: TermPostings, f: Features, ms: seq<WindowMeta>, pxs: seq<Bytes>, pays: seq<Bytes>, w: nat)
    requires FirstRows(p, f, ms, pxs, pays, |ms|) && w < |ms|
    ensures ms[w].winBase == PrevLast(ms, w) <= ms[w].lastDocid
  {
    assert FirstRow(p, f, ms[w], pxs, pays, w);
    Cuts(p, w);
    if w > 0 {
      assert FirstRow(p, f, ms[w - 1], pxs, pays, w - 1);
      Cuts(p, w - 1);
    }
  }

  lemma {:induction false} LaidBuildable(p: TermPostings, f: Features, ms: seq<WindowMeta>, c: WindowBytes)
    requires Laid(p, f, ms, c)
    ensures Buildable(TableOf(f, ms))
  {
    WindowsUnderCap(p);
    forall w: nat | w < |ms| ensures Follows(ms, w) {
      RowChain(p, f, ms, c.pxs, c.payloads, w);
    }
  }

  method ValidateTerm(p: TermPostings, hasPrx: bool) returns (ok: bool)
    ensures ok <==> ValidTerm(p, hasPrx)
  {
    if |p.freqs| != |p.docids| {
      return false;
    }
    if hasPrx {
      var total := TotalOf(p.freqs);
      if total != |p.positions| {
        return false;
      }
    }
    ok := CheckAscending(p.docids);
  }

  method CheckAscending(s: seq<nat>) returns (ok: bool)
    ensures ok <==> Ascending(s)
  {
    var i := 1;
    while i < |s|
      invariant i >= 1 && forall a, b :: 0 <= a < b < i && b < |s| ==> s[a] < s[b]
    {
      if s[i] <= s[i - 1] {
        return false;
      }
      i := i + 1;
    }
    ok := true;
  }

  /** Positions, directory, docid block and frequency block, appended to the posting region;
      refused exactly when the posting is malformed or positions step back. */
  method BuildWindowedEntry(p: TermPostings, f: Features, region: Bytes, base: nat)
    returns (r: Result<Locator>, region': Bytes, ghost ms: seq<WindowMeta>, ghost c: WindowBytes)
    requires Typed(p) && base <= |region|
    ensures r.Ok? <==> ValidTerm(p, f.hasPrx) && GoodTo(p, f, |p.docids|)
    ensures region <= region' && (r.Ok? ==> Written(region', base, r.value, p, f, ms, c))
  {
    region', ms, c := region, [], WindowBytes([], [], [], []);
    var ok := ValidateTerm(p, f.hasPrx);
    if !ok {
      r := Error(InvalidArgument("logical_index: malformed postings"));
      return;
    }
    var first, prx;
    ghost var pxs, pays;
    first, prx, pxs, pays := FirstPass(p, f);
    if first.Error? {
      r, region' := Error(first.status), region + prx;
      return;
    }
    var rows, ddBlock, fqBlock;
    ghost var dds, fqs;
    rows, ddBlock, fqBlock, dds, fqs := SecondPass(p, f, first.value, pxs, pays);
    ms, c := rows, WindowBytes(dds, fqs, pxs, pays);
    LaidBuildable(p, f, ms, c);
    var prelude := BuildPrelude(TableOf(f, rows));
    var loc;
    loc, region' := LayOut(region, base, f.hasPrx, Parts(prelude.value, ddBlock, fqBlock, prx));
    r := Ok(loc);
  }

  /** The position span first, then the directory and the two blocks. */
  method LayOut(region: Bytes, base: nat, hasPrx: bool, a: Parts) returns (loc: Locator, region': Bytes)
    requires base <= |region| && (!hasPrx ==> a.px == [])
    ensures region <= region' && Leads(region', base, loc, hasPrx, a)
  {
    var front := region + a.px;
    region' := front + a.prelude + a.dd + a.fq;
    FrqIn(front, a.prelude, a.dd, a.fq);
    PrxBehind(region, a.px, a.prelude, a.dd, a.fq);
    loc := DictEntries.PodRef(
      DictEntries.Span(|front| - base, |region'| - |front|),
      DictEntries.Layout.Windowed(|a.prelude|),
      if hasPrx then Some(DictEntries.Span(|region| - base, |a.px|)) else None);
  }

  lemma {:induction false} PrxBehind(region: Bytes, prx: Bytes, a: Bytes, b: Bytes, c: Bytes)
    ensures Stored(region + prx + a + b + c, |region|, prx) && region <= region + prx + a + b + c
  {
    StoredIn(region, prx, a + b + c);
    assert region + prx + (a + b + c) == region + prx + a + b + c;
  }
}
