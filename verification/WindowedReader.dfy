/** Reading a windowed posting back: directory, blocks, then every window in turn. Docids
    alone never touch the frequency block. */
module WindowedReader {
  import opened Common
  import opened Pieces
  import opened Pfor
  import opened PforRuns
  import opened FrqRegions
  import opened PrxWindows
  import opened PrxFrames
  import opened WindowRows
  import opened FrqPrelude
  import opened FrqPreludeReader
  import opened WindowedLayout
  import opened WindowedWriter
  import Crc32c
  import DictEntries

  // ----- the directory can be opened

  lemma {:induction false} PieceWithin(ps: seq<Bytes>, w: nat)
    requires w < |ps|
    ensures At(ps, 0, w) + |ps[w]| == |Join(ps, 0, w + 1)| <= |Whole(ps)| && Stored(Whole(ps), At(ps, 0, w), ps[w])
  {
    JoinSnoc(ps, w);
    JoinSplit(ps, 0, w + 1, |ps|);
    var a, b, c := Join(ps, 0, w), ps[w], Join(ps, w + 1, |ps|);
    StoredIn(a, b, c);
  }

  /** Everything written fits 64-bit offsets. */
  ghost predicate Small(a: WindowedLayout.Parts) {
    |a.prelude| < TWO64 && |a.dd| < TWO64 && |a.fq| < TWO64 && |a.px| < TWO64
  }

  lemma {:induction false} PlaceSmall(ps: seq<Bytes>, w: nat)
    requires w < |ps| && |Whole(ps)| < TWO64
    ensures PlaceFits(PlaceOf(ps, w))
  {
    PieceWithin(ps, w);
    Crc32c.DigestFits(ps[w]);
  }

  lemma {:induction false} LaidRow(p: TermPostings, f: Features, ms: seq<WindowMeta>, c: WindowBytes, w: nat)
    requires Laid(p, f, ms, c) && w < |ms| && |Whole(c.dds)| < TWO64 && |Whole(c.fqs)| < TWO64 && |Whole(c.pxs)| < TWO64
    ensures RowGood(TableOf(f, ms), w)
  {
    assert FirstRow(p, f, ms[w], c.pxs, c.payloads, w);
    assert SecondRow(p, f, ms[w], c.dds, c.fqs, w);
    PlaceSmall(c.dds, w);
    PlaceSmall(c.fqs, w);
    PieceWithin(c.pxs, w);
    RowChain(p, f, ms, c.pxs, c.payloads, w);
    LastSmall(p, w);
  }

  lemma {:induction false} LastSmall(p: TermPostings, w: nat)
    requires Values(p.docids) && w < Windows(p)
    ensures var docs := DocsOf(p, w); docs[|docs| - 1] < TWO32
  {
    Cuts(p, w);
  }

  lemma {:induction false} DdSums(p: TermPostings, f: Features, ms: seq<WindowMeta>, c: WindowBytes, k: nat)
    requires SecondRows(p, f, ms, c.dds, c.fqs, |ms|) && k <= |ms|
    ensures DdSum(ms, k) == |Join(c.dds, 0, k)|
  {
    if k > 0 {
      DdSums(p, f, ms, c, k - 1);
      assert SecondRow(p, f, ms[k - 1], c.dds, c.fqs, k - 1);
      JoinSnoc(c.dds, k - 1);
    }
  }

  lemma {:induction false} FreqSums(p: TermPostings, f: Features, ms: seq<WindowMeta>, c: WindowBytes, k: nat)
    requires SecondRows(p, f, ms, c.dds, c.fqs, |ms|) && k <= |ms|
    ensures FreqSum(ms, k) == |Join(c.fqs, 0, k)|
  {
    if k > 0 {
      FreqSums(p, f, ms, c, k - 1);
      assert SecondRow(p, f, ms[k - 1], c.dds, c.fqs, k - 1);
      JoinSnoc(c.fqs, k - 1);
    }
  }

  lemma {:induction false} LaidTiled(p: TermPostings, f: Features, ms: seq<WindowMeta>, c: WindowBytes)
    requires Laid(p, f, ms, c) && |Whole(c.dds)| < TWO64 && |Whole(c.fqs)| < TWO64
    ensures Tiled(ms, f.hasFreq)
  {
    forall w: nat | w < |ms| ensures TiledRow(ms, f.hasFreq, w) {
      assert SecondRow(p, f, ms[w], c.dds, c.fqs, w);
      DdSums(p, f, ms, c, w);
      DdSums(p, f, ms, c, w + 1);
      FreqSums(p, f, ms, c, w);
      FreqSums(p, f, ms, c, w + 1);
      PieceWithin(c.dds, w);
      PieceWithin(c.fqs, w);
    }
  }

  lemma {:induction false} LaidOpenable(p: TermPostings, f: Features, ms: seq<WindowMeta>, c: WindowBytes)
    requires Laid(p, f, ms, c) && Buildable(TableOf(f, ms)) && Small(WindowedLayout.PartsOf(f, ms, c))
    ensures Openable(TableOf(f, ms))
    ensures Opened(TableOf(f, ms)).ddLen == |Whole(c.dds)| && (f.hasFreq ==> Opened(TableOf(f, ms)).freqLen == |Whole(c.fqs)|)
    ensures !f.hasFreq ==> Opened(TableOf(f, ms)).freqLen == 0
  {
    var t := TableOf(f, ms);
    forall w: nat | w < |t.windows| ensures RowGood(t, w) {
      LaidRow(p, f, ms, c, w);
    }
    SizedBySize(t);
    LaidTiled(p, f, ms, c);
    DdSums(p, f, ms, c, |ms|);
    FreqSums(p, f, ms, c, |ms|);
  }

  // ----- one window

  function Carve(block: Bytes, off: nat, len: nat): Result<Bytes> {
    if off > |block| || len > |block| - off then Error(Corruption("windowed_posting: range out of section"))
    else Ok(block[off..off + len])
  }

  lemma {:induction false} Carved(ps: seq<Bytes>, w: nat)
    requires w < |ps|
    ensures Carve(Whole(ps), At(ps, 0, w), |ps[w]|) == Ok(ps[w])
  {
    PieceWithin(ps, w);
  }

  function MetaFor(g: Place): RegionMeta {
    RegionMeta(g.zstd, g.uncompLen, g.diskLen, g.crc, true)
  }

  /** A decoded posting or a window of one. */
  datatype Decoded = Decoded(docids: seq<nat>, freqs: seq<nat>, positions: seq<seq<nat>>)

  method DecodeDocs(m: WindowMeta, slice: Bytes, inflate: Inflate, ghost p: TermPostings, ghost dds: seq<Bytes>, ghost w: nat, ghost good: bool)
    returns (r: Result<seq<nat>>)
    requires good ==> Values(p.docids) && w < Windows(p) && DdIs(p, m, dds, w) && ExtentIs(p, m, w) && slice == dds[w]
    ensures good ==> r == Ok(DocsOf(p, w))
  {
    ghost var docs: seq<nat> := [];
    if good {
      docs := DocsOf(p, w);
      Cuts(p, w);
      DdLength(slice, docs, m.winBase);
    }
    var ids := DecodeDdRegion(slice, MetaFor(m.dd), m.winBase, inflate, docs, good);
    if ids.Error? {
      return Error(ids.status);
    }
    if |ids.value| != m.docCount {
      return Error(Corruption("windowed_posting: frq doc_count mismatch"));
    }
    r := ids;
  }

  method DecodeFreqs(m: WindowMeta, slice: Bytes, inflate: Inflate, ghost p: TermPostings, ghost fqs: seq<Bytes>, ghost w: nat, ghost good: bool)
    returns (r: Result<seq<nat>>)
    requires good ==> Values(p.freqs) && |p.freqs| == |p.docids| && w < Windows(p) && FreqIs(p, m, fqs, true, w) && ExtentIs(p, m, w) && slice == fqs[w]
    ensures good ==> r == Ok(FreqsOf(p, w))
  {
    ghost var freqs: seq<nat> := [];
    if good {
      freqs := FreqsOf(p, w);
      Cuts(p, w);
      RunsLength(slice, freqs);
    }
    r := DecodeFreqRegion(slice, MetaFor(m.freq), m.docCount, inflate, freqs, good);
  }

  /** The position lists of a window. */
  ghost function ListsOf(p: TermPostings, w: nat): (r: seq<seq<nat>>)
    requires ValidTerm(p, true) && w < Windows(p)
    ensures |r| == To(p, w) - From(p, w)
  {
    Cuts(p, w);
    Lists(p.positions, p.freqs)[From(p, w)..To(p, w)]
  }

  /** The reader's caps on a window of positions. */
  ghost predicate Accepted(p: TermPostings, payload: Bytes, w: nat)
    requires ValidTerm(p, true) && w < Windows(p)
  {
    Cuts(p, w);
    |payload| <= MAX_PLAIN && Sum(p.freqs, To(p, w)) - Sum(p.freqs, From(p, w)) <= MAX_POSITIONS
  }

  lemma {:induction false} WindowAccepted(p: TermPostings, payload: Bytes, px: Bytes, w: nat)
    requires Typed(p) && ValidTerm(p, true) && w < Windows(p) && WindowedLayout.WindowIs(p, px, payload, w)
    ensures var ls := ListsOf(p, w);
            && |ls| <= MAX_DOCS && Values(Counts(ls)) && IsWindow(px, ls, PforCodec, payload)
            && (Readable(ls, PforCodec, payload) <==> Accepted(p, payload, w))
  {
    Cuts(p, w);
    WindowLists(p.positions, p.freqs, From(p, w), To(p, w));
    CountsOfLists(PosOf(p, w), FreqsOf(p, w));
    SumCut(p.freqs, From(p, w), To(p, w), To(p, w) - From(p, w));
  }

  method DecodePositions(slice: Bytes, docs: nat, inflate: Inflate, ghost p: TermPostings, ghost payload: Bytes, ghost w: nat, ghost good: bool)
    returns (r: Result<seq<seq<nat>>>)
    requires good ==> Typed(p) && ValidTerm(p, true) && w < Windows(p) && WindowedLayout.WindowIs(p, slice, payload, w) && |payload| < TWO32
    requires good ==> docs == To(p, w) - From(p, w)
    ensures good ==> if Accepted(p, payload, w) then r == Ok(ListsOf(p, w)) else r.Error?
  {
    ghost var ls: seq<seq<nat>> := [];
    if good {
      ls := ListsOf(p, w);
      WindowAccepted(p, payload, slice, w);
    }
    var lists := ReadPrxWindow(slice, inflate, ls, PforCodec, payload, good);
    if lists.Error? {
      return Error(lists.status);
    }
    if |lists.value| != docs {
      return Error(Corruption("windowed_posting: prx/frq doc-count mismatch"));
    }
    r := lists;
  }

  /** What the caller asks for beside docids. */
  datatype Wants = Wants(positions: bool, freqs: bool)

  datatype Blocks = Blocks(dd: Bytes, freq: Bytes, prx: Bytes)
  datatype Slices = Slices(dd: Bytes, freq: Bytes, prx: Bytes)

  /** The fetched blocks of a posting; a block nobody asked for is not read. */
  ghost predicate Fetched(b: Blocks, c: WindowBytes, wants: Wants) {
    b.dd == Whole(c.dds) && (wants.freqs ==> b.freq == Whole(c.fqs)) && (wants.positions ==> b.prx == Whole(c.pxs))
  }

  ghost predicate CanGive(f: Features, wants: Wants) {
    (wants.positions ==> f.hasPrx) && (wants.freqs ==> f.hasFreq)
  }

  ghost predicate RowOf(p: TermPostings, f: Features, m: WindowMeta, c: WindowBytes, w: nat) {
    Typed(p) && FirstRow(p, f, m, c.pxs, c.payloads, w) && SecondRow(p, f, m, c.dds, c.fqs, w)
  }

  method CarveWindow(m: WindowMeta, b: Blocks, wants: Wants, ghost p: TermPostings, ghost f: Features, ghost c: WindowBytes, ghost w: nat, ghost good: bool)
    returns (r: Result<Slices>)
    requires good ==> RowOf(p, f, m, c, w) && CanGive(f, wants) && Fetched(b, c, wants)
    ensures good ==> r.Ok? && r.value.dd == c.dds[w] && (wants.freqs ==> r.value.freq == c.fqs[w]) && (wants.positions ==> r.value.prx == c.pxs[w])
  {
    if good {
      Carved(c.dds, w);
      Carved(c.fqs, w);
      Carved(c.pxs, w);
    }
    var dd := Carve(b.dd, m.dd.off, m.dd.diskLen);
    if dd.Error? {
      return Error(dd.status);
    }
    var freq: Result<Bytes>, prx: Result<Bytes> := Ok([]), Ok([]);
    if wants.freqs {
      freq := Carve(b.freq, m.freq.off, m.freq.diskLen);
      if freq.Error? {
        return Error(freq.status);
      }
    }
    if wants.positions {
      prx := Carve(b.prx, m.prxOff, m.prxLen);
      if prx.Error? {
        return Error(prx.status);
      }
    }
    r := Ok(Slices(dd.value, freq.value, prx.value));
  }

  /** What reading a window should give. */
  ghost function WindowOf(p: TermPostings, wants: Wants, w: nat): Decoded
    requires w < Windows(p) && ValidTerm(p, wants.positions)
  {
    Decoded(DocsOf(p, w), if wants.freqs then FreqsOf(p, w) else [], if wants.positions then ListsOf(p, w) else [])
  }

  ghost predicate Within(p: TermPostings, wants: Wants, payload: Bytes, w: nat)
    requires w < Windows(p) && ValidTerm(p, wants.positions)
  {
    wants.positions ==> Accepted(p, payload, w)
  }

  method DecodeWindow(m: WindowMeta, s: Slices, wants: Wants, inflate: Inflate, ghost p: TermPostings, ghost f: Features, ghost c: WindowBytes, ghost w: nat, ghost good: bool)
    returns (r: Result<Decoded>)
    requires good ==> RowOf(p, f, m, c, w) && CanGive(f, wants) && ValidTerm(p, wants.positions) && |c.payloads[w]| < TWO32
    requires good ==> s.dd == c.dds[w] && (wants.freqs ==> s.freq == c.fqs[w]) && (wants.positions ==> s.prx == c.pxs[w])
    ensures good ==> if Within(p, wants, c.payloads[w], w) then r == Ok(WindowOf(p, wants, w)) else r.Error?
  {
    var docs := DecodeDocs(m, s.dd, inflate, p, c.dds, w, good);
    if docs.Error? {
      return Error(docs.status);
    }
    var freqs: seq<nat>, lists: seq<seq<nat>> := [], [];
    if wants.freqs {
      var fs := DecodeFreqs(m, s.freq, inflate, p, c.fqs, w, good);
      if fs.Error? {
        return Error(fs.status);
      }
      freqs := fs.value;
    }
    if wants.positions {
      var ls := DecodePositions(s.prx, |docs.value|, inflate, p, if good then c.payloads[w] else [], w, good);
      if ls.Error? {
        return Error(ls.status);
      }
      lists := ls.value;
    }
    r := Ok(Decoded(docs.value, freqs, lists));
  }

  // ----- the whole posting

  /** The posting's documents before `k`. */
  ghost function UpTo(p: TermPostings, wants: Wants, k: nat): Decoded
    requires ValidTerm(p, wants.positions) && k <= |p.docids|
  {
    Decoded(p.docids[..k], if wants.freqs then p.freqs[..k] else [], if wants.positions then Lists(p.positions, p.freqs)[..k] else [])
  }

  lemma {:induction false} WholeOf(p: TermPostings, wants: Wants)
    requires ValidTerm(p, wants.positions)
    ensures UpTo(p, wants, |p.docids|)
         == Decoded(p.docids, if wants.freqs then p.freqs else [], if wants.positions then Lists(p.positions, p.freqs) else [])
  {
    assert p.docids[..|p.docids|] == p.docids && p.freqs[..|p.docids|] == p.freqs;
    if wants.positions {
      assert Lists(p.positions, p.freqs)[..|p.docids|] == Lists(p.positions, p.freqs);
    }
  }

  function Plus(a: Decoded, b: Decoded): Decoded {
    Decoded(a.docids + b.docids, a.freqs + b.freqs, a.positions + b.positions)
  }

  lemma {:induction false} UpToGrows(p: TermPostings, wants: Wants, w: nat)
    requires ValidTerm(p, wants.positions) && w < Windows(p)
    ensures From(p, w) <= To(p, w) <= |p.docids| && Plus(UpTo(p, wants, From(p, w)), WindowOf(p, wants, w)) == UpTo(p, wants, To(p, w))
  {
    Cuts(p, w);
    var lo, hi := From(p, w), To(p, w);
    assert p.docids[..lo] + p.docids[lo..hi] == p.docids[..hi];
    assert p.freqs[..lo] + p.freqs[lo..hi] == p.freqs[..hi];
    if wants.positions {
      var ls := Lists(p.positions, p.freqs);
      assert ls[..lo] + ls[lo..hi] == ls[..hi];
    }
  }

  ghost predicate AllWithin(p: TermPostings, wants: Wants, c: WindowBytes, k: nat) {
    && k <= Windows(p) && ValidTerm(p, wants.positions) && k <= |c.payloads|
    && forall w: nat {:trigger Within(p, wants, c.payloads[w], w)} :: w < k ==> Within(p, wants, c.payloads[w], w)
  }

  /** Position payloads whose length a 32-bit field holds. */
  ghost predicate PayloadsFit(c: WindowBytes) {
    forall w :: 0 <= w < |c.payloads| ==> |c.payloads[w]| < TWO32
  }

  ghost predicate Ready(p: TermPostings, f: Features, ms: seq<WindowMeta>, c: WindowBytes, wants: Wants) {
    Laid(p, f, ms, c) && CanGive(f, wants) && PayloadsFit(c)
  }

  /** Where reading stands before window `w`. */
  ghost predicate ReadTo(p: TermPostings, wants: Wants, c: WindowBytes, out: Decoded, w: nat) {
    && AllWithin(p, wants, c, w)
    && exists k: nat {:trigger UpTo(p, wants, k)} :: k <= |p.docids| && Reached(p, w, k) && out == UpTo(p, wants, k)
  }

  method ReadWindow(m: WindowMeta, b: Blocks, wants: Wants, inflate: Inflate, ghost p: TermPostings, ghost f: Features, ghost ms: seq<WindowMeta>, ghost c: WindowBytes, ghost w: nat, ghost good: bool)
    returns (r: Result<Decoded>)
    requires good ==> Ready(p, f, ms, c, wants) && Fetched(b, c, wants) && w < |ms| && m == ms[w]
    ensures good ==> w < Windows(p) && ValidTerm(p, wants.positions)
    ensures good ==> if Within(p, wants, c.payloads[w], w) then r == Ok(WindowOf(p, wants, w)) else r.Error?
  {
    if good {
      assert FirstRow(p, f, ms[w], c.pxs, c.payloads, w) && SecondRow(p, f, ms[w], c.dds, c.fqs, w);
    }
    var s := CarveWindow(m, b, wants, p, f, c, w, good);
    if s.Error? {
      return Error(s.status);
    }
    r := DecodeWindow(m, s.value, wants, inflate, p, f, c, w, good);
  }

  lemma {:induction false} ReadNext(p: TermPostings, wants: Wants, c: WindowBytes, out: Decoded, w: nat)
    requires ReadTo(p, wants, c, out, w) && w < Windows(p) && w < |c.payloads| && Within(p, wants, c.payloads[w], w)
    ensures ReadTo(p, wants, c, Plus(out, WindowOf(p, wants, w)), w + 1)
  {
    UpToGrows(p, wants, w);
    ReachedNext(p, w);
    assert UpTo(p, wants, To(p, w)) == Plus(out, WindowOf(p, wants, w));
  }

  lemma {:induction false} ReadAll(p: TermPostings, wants: Wants, c: WindowBytes, out: Decoded)
    requires ReadTo(p, wants, c, out, Windows(p))
    ensures out == UpTo(p, wants, |p.docids|)
  {
  }

  /** Every window in turn. */
  method ReadWindows(windows: seq<WindowMeta>, b: Blocks, wants: Wants, inflate: Inflate, ghost p: TermPostings, ghost f: Features, ghost c: WindowBytes, ghost good: bool)
    returns (r: Result<Decoded>)
    requires good ==> Ready(p, f, windows, c, wants) && Fetched(b, c, wants)
    ensures good ==> ValidTerm(p, wants.positions)
    ensures good ==> if AllWithin(p, wants, c, Windows(p)) then r == Ok(UpTo(p, wants, |p.docids|)) else r.Error?
  {
    var out := Decoded([], [], []);
    if good {
      ReachedStart(p);
      assert out == UpTo(p, wants, 0);
    }
    for w := 0 to |windows|
      invariant good ==> ReadTo(p, wants, c, out, w)
    {
      var one := ReadWindow(windows[w], b, wants, inflate, p, f, windows, c, w, good);
      if one.Error? {
        return Error(one.status);
      }
      if good {
        ReadNext(p, wants, c, out, w);
      }
      out := Plus(out, one.value);
    }
    if good {
      ReadAll(p, wants, c, out);
    }
    r := Ok(out);
  }

  // ----- from the file

  function Fetch(file: Bytes, off: nat, len: nat): Result<Bytes> {
    if off + len > |file| then Error(Corruption("read past end of file")) else Ok(file[off..off + len])
  }

  lemma {:induction false} FetchStored(file: Bytes, regionOff: nat, region: Bytes, off: nat, part: Bytes)
    requires Stored(file, regionOff, region) && Stored(region, off, part)
    ensures Fetch(file, regionOff + off, |part|) == Ok(part)
  {
    var x, y := file[regionOff + off..regionOff + off + |part|], region[off..off + |part|];
    assert forall k :: 0 <= k < |part| ==> x[k] == file[regionOff..regionOff + |region|][off + k] == y[k];
    assert x == y;
  }

  /** The posting lies in the file at the region's offset. */
  ghost predicate InFile(file: Bytes, regionOff: nat, region: Bytes, base: nat, loc: Locator, hasPrx: bool, a: WindowedLayout.Parts) {
    Stored(file, regionOff, region) && Leads(region, base, loc, hasPrx, a) && |file| < TWO64
  }

  /** Only the blocks asked for; they must fit what follows the directory. */
  method FetchBlocks(file: Bytes, frqStart: nat, frqLen: nat, prxStart: nat, prxLen: nat, pre: Prelude, wants: Wants, ghost a: WindowedLayout.Parts, ghost good: bool)
    returns (r: Result<Blocks>)
    requires good ==> pre.ddLen == |a.dd| && pre.freqLen == |a.fq| && frqLen == |a.dd| + |a.fq|
    requires good ==> Fetch(file, frqStart, |a.dd|) == Ok(a.dd) && Fetch(file, frqStart + |a.dd|, |a.fq|) == Ok(a.fq)
    requires good && wants.positions ==> prxLen == |a.px| && Fetch(file, prxStart, |a.px|) == Ok(a.px)
    ensures good ==> r.Ok? && r.value.dd == a.dd && (wants.freqs ==> r.value.freq == a.fq) && (wants.positions ==> r.value.prx == a.px)
  {
    if pre.ddLen > frqLen || pre.freqLen > frqLen - pre.ddLen {
      return Error(Corruption("windowed_posting: blocks exceed frq region"));
    }
    var dd := Fetch(file, frqStart, pre.ddLen);
    if dd.Error? {
      return Error(dd.status);
    }
    var freq: Result<Bytes>, prx: Result<Bytes> := Ok([]), Ok([]);
    if wants.freqs {
      freq := Fetch(file, frqStart + pre.ddLen, pre.freqLen);
      if freq.Error? {
        return Error(freq.status);
      }
    }
    if wants.positions {
      prx := Fetch(file, prxStart, prxLen);
      if prx.Error? {
        return Error(prx.status);
      }
    }
    r := Ok(Blocks(dd.value, freq.value, prx.value));
  }

  lemma {:induction false} NoFreqBytes(p: TermPostings, f: Features, ms: seq<WindowMeta>, c: WindowBytes, k: nat)
    requires SecondRows(p, f, ms, c.dds, c.fqs, |ms|) && k <= |ms| && !f.hasFreq
    ensures Join(c.fqs, 0, k) == []
  {
    if k > 0 {
      NoFreqBytes(p, f, ms, c, k - 1);
      assert SecondRow(p, f, ms[k - 1], c.dds, c.fqs, k - 1);
      JoinSnoc(c.fqs, k - 1);
    }
  }

  lemma {:induction false} PreludeNonEmpty(t: Table)
    requires Buildable(t)
    ensures PreludeBytes(t) != []
  {
  }

  /** Each part is where the locator says. */
  lemma {:induction false} PartsFetched(file: Bytes, regionOff: nat, region: Bytes, base: nat, loc: Locator, hasPrx: bool, a: WindowedLayout.Parts)
    requires InFile(file, regionOff, region, base, loc, hasPrx, a)
    ensures Small(a)
    ensures var at := regionOff + base + loc.frq.off;
            && Fetch(file, at, |a.prelude|) == Ok(a.prelude)
            && Fetch(file, at + |a.prelude|, |a.dd|) == Ok(a.dd) && Fetch(file, at + |a.prelude| + |a.dd|, |a.fq|) == Ok(a.fq)
    ensures hasPrx ==> Fetch(file, regionOff + base + loc.prx.value.off, |a.px|) == Ok(a.px)
  {
    var off := base + loc.frq.off;
    FetchStored(file, regionOff, region, off, a.prelude);
    FetchStored(file, regionOff, region, off + |a.prelude|, a.dd);
    FetchStored(file, regionOff, region, off + |a.prelude| + |a.dd|, a.fq);
    if hasPrx {
      FetchStored(file, regionOff, region, base + loc.prx.value.off, a.px);
    }
  }

  /** A posting written into a region that became part of a file. */
  ghost predicate OnDisk(file: Bytes, regionOff: nat, region: Bytes, base: nat, loc: Locator, p: TermPostings, f: Features, ms: seq<WindowMeta>, c: WindowBytes) {
    Written(region, base, loc, p, f, ms, c) && Stored(file, regionOff, region) && |file| < TWO64 && PayloadsFit(c)
  }

  lemma {:induction false} OnDiskOpens(file: Bytes, regionOff: nat, region: Bytes, base: nat, loc: Locator, p: TermPostings, f: Features, ms: seq<WindowMeta>, c: WindowBytes)
    requires OnDisk(file, regionOff, region, base, loc, p, f, ms, c)
    ensures var t, a := TableOf(f, ms), WindowedLayout.PartsOf(f, ms, c);
            && Openable(t) && a.prelude != [] && InFile(file, regionOff, region, base, loc, f.hasPrx, a)
            && Opened(t).ddLen == |a.dd| && Opened(t).freqLen == |a.fq|
  {
    var a := WindowedLayout.PartsOf(f, ms, c);
    PartsFetched(file, regionOff, region, base, loc, f.hasPrx, a);
    LaidOpenable(p, f, ms, c);
    PreludeNonEmpty(TableOf(f, ms));
    if !f.hasFreq {
      NoFreqBytes(p, f, ms, c, |ms|);
    }
  }

  /** The directory's bytes, at the head of the entry's span. */
  method FetchPrelude(file: Bytes, regionOff: nat, base: nat, loc: Locator, ghost region: Bytes, ghost hasPrx: bool, ghost a: WindowedLayout.Parts, ghost good: bool)
    returns (r: Result<Bytes>)
    requires good ==> a.prelude != [] && InFile(file, regionOff, region, base, loc, hasPrx, a)
    ensures r.Ok? ==> loc.PodRef? && loc.layout.Windowed? && loc.layout.preludeLen <= loc.frq.len
    ensures good ==> r == Ok(a.prelude)
  {
    if good {
      PartsFetched(file, regionOff, region, base, loc, hasPrx, a);
    }
    if !loc.PodRef? || !loc.layout.Windowed? || loc.layout.preludeLen == 0 {
      return Error(Corruption("windowed_posting: windowed entry has no prelude"));
    }
    if loc.layout.preludeLen > loc.frq.len {
      return Error(Corruption("windowed_posting: prelude_len exceeds frq_len"));
    }
    r := Fetch(file, regionOff + base + loc.frq.off, loc.layout.preludeLen);
  }

  /** Follows the locator to the blocks behind the directory. */
  method FetchRest(file: Bytes, regionOff: nat, base: nat, loc: Locator, pre: Prelude, wants: Wants,
                   ghost region: Bytes, ghost hasPrx: bool, ghost a: WindowedLayout.Parts, ghost good: bool)
    returns (r: Result<Blocks>)
    requires loc.PodRef? && loc.layout.Windowed? && loc.layout.preludeLen <= loc.frq.len
    requires good ==> InFile(file, regionOff, region, base, loc, hasPrx, a) && (wants.positions ==> hasPrx) && pre.ddLen == |a.dd| && pre.freqLen == |a.fq|
    ensures good ==> r.Ok? && r.value.dd == a.dd && (wants.freqs ==> r.value.freq == a.fq) && (wants.positions ==> r.value.prx == a.px)
  {
    if good {
      PartsFetched(file, regionOff, region, base, loc, hasPrx, a);
    }
    var span := if loc.prx.Some? then loc.prx.value else DictEntries.Span(0, 0);
    var plen := loc.layout.preludeLen;
    r := FetchBlocks(file, regionOff + base + loc.frq.off + plen, loc.frq.len - plen, regionOff + base + span.off, span.len, pre, wants, a, good);
  }

  /** Restores what was written: docids always, frequencies and position lists as asked.
      It fails exactly when positions are asked of an index without them, or a window's
      positions exceed the reader's caps. */
  method ReadWindowedPosting(file: Bytes, regionOff: nat, base: nat, loc: Locator, wants: Wants, inflate: Inflate,
                             ghost region: Bytes, ghost p: TermPostings, ghost f: Features, ghost ms: seq<WindowMeta>, ghost c: WindowBytes, ghost good: bool)
    returns (r: Result<Decoded>)
    requires good ==> OnDisk(file, regionOff, region, base, loc, p, f, ms, c)
    ensures good && wants.positions && !f.hasPrx ==> r.Error?
    ensures good && CanGive(f, wants) ==> ValidTerm(p, wants.positions)
    ensures good && CanGive(f, wants) ==> if AllWithin(p, wants, c, Windows(p)) then r == Ok(UpTo(p, wants, |p.docids|)) else r.Error?
  {
    ghost var a := WindowedLayout.Parts([], [], [], []);
    if good {
      OnDiskOpens(file, regionOff, region, base, loc, p, f, ms, c);
      a := WindowedLayout.PartsOf(f, ms, c);
    }
    var head := FetchPrelude(file, regionOff, base, loc, region, f.hasPrx, a, good);
    if head.Error? {
      return Error(head.status);
    }
    var pre := Open(head.value, TableOf(f, ms), good);
    if pre.Error? {
      return Error(pre.status);
    }
    if wants.positions && !pre.value.hasPrx {
      return Error(Corruption("windowed_posting: positions requested but prelude has none"));
    }
    var blocks := FetchRest(file, regionOff, base, loc, pre.value, wants, region, f.hasPrx, a, good);
    if blocks.Error? {
      return Error(blocks.status);
    }
    r := ReadWindows(pre.value.windows, blocks.value, wants, inflate, p, f, c, good && CanGive(f, wants));
  }
}
