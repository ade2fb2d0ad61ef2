/** Terms in few documents: one window, kept inline in the dictionary entry when it is tiny;
    and the choice between this and the windowed form. */
module SlimEntries {
  import opened Common
  import opened PforRuns
  import opened FrqRegions
  import opened PrxWindows
  import opened PrxFrames
  import opened DocidSets
  import opened WindowRows
  import opened WindowedLayout
  import opened WindowedWriter
  import Crc32c
  import TermChain
  import D = DictEntries

  const INLINE_BYTES: nat := 256

  /** The byte form of a single-window posting. */
  datatype SlimBytes = SlimBytes(dd: Bytes, fq: Bytes, px: Bytes, payload: Bytes)

  ghost predicate SlimCoded(p: TermPostings, f: Features, s: SlimBytes) {
    && Typed(p) && ValidTerm(p, f.hasPrx) && IsDd(s.dd, p.docids, 0)
    && (if f.hasFreq then Coded(s.fq, p.freqs) else s.fq == [])
    && (if f.hasPrx then IsWindow(s.px, Lists(p.positions, p.freqs), PforCodec, s.payload) else s.px == [])
  }

  // ----- where it is kept

  /** Inline regions carry no checksum: their block's covers them. */
  function RegionFor(bytes: Bytes, checked: bool): D.Region {
    D.Region(false, |bytes|, if checked then Crc32c.Digest(bytes) else 0)
  }

  function RegionsFor(dd: Bytes, fq: Bytes, hasFreq: bool, checked: bool): D.Regions {
    D.Regions(RegionFor(dd, checked), if hasFreq then Some(RegionFor(fq, checked)) else None)
  }

  ghost predicate SlimLeads(region: Bytes, base: nat, loc: Locator, f: Features, s: SlimBytes) {
    match loc
    case Inline(enc, frqBytes, ddLen, regions, prxBytes) =>
      && !enc && frqBytes == s.dd + s.fq && ddLen == |s.dd| && regions == RegionsFor(s.dd, s.fq, f.hasFreq, false)
      && prxBytes == (if f.hasPrx then Some(s.px) else None)
    case PodRef(frq, layout, prx) =>
      && layout == D.Slim(|s.dd|, RegionsFor(s.dd, s.fq, f.hasFreq, true))
      && frq.len == |s.dd + s.fq| && Stored(region, base + frq.off, s.dd + s.fq) && prx.Some? == f.hasPrx
      && (f.hasPrx ==> prx.value.len == |s.px| && Stored(region, base + prx.value.off, s.px))
  }

  ghost predicate SlimWritten(region: Bytes, base: nat, loc: Locator, p: TermPostings, f: Features, s: SlimBytes) {
    SlimCoded(p, f, s) && SlimLeads(region, base, loc, f, s)
  }

  lemma {:induction false} SlimGrows(region: Bytes, base: nat, loc: Locator, f: Features, s: SlimBytes, more: Bytes)
    requires SlimLeads(region, base, loc, f, s)
    ensures SlimLeads(region + more, base, loc, f, s)
  {
    if loc.PodRef? {
      StoredGrows(region, base + loc.frq.off, s.dd + s.fq, more);
      if f.hasPrx {
        StoredGrows(region, base + loc.prx.value.off, s.px, more);
      }
    }
  }

  // ----- writing

  lemma {:induction false} AscendingClimbs(docids: seq<nat>)
    requires Ascending(docids)
    ensures Climbs(docids, 0)
  {
    forall i: nat | i < |docids| ensures Rises(docids, 0, i) {
      assert i > 0 ==> docids[i - 1] < docids[i];
    }
  }

  /** The three parts, each from the whole posting. */
  method EncodeSlim(p: TermPostings, f: Features) returns (r: Result<bool>, dd: Bytes, fq: Bytes, px: Bytes, ghost s: SlimBytes)
    requires Typed(p) && ValidTerm(p, f.hasPrx)
    ensures r.Ok? <==> GoodTo(p, f, |p.docids|)
    ensures r.Ok? ==> SlimCoded(p, f, s) && s.dd == dd && s.fq == fq && s.px == px
  {
    AscendingClimbs(p.docids);
    var g := BuildDdRegion(p.docids, 0);
    dd, fq, px, s := g.value.bytes, [], [], SlimBytes(g.value.bytes, [], [], []);
    if f.hasFreq {
      var h := BuildFreqRegion(p.freqs);
      fq := h.bytes;
    }
    ghost var payload: Bytes := [];
    if f.hasPrx {
      var w;
      w, payload := BuildPrxWindow(p.positions, p.freqs, false);
      if w.Error? {
        r := Error(w.status);
        return;
      }
      px := w.value;
    }
    s := SlimBytes(dd, fq, px, payload);
    r := Ok(true);
  }

  /** Inline when the docid and frequency bytes are few, else behind what the posting region
      holds, positions first. Refused exactly when positions step back. */
  method BuildSlimEntry(p: TermPostings, f: Features, region: Bytes, base: nat) returns (r: Result<Locator>, region': Bytes, ghost s: SlimBytes)
    requires Typed(p) && ValidTerm(p, f.hasPrx) && base <= |region|
    ensures r.Ok? <==> GoodTo(p, f, |p.docids|)
    ensures region <= region' && (r.Ok? ==> SlimWritten(region', base, r.value, p, f, s))
    ensures r.Ok? ==> (r.value.Inline? <==> |s.dd + s.fq| <= 256)
  {
    region' := region;
    var ok, dd, fq, px;
    ok, dd, fq, px, s := EncodeSlim(p, f);
    if ok.Error? {
      r := Error(ok.status);
      return;
    }
    var frq := dd + fq;
    if |frq| <= INLINE_BYTES {
      r := Ok(D.Inline(false, frq, |dd|, RegionsFor(dd, fq, f.hasFreq, false), if f.hasPrx then Some(px) else None));
      return;
    }
    var front := region + px;
    region' := front + frq;
    StoredIn(front, frq, []);
    assert front + frq + [] == region';
    StoredIn(region, px, frq);
    r := Ok(D.PodRef(
              D.Span(|front| - base, |frq|),
              D.Slim(|dd|, RegionsFor(dd, fq, f.hasFreq, true)),
              if f.hasPrx then Some(D.Span(|region| - base, |px|)) else None));
  }

  // ----- the dispatch

  /** How an entry's posting was written. */
  datatype EntryBytes = AsSlim(s: SlimBytes) | AsWindows(ms: seq<WindowMeta>, c: WindowBytes)

  ghost predicate PostingWritten(region: Bytes, base: nat, loc: Locator, p: TermPostings, f: Features, w: EntryBytes) {
    match w
    case AsSlim(s) => |p.docids| < TermChain.SLIM_DF && SlimWritten(region, base, loc, p, f, s)
    case AsWindows(ms, c) => |p.docids| >= TermChain.SLIM_DF && Written(region, base, loc, p, f, ms, c)
  }

  /** Later terms do not disturb it. */
  lemma {:induction false} PostingGrows(region: Bytes, base: nat, loc: Locator, p: TermPostings, f: Features, w: EntryBytes, more: Bytes)
    requires PostingWritten(region, base, loc, p, f, w)
    ensures PostingWritten(region + more, base, loc, p, f, w)
  {
    match w
    case AsSlim(s) => SlimGrows(region, base, loc, f, s, more);
    case AsWindows(ms, c) => WrittenGrows(region, base, loc, p, f, ms, c, more);
  }

  /** The entry of a term: its counts, and the locator its posting was written under. */
  ghost predicate EntryWritten(region: Bytes, base: nat, e: D.DictEntry, term: Bytes, p: TermPostings, f: Features, w: EntryBytes) {
    && e.term == term && e.df == |p.docids| && e.hasSb == w.AsWindows?
    && (if f.hasFreq then e.stats.Some? && e.stats.value.ttfDelta == Sum(p.freqs, |p.freqs|) && IsMax(e.stats.value.maxFreq, p.freqs) else e.stats.None?)
    && PostingWritten(region, base, e.locator, p, f, w)
  }

  /** A posting may come without its positions in place, to be pulled window by window: then
      only the windowed form can take them, and the slim form refuses. */
  method BuildEntry(term: Bytes, p: TermPostings, streamed: bool, f: Features, region: Bytes, base: nat)
    returns (r: Result<D.DictEntry>, region': Bytes, ghost w: EntryBytes)
    requires Typed(p) && base <= |region|
    ensures r.Ok? <==> ValidTerm(p, f.hasPrx) && GoodTo(p, f, |p.docids|)
                       && (streamed && f.hasPrx && p.positions != [] ==> |p.docids| >= TermChain.SLIM_DF)
    ensures region <= region' && (r.Ok? ==> EntryWritten(region', base, r.value, term, p, f, w))
    ensures r.Ok? ==> (w.AsWindows? <==> |p.docids| >= 512)
    ensures r.Ok? && w.AsSlim? ==> (r.value.locator.Inline? <==> |w.s.dd + w.s.fq| <= 256)
  {
    region', w := region, AsSlim(SlimBytes([], [], [], []));
    var ok := ValidateTerm(p, f.hasPrx);
    if !ok {
      r := Error(InvalidArgument("logical_index: malformed postings"));
      return;
    }
    var ttf := TotalOf(p.freqs);
    var maxFreq := MaxOf(p.freqs);
    var stats := if f.hasFreq then Some(D.TermStats(ttf, maxFreq)) else None;
    var loc;
    if |p.docids| >= TermChain.SLIM_DF {
      ghost var ms, c;
      loc, region', ms, c := BuildWindowedEntry(p, f, region, base);
      w := AsWindows(ms, c);
    } else {
      if streamed && f.hasPrx && p.positions != [] {
        r := Error(InvalidArgument("prx: sum(freqs) does not match positions_flat size"));
        return;
      }
      ghost var s;
      loc, region', s := BuildSlimEntry(p, f, region, base);
      w := AsSlim(s);
    }
    if loc.Error? {
      r := Error(loc.status);
      return;
    }
    r := Ok(D.DictEntry(term, |p.docids| >= TermChain.SLIM_DF, |p.docids|, stats, loc.value));
  }
}
