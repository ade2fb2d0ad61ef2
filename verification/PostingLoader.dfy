/** Reading the posting behind a dictionary entry, whichever way it was written, into the
    form the phrase operators work on. */
module PostingLoader {
  import opened Common
  import opened Pfor
  import opened PforRuns
  import opened FrqRegions
  import opened PrxWindows
  import opened PrxFrames
  import opened WindowRows
  import opened FrqPrelude
  import opened FrqPreludeReader
  import opened WindowedLayout
  import opened WindowedReader
  import opened WindowedRoundTrip
  import opened SlimEntries
  import opened DiskPostings
  import P = PositionalPostings
  import D = DictEntries

  // ----- single-window postings

  datatype SlimSlices = SlimSlices(dd: Bytes, fq: Bytes, px: Bytes, ddMeta: RegionMeta, fqMeta: RegionMeta)

  function MetaFrom(r: D.Region, diskLen: nat, checked: bool): RegionMeta {
    RegionMeta(r.zstd, r.uncompLen, diskLen, r.crc, checked)
  }

  function FreqRegion(r: D.Regions): D.Region {
    if r.freq.Some? then r.freq.value else D.Region(false, 0, 0)
  }

  /** What was asked for is there, each slice with a true description. */
  ghost predicate SlicesGood(t: SlimSlices, s: SlimBytes, wants: Wants) {
    && t.dd == s.dd && Describes(t.ddMeta, s.dd)
    && (wants.freqs ==> t.fq == s.fq && Describes(t.fqMeta, s.fq))
    && (wants.positions ==> t.px == s.px)
  }

  lemma {:induction false} DocsFirst(dd: Bytes, fq: Bytes)
    ensures (dd + fq)[..|dd|] == dd && (dd + fq)[|dd|..] == fq
  {
  }

  /** The entry's own bytes. */
  method InlineSlices(loc: Locator, wants: Wants, ghost f: Features, ghost s: SlimBytes, ghost good: bool) returns (r: Result<SlimSlices>)
    requires loc.Inline?
    requires good ==> SlimLeads([], 0, loc, f, s) && CanGive(f, wants)
    ensures good ==> r.Ok? && SlicesGood(r.value, s, wants)
  {
    if good {
      DocsFirst(s.dd, s.fq);
    }
    if loc.ddLen > |loc.frqBytes| {
      return Error(Corruption("phrase_query: inline dd region exceeds frq bytes"));
    }
    var dd, fq := loc.frqBytes[..loc.ddLen], loc.frqBytes[loc.ddLen..];
    r := Ok(SlimSlices(dd, fq, if loc.prxBytes.Some? then loc.prxBytes.value else [],
                       MetaFrom(loc.regions.dd, loc.ddLen, false), MetaFrom(FreqRegion(loc.regions), |fq|, false)));
  }

  ghost predicate SlimInFile(file: Bytes, regionOff: nat, region: Bytes, base: nat, loc: Locator, f: Features, s: SlimBytes) {
    SlimLeads(region, base, loc, f, s) && Stored(file, regionOff, region)
  }

  /** The docid bytes alone unless frequencies are wanted. */
  method FetchSlim(file: Bytes, regionOff: nat, base: nat, loc: Locator, wants: Wants, ghost region: Bytes, ghost f: Features, ghost s: SlimBytes, ghost good: bool)
    returns (r: Result<SlimSlices>)
    requires loc.PodRef? && loc.layout.Slim?
    requires good ==> SlimInFile(file, regionOff, region, base, loc, f, s) && CanGive(f, wants) && s.dd != []
    ensures good ==> r.Ok? && SlicesGood(r.value, s, wants)
  {
    if good {
      FetchStored(file, regionOff, region, base + loc.frq.off, s.dd + s.fq);
      DocsFirst(s.dd, s.fq);
      SubFetch(file, regionOff + base + loc.frq.off, s.dd + s.fq, 0, s.dd);
      if f.hasPrx {
        FetchStored(file, regionOff, region, base + loc.prx.value.off, s.px);
      }
    }
    var docsLen := loc.layout.docsLen;
    if docsLen > loc.frq.len {
      return Error(Corruption("phrase_query: slim frq_docs_len exceeds frq window"));
    }
    var want := if wants.freqs || docsLen == 0 then loc.frq.len else docsLen;
    var frq := Fetch(file, regionOff + base + loc.frq.off, want);
    if frq.Error? {
      return Error(frq.status);
    }
    var px: Result<Bytes> := Ok([]);
    if wants.positions {
      var span := if loc.prx.Some? then loc.prx.value else D.Span(0, 0);
      px := Fetch(file, regionOff + base + span.off, span.len);
      if px.Error? {
        return Error(px.status);
      }
    }
    var regions := loc.layout.slim;
    r := Ok(SlimSlices(frq.value[..docsLen], frq.value[docsLen..], px.value,
                       MetaFrom(regions.dd, docsLen, true), MetaFrom(FreqRegion(regions), loc.frq.len - docsLen, true)));
  }

  /** The reader's caps on a single window. */
  ghost predicate SlimAccepted(p: TermPostings, s: SlimBytes, wants: Wants) {
    wants.positions ==> |s.payload| <= MAX_PLAIN && |p.positions| <= MAX_POSITIONS
  }

  lemma {:induction false} SlimReadable(p: TermPostings, f: Features, s: SlimBytes)
    requires SlimCoded(p, f, s) && f.hasPrx && |p.docids| <= 1024
    ensures var ls := Lists(p.positions, p.freqs);
            && |ls| <= MAX_DOCS && Values(Counts(ls)) && IsWindow(s.px, ls, PforCodec, s.payload)
            && (Readable(ls, PforCodec, s.payload) <==> |s.payload| <= MAX_PLAIN && |p.positions| <= MAX_POSITIONS)
  {
    CountsOfLists(p.positions, p.freqs);
  }

  method DecodeSlim(t: SlimSlices, wants: Wants, inflate: Inflate, ghost p: TermPostings, ghost f: Features, ghost s: SlimBytes, ghost good: bool)
    returns (r: Result<Decoded>)
    requires good ==> SlimCoded(p, f, s) && SlicesGood(t, s, wants) && CanGive(f, wants) && |p.docids| <= 1024 && |s.payload| < TWO32
    ensures good ==> ValidTerm(p, wants.positions)
    ensures good ==> if SlimAccepted(p, s, wants) then r == Ok(UpTo(p, wants, |p.docids|)) else r.Error?
  {
    ghost var docs: seq<nat>, fs: seq<nat>, ls: seq<seq<nat>> := [], [], [];
    if good {
      docs, fs := p.docids, p.freqs;
      DdLength(s.dd, docs, 0);
      if wants.freqs {
        RunsLength(s.fq, fs);
      }
      if wants.positions {
        ls := Lists(p.positions, p.freqs);
        SlimReadable(p, f, s);
      }
      WholeOf(p, wants);
    }
    var ids := DecodeDdRegion(t.dd, t.ddMeta, 0, inflate, docs, good);
    if ids.Error? {
      return Error(ids.status);
    }
    var freqs: seq<nat>, lists: seq<seq<nat>> := [], [];
    if wants.freqs {
      var fr := DecodeFreqRegion(t.fq, t.fqMeta, |ids.value|, inflate, fs, good);
      if fr.Error? {
        return Error(fr.status);
      }
      freqs := fr.value;
    }
    if wants.positions {
      var lr := ReadPrxWindow(t.px, inflate, ls, PforCodec, s.payload, good);
      if lr.Error? {
        return Error(lr.status);
      }
      if |lr.value| != |ids.value| {
        return Error(Corruption("phrase_query: prx/frq doc-count mismatch"));
      }
      lists := lr.value;
    }
    r := Ok(Decoded(ids.value, freqs, lists));
  }

  /** Inline or not, restores what was written, within the reader's caps. */
  method LoadSlim(file: Bytes, regionOff: nat, base: nat, loc: Locator, wants: Wants, inflate: Inflate,
                  ghost region: Bytes, ghost p: TermPostings, ghost f: Features, ghost s: SlimBytes, ghost good: bool)
    returns (r: Result<Decoded>)
    requires loc.Inline? || loc.layout.Slim?
    requires good ==> SlimWritten(region, base, loc, p, f, s) && Stored(file, regionOff, region) && CanGive(f, wants)
    requires good ==> |p.docids| <= 1024 && |s.payload| < TWO32
    ensures good ==> ValidTerm(p, wants.positions)
    ensures good ==> if SlimAccepted(p, s, wants) then r == Ok(UpTo(p, wants, |p.docids|)) else r.Error?
  {
    if good {
      DdNonEmpty(s.dd, p.docids);
    }
    var t;
    if loc.Inline? {
      t := InlineSlices(loc, wants, f, s, good);
    } else {
      t := FetchSlim(file, regionOff, base, loc, wants, region, f, s, good);
    }
    if t.Error? {
      return Error(t.status);
    }
    r := DecodeSlim(t.value, wants, inflate, p, f, s, good);
  }

  lemma {:induction false} DdNonEmpty(dd: Bytes, docs: seq<nat>)
    requires IsDd(dd, docs, 0)
    ensures dd != []
  {
    var runs :| DdParts(dd, docs, 0, runs);
  }

  // ----- windowed postings

  /** One window alone, by the ranges its row gives. */
  method LoadWindow(file: Bytes, regionOff: nat, base: nat, loc: Locator, pre: Prelude, w: nat, inflate: Inflate,
                    ghost p: TermPostings, ghost f: Features, ghost ms: seq<WindowMeta>, ghost c: WindowBytes, ghost good: bool)
    returns (r: Result<P.Chunk>)
    requires loc.PodRef? && loc.layout.Windowed? && w < |pre.windows|
    requires good ==> Laid(p, f, ms, c) && f.hasPrx && Resolved(file, regionOff, base, loc, pre, f, ms, c) && PayloadsFit(c)
    ensures good ==> w < Windows(p) && w < |c.payloads|
    ensures good ==> if Accepted(p, c.payloads[w], w) then r == Ok(ChunkOf(p, w)) else r.Error?
  {
    if good {
      assert FirstRow(p, f, ms[w], c.pxs, c.payloads, w) && SecondRow(p, f, ms[w], c.dds, c.fqs, w);
    }
    var g := WindowRange(regionOff, base, loc, pre, w, Wants(true, false), file, p, f, ms, c, good);
    if g.Error? {
      return Error(g.status);
    }
    var dd := Fetch(file, g.value.dd.off, g.value.dd.len);
    if dd.Error? {
      return Error(dd.status);
    }
    var px := Fetch(file, g.value.prx.off, g.value.prx.len);
    if px.Error? {
      return Error(px.status);
    }
    var docs := DecodeDocs(pre.windows[w], dd.value, inflate, p, c.dds, w, good);
    if docs.Error? {
      return Error(docs.status);
    }
    var lists := DecodePositions(px.value, |docs.value|, inflate, p, if good then c.payloads[w] else [], w, good);
    if lists.Error? {
      return Error(lists.status);
    }
    r := Ok(P.Chunk(docs.value, lists.value));
  }

  ghost predicate AllAccepted(p: TermPostings, c: WindowBytes, k: nat) {
    && ValidTerm(p, true) && k <= Windows(p) && k <= |c.payloads|
    && forall w: nat {:trigger Accepted(p, c.payloads[w], w)} :: w < k ==> Accepted(p, c.payloads[w], w)
  }

  method LoadWindows(file: Bytes, regionOff: nat, base: nat, loc: Locator, pre: Prelude, inflate: Inflate,
                     ghost p: TermPostings, ghost f: Features, ghost ms: seq<WindowMeta>, ghost c: WindowBytes, ghost good: bool)
    returns (r: Result<seq<P.Chunk>>)
    requires loc.PodRef? && loc.layout.Windowed?
    requires good ==> Laid(p, f, ms, c) && f.hasPrx && Resolved(file, regionOff, base, loc, pre, f, ms, c) && PayloadsFit(c)
    ensures good ==> ValidTerm(p, true)
    ensures good ==> if AllAccepted(p, c, Windows(p)) then r == Ok(ChunksOf(p)) else r.Error?
  {
    var cs: seq<P.Chunk> := [];
    for w := 0 to |pre.windows|
      invariant |cs| == w
      invariant good ==> AllAccepted(p, c, w) && cs == ChunksOf(p)[..w]
    {
      var one := LoadWindow(file, regionOff, base, loc, pre, w, inflate, p, f, ms, c, good);
      if one.Error? {
        return Error(one.status);
      }
      cs := cs + [one.value];
    }
    if good {
      assert ChunksOf(p)[..Windows(p)] == ChunksOf(p);
    }
    r := Ok(cs);
  }

  /** The docids of one window alone; its positions are not fetched. */
  method LoadWindowDocs(file: Bytes, regionOff: nat, base: nat, loc: Locator, pre: Prelude, w: nat, inflate: Inflate,
                        ghost p: TermPostings, ghost f: Features, ghost ms: seq<WindowMeta>, ghost c: WindowBytes, ghost good: bool)
    returns (r: Result<seq<nat>>)
    requires loc.PodRef? && loc.layout.Windowed? && w < |pre.windows|
    requires good ==> Laid(p, f, ms, c) && Resolved(file, regionOff, base, loc, pre, f, ms, c)
    ensures good ==> w < Windows(p) && r == Ok(DocsOf(p, w))
  {
    if good {
      assert FirstRow(p, f, ms[w], c.pxs, c.payloads, w) && SecondRow(p, f, ms[w], c.dds, c.fqs, w);
    }
    var g := WindowRange(regionOff, base, loc, pre, w, Wants(false, false), file, p, f, ms, c, good);
    if g.Error? {
      return Error(g.status);
    }
    var dd := Fetch(file, g.value.dd.off, g.value.dd.len);
    if dd.Error? {
      return Error(dd.status);
    }
    r := DecodeDocs(pre.windows[w], dd.value, inflate, p, c.dds, w, good);
  }

  /** Opens the directory of a windowed posting; nothing else is read. */
  method OpenDirectory(file: Bytes, regionOff: nat, base: nat, loc: Locator, needPositions: bool,
                       ghost region: Bytes, ghost p: TermPostings, ghost f: Features, ghost ms: seq<WindowMeta>, ghost c: WindowBytes, ghost good: bool)
    returns (r: Result<Prelude>)
    requires good ==> OnDisk(file, regionOff, region, base, loc, p, f, ms, c) && f.hasPrx
    ensures r.Ok? ==> loc.PodRef? && loc.layout.Windowed?
    ensures good ==> Buildable(TableOf(f, ms)) && r == Ok(Opened(TableOf(f, ms)))
    ensures good ==> loc.PodRef? && loc.layout.Windowed? && Resolved(file, regionOff, base, loc, r.value, f, ms, c)
  {
    ghost var a := WindowedLayout.Parts([], [], [], []);
    if good {
      OnDiskOpens(file, regionOff, region, base, loc, p, f, ms, c);
      OpenedResolves(file, regionOff, region, base, loc, p, f, ms, c);
      a := WindowedLayout.PartsOf(f, ms, c);
    }
    var head := FetchPrelude(file, regionOff, base, loc, region, f.hasPrx, a, good);
    if head.Error? {
      return Error(head.status);
    }
    r := Open(head.value, TableOf(f, ms), good);
    if r.Ok? && needPositions && !r.value.hasPrx {
      return Error(Corruption("phrase_query: windowed prelude has no positions"));
    }
  }

  /** Opens the directory, then reads every window. */
  method LoadWindowed(file: Bytes, regionOff: nat, base: nat, loc: Locator, df: nat, inflate: Inflate,
                      ghost region: Bytes, ghost p: TermPostings, ghost f: Features, ghost ms: seq<WindowMeta>, ghost c: WindowBytes, ghost good: bool)
    returns (r: Result<P.Posting>)
    requires good ==> OnDisk(file, regionOff, region, base, loc, p, f, ms, c) && f.hasPrx && df == |p.docids|
    ensures good ==> ValidTerm(p, true) && Buildable(TableOf(f, ms))
    ensures good ==> if AllAccepted(p, c, Windows(p)) then r == Ok(QueryPosting(p, f, ms)) else r.Error?
  {
    var pre := OpenDirectory(file, regionOff, base, loc, true, region, p, f, ms, c, good);
    if pre.Error? {
      return Error(pre.status);
    }
    var cs := LoadWindows(file, regionOff, base, loc, pre.value, inflate, p, f, ms, c, good);
    if cs.Error? {
      return Error(cs.status);
    }
    r := Ok(P.Posting.Windowed(df, cs.value, DirectoryOf(pre.value)));
  }

  // ----- any posting

  /** What the phrase operators see of a posting. */
  ghost function PhrasePosting(p: TermPostings, f: Features, w: EntryBytes): P.Posting
    requires ValidTerm(p, true) && (w.AsWindows? ==> Buildable(TableOf(f, w.ms)))
  {
    match w
    case AsSlim(_) => P.Flat(|p.docids|, P.Chunk(p.docids, Lists(p.positions, p.freqs)))
    case AsWindows(ms, _) => QueryPosting(p, f, ms)
  }

  /** Within the reader's caps and 32-bit payload lengths. */
  ghost predicate Loadable(p: TermPostings, w: EntryBytes) {
    match w
    case AsSlim(s) => SlimAccepted(p, s, Wants(true, false)) && |s.payload| < TWO32
    case AsWindows(_, c) => AllAccepted(p, c, Windows(p)) && PayloadsFit(c)
  }

  method LoadPosting(file: Bytes, regionOff: nat, base: nat, loc: Locator, df: nat, inflate: Inflate,
                     ghost region: Bytes, ghost p: TermPostings, ghost f: Features, ghost w: EntryBytes, ghost good: bool)
    returns (r: Result<P.Posting>)
    requires good ==> PostingWritten(region, base, loc, p, f, w) && Stored(file, regionOff, region) && |file| < TWO64
    requires good ==> f.hasPrx && df == |p.docids| && Loadable(p, w)
    ensures good ==> ValidTerm(p, true) && (w.AsWindows? ==> Buildable(TableOf(f, w.ms)))
    ensures good ==> r == Ok(PhrasePosting(p, f, w))
  {
    if loc.PodRef? && loc.layout.Windowed? {
      ghost var ms: seq<WindowMeta>, c := [], WindowBytes([], [], [], []);
      if good {
        ms, c := w.ms, w.c;
      }
      r := LoadWindowed(file, regionOff, base, loc, df, inflate, region, p, f, ms, c, good);
    } else {
      ghost var s := SlimBytes([], [], [], []);
      if good {
        s := w.s;
        WholeOf(p, Wants(true, false));
      }
      var d := LoadSlim(file, regionOff, base, loc, Wants(true, false), inflate, region, p, f, s, good);
      if d.Error? {
        return Error(d.status);
      }
      r := Ok(P.Flat(df, P.Chunk(d.value.docids, d.value.positions)));
    }
  }
}
