/** Dictionary entries on disk: a term front-coded against its predecessor, flags, term
    statistics by tier, and a locator that points into the posting region or holds the
    posting inline. */
module DictEntries {
  import opened Common
  import opened Varint
  import opened ByteStreams
  import opened Pieces

  /** Codec of one region of a single-window posting; `crc` is 0 where none is stored. */
  datatype Region = Region(zstd: bool, uncompLen: nat, crc: nat)
  datatype Regions = Regions(dd: Region, freq: Option<Region>)
  datatype Layout = Windowed(preludeLen: nat) | Slim(docsLen: nat, slim: Regions)
  datatype Span = Span(off: nat, len: nat)
  datatype Locator =
    | PodRef(frq: Span, layout: Layout, prx: Option<Span>)
    | Inline(enc: bool, frqBytes: Bytes, ddLen: nat, regions: Regions, prxBytes: Option<Bytes>)
  datatype TermStats = TermStats(ttfDelta: nat, maxFreq: nat)
  datatype DictEntry = DictEntry(term: Bytes, hasSb: bool, df: nat, stats: Option<TermStats>, locator: Locator)

  // ----- what the format can carry; `rich` is tier >= T2

  predicate RegionFits(r: Region, stored: bool) {
    r.uncompLen < TWO64 && r.crc < TWO32 && (!stored ==> r.crc == 0)
  }

  predicate RegionsFit(r: Regions, rich: bool, stored: bool) {
    RegionFits(r.dd, stored) && r.freq.Some? == rich && (rich ==> RegionFits(r.freq.value, stored))
  }

  predicate SpanFits(s: Span) {
    s.off < TWO64 && s.len < TWO64
  }

  predicate LocatorFits(l: Locator, rich: bool) {
    match l
    case PodRef(frq, layout, prx) =>
      && SpanFits(frq) && prx.Some? == rich && (rich ==> SpanFits(prx.value))
      && (match layout
          case Windowed(preludeLen) => preludeLen < TWO64
          case Slim(docsLen, slim) => docsLen <= frq.len && RegionsFit(slim, rich, true))
    case Inline(_, frqBytes, ddLen, regions, prxBytes) =>
      && |frqBytes| < TWO64 && ddLen <= |frqBytes| && RegionsFit(regions, rich, false)
      && prxBytes.Some? == rich && (rich ==> |prxBytes.value| < TWO64)
  }

  predicate Fits(e: DictEntry, rich: bool) {
    && |e.term| < TWO32 && e.df < TWO32
    && e.stats.Some? == rich && (rich ==> e.stats.value.ttfDelta < TWO64 && e.stats.value.maxFreq < TWO64)
    && LocatorFits(e.locator, rich)
  }

  // ----- term keys

  function CommonPrefixLen(term: Bytes, prev: Bytes): (n: nat)
    ensures n <= |term| && n <= |prev| && term[..n] == prev[..n]
    ensures n < |term| && n < |prev| ==> term[n] != prev[n]
  {
    if term == [] || prev == [] || term[0] != prev[0] then 0
    else
      var n := CommonPrefixLen(term[1..], prev[1..]);
      assert term[..n + 1] == [term[0]] + term[1..][..n] && prev[..n + 1] == [prev[0]] + prev[1..][..n];
      n + 1
  }

  /** The loop of common_prefix_len. */
  method CommonPrefix(term: Bytes, prev: Bytes) returns (n: nat)
    ensures n == CommonPrefixLen(term, prev)
  {
    n := 0;
    while n < |term| && n < |prev| && term[n] == prev[n]
      invariant n <= |term| && n <= |prev|
      invariant n + CommonPrefixLen(term[n..], prev[n..]) == CommonPrefixLen(term, prev)
    {
      assert term[n..][1..] == term[n + 1..] && prev[n..][1..] == prev[n + 1..];
      n := n + 1;
    }
  }

  function PutTermKey(term: Bytes, prev: Bytes): Bytes {
    var n := CommonPrefixLen(term, prev);
    Encode(n) + Encode(|term| - n) + term[n..]
  }

  datatype Lens = Lens(prefix: nat, suffix: nat)

  function GetLens(s: Bytes): (r: Result<Read<Lens>>)
    ensures r.Ok? ==> |r.value.rest| < |s|
  {
    var prefix :- GetVarint32(s);
    var suffix :- GetVarint32(prefix.rest);
    Ok(Read(Lens(prefix.value, suffix.value), suffix.rest))
  }

  lemma {:induction false} LensRoundTrip(prefix: nat, suffix: nat, rest: Bytes)
    requires prefix < TWO32 && suffix < TWO32
    ensures GetLens(Encode(prefix) + (Encode(suffix) + rest)) == Ok(Read(Lens(prefix, suffix), rest))
  {
    VarintFirst(prefix, Encode(suffix) + rest);
    VarintFirst(suffix, rest);
  }

  function GetTermKey(s: Bytes, prev: Bytes): (r: Result<Read<Bytes>>)
    ensures r.Ok? ==> |r.value.rest| < |s|
  {
    var lens :- GetLens(s);
    if lens.value.prefix > |prev| then Error(Corruption("prefix_len exceeds prev_term length"))
    else
      var suffix :- GetBytes(lens.rest, lens.value.suffix);
      Ok(Read(prev[..lens.value.prefix] + suffix.value, suffix.rest))
  }

  lemma {:induction false} TermKeyRoundTrip(term: Bytes, prev: Bytes, rest: Bytes)
    requires |term| < TWO32
    ensures GetTermKey(PutTermKey(term, prev) + rest, prev) == Ok(Read(term, rest))
  {
    var n := CommonPrefixLen(term, prev);
    Cat3(Encode(n), Encode(|term| - n), term[n..], rest);
    KeyFromPrefix(term, prev, n, rest);
  }

  lemma {:induction false} KeyFromPrefix(term: Bytes, prev: Bytes, n: nat, rest: Bytes)
    requires |term| < TWO32 && n <= |term| && n <= |prev| && term[..n] == prev[..n]
    ensures GetTermKey(Encode(n) + (Encode(|term| - n) + (term[n..] + rest)), prev) == Ok(Read(term, rest))
  {
    LensRoundTrip(n, |term| - n, term[n..] + rest);
    BytesFirst(term[n..], rest);
    Rejoin(term, prev, n);
  }

  lemma {:induction false} Rejoin(term: Bytes, prev: Bytes, n: nat)
    requires n <= |term| && n <= |prev| && term[..n] == prev[..n]
    ensures prev[..n] + term[n..] == term
  {
  }

  // ----- flags

  function Bit(b: bool, weight: nat): nat {
    if b then weight else 0
  }

  // ----- statistics

  function PutStats(df: nat, stats: Option<TermStats>): Bytes {
    Encode(df) + if stats.None? then [] else Encode(stats.value.ttfDelta) + Encode(stats.value.maxFreq)
  }

  datatype DfStats = DfStats(df: nat, stats: Option<TermStats>)

  function GetStats(s: Bytes, rich: bool): (r: Result<Read<DfStats>>)
    ensures r.Ok? ==> |r.value.rest| < |s|
  {
    var df :- GetVarint32(s);
    if !rich then Ok(Read(DfStats(df.value, None), df.rest))
    else
      var ttf :- GetVarint64(df.rest);
      var maxFreq :- GetVarint64(ttf.rest);
      Ok(Read(DfStats(df.value, Some(TermStats(ttf.value, maxFreq.value))), maxFreq.rest))
  }

  lemma {:induction false} StatsRoundTrip(df: nat, stats: Option<TermStats>, rest: Bytes)
    requires df < TWO32 && (stats.Some? ==> stats.value.ttfDelta < TWO64 && stats.value.maxFreq < TWO64)
    ensures GetStats(PutStats(df, stats) + rest, stats.Some?) == Ok(Read(DfStats(df, stats), rest))
  {
    if stats.None? {
      assert PutStats(df, stats) + rest == Encode(df) + rest;
      VarintFirst(df, rest);
    } else {
      var t := stats.value;
      var tail := Encode(t.maxFreq) + rest;
      assert PutStats(df, stats) + rest == Encode(df) + (Encode(t.ttfDelta) + tail);
      VarintFirst(df, Encode(t.ttfDelta) + tail);
      VarintFirst(t.ttfDelta, tail);
      VarintFirst(t.maxFreq, rest);
    }
  }

  // ----- region metadata

  function PutRegion(r: Region, stored: bool): Bytes {
    Encode(r.uncompLen) + if stored then Fixed32(r.crc) else []
  }

  function GetRegion(s: Bytes, zstd: bool, stored: bool): (r: Result<Read<Region>>)
    ensures r.Ok? ==> |r.value.rest| < |s|
  {
    var uncomp :- GetVarint64(s);
    if !stored then Ok(Read(Region(zstd, uncomp.value, 0), uncomp.rest))
    else
      var crc :- GetFixed32(uncomp.rest);
      Ok(Read(Region(zstd, uncomp.value, crc.value), crc.rest))
  }

  lemma {:induction false} RegionRoundTrip(r: Region, stored: bool, rest: Bytes)
    requires RegionFits(r, stored)
    ensures GetRegion(PutRegion(r, stored) + rest, r.zstd, stored) == Ok(Read(r, rest))
  {
    if stored {
      assert PutRegion(r, stored) + rest == Encode(r.uncompLen) + (Fixed32(r.crc) + rest);
      VarintFirst(r.uncompLen, Fixed32(r.crc) + rest);
      Fixed32First(r.crc, rest);
    } else {
      assert PutRegion(r, stored) + rest == Encode(r.uncompLen) + rest;
      VarintFirst(r.uncompLen, rest);
    }
  }

  function WinMode(r: Regions): byte {
    (Bit(r.dd.zstd, 1) + Bit(r.freq.Some? && r.freq.value.zstd, 2)) as byte
  }

  function PutRegions(r: Regions, stored: bool): Bytes {
    [WinMode(r)] + PutRegion(r.dd, stored) + PutFreqRegion(r.freq, stored)
  }

  function PutFreqRegion(r: Option<Region>, stored: bool): Bytes {
    if r.None? then [] else PutRegion(r.value, stored)
  }

  function GetFreqRegion(s: Bytes, rich: bool, zstd: bool, stored: bool): (r: Result<Read<Option<Region>>>)
    ensures r.Ok? ==> |r.value.rest| <= |s|
  {
    if !rich then
      if zstd then Error(Corruption("freq mode set without freq tier")) else Ok(Read(None, s))
    else
      var freq :- GetRegion(s, zstd, stored);
      Ok(Read(Some(freq.value), freq.rest))
  }

  lemma {:induction false} FreqRegionRoundTrip(r: Option<Region>, stored: bool, rest: Bytes)
    requires r.Some? ==> RegionFits(r.value, stored)
    ensures GetFreqRegion(PutFreqRegion(r, stored) + rest, r.Some?, r.Some? && r.value.zstd, stored) == Ok(Read(r, rest))
  {
    if r.Some? {
      RegionRoundTrip(r.value, stored, rest);
    } else {
      assert [] + rest == rest;
    }
  }

  function GetRegions(s: Bytes, rich: bool, stored: bool): (r: Result<Read<Regions>>)
    ensures r.Ok? ==> |r.value.rest| < |s|
  {
    var mode :- GetU8(s);
    if mode.value > 3 then Error(Corruption("unknown win_mode bits"))
    else
      GetBoth(mode.rest, mode.value % 2 == 1, rich, mode.value >= 2, stored)
  }

  function GetBoth(s: Bytes, ddZstd: bool, rich: bool, freqZstd: bool, stored: bool): (r: Result<Read<Regions>>)
    ensures r.Ok? ==> |r.value.rest| < |s|
  {
    var dd :- GetRegion(s, ddZstd, stored);
    var freq :- GetFreqRegion(dd.rest, rich, freqZstd, stored);
    Ok(Read(Regions(dd.value, freq.value), freq.rest))
  }

  lemma {:induction false} RegionsRoundTrip(r: Regions, stored: bool, rest: Bytes)
    requires RegionsFit(r, r.freq.Some?, stored)
    ensures GetRegions(PutRegions(r, stored) + rest, r.freq.Some?, stored) == Ok(Read(r, rest))
  {
    var dd, freq := PutRegion(r.dd, stored), PutFreqRegion(r.freq, stored);
    Cat3([WinMode(r)], dd, freq, rest);
    ModeFirst(r, dd + (freq + rest), stored);
    RegionRoundTrip(r.dd, stored, freq + rest);
    FreqRegionRoundTrip(r.freq, stored, rest);
  }

  /** Behind the mode byte, the two regions with the codecs it names. */
  lemma {:induction false} ModeFirst(r: Regions, tail: Bytes, stored: bool)
    ensures GetRegions([WinMode(r)] + tail, r.freq.Some?, stored) == GetBoth(tail, r.dd.zstd, r.freq.Some?, r.freq.Some? && r.freq.value.zstd, stored)
  {
    U8First(WinMode(r), tail);
  }

  // ----- locators

  function PutSpan(s: Span): Bytes {
    Encode(s.off) + Encode(s.len)
  }

  function GetSpan(s: Bytes): (r: Result<Read<Span>>)
    ensures r.Ok? ==> |r.value.rest| < |s|
  {
    var off :- GetVarint64(s);
    var len :- GetVarint64(off.rest);
    Ok(Read(Span(off.value, len.value), len.rest))
  }

  lemma {:induction false} SpanRoundTrip(s: Span, rest: Bytes)
    requires SpanFits(s)
    ensures GetSpan(PutSpan(s) + rest) == Ok(Read(s, rest))
  {
    assert PutSpan(s) + rest == Encode(s.off) + (Encode(s.len) + rest);
    VarintFirst(s.off, Encode(s.len) + rest);
    VarintFirst(s.len, rest);
  }

  function PutLayout(l: Layout): Bytes {
    match l
    case Windowed(preludeLen) => Encode(preludeLen)
    case Slim(docsLen, slim) => Encode(docsLen) + PutRegions(slim, true)
  }

  function GetLayout(s: Bytes, windowed: bool, frqLen: nat, rich: bool): (r: Result<Read<Layout>>)
    ensures r.Ok? ==> |r.value.rest| < |s|
  {
    var len :- GetVarint64(s);
    if windowed then Ok(Read(Windowed(len.value), len.rest))
    else if len.value > frqLen then Error(Corruption("frq_docs_len exceeds frq_len"))
    else
      var regions :- GetRegions(len.rest, rich, true);
      Ok(Read(Slim(len.value, regions.value), regions.rest))
  }

  lemma {:induction false} LayoutRoundTrip(l: Layout, frqLen: nat, rich: bool, rest: Bytes)
    requires frqLen < TWO64
    requires match l case Windowed(n) => n < TWO64 case Slim(n, r) => n <= frqLen && RegionsFit(r, rich, true)
    ensures GetLayout(PutLayout(l) + rest, l.Windowed?, frqLen, rich) == Ok(Read(l, rest))
  {
    match l
    case Windowed(n) => VarintFirst(n, rest);
    case Slim(n, r) =>
      assert PutLayout(l) + rest == Encode(n) + (PutRegions(r, true) + rest);
      VarintFirst(n, PutRegions(r, true) + rest);
      RegionsRoundTrip(r, true, rest);
  }

  function PutPodRef(frq: Span, layout: Layout, prx: Option<Span>): Bytes {
    PutSpan(frq) + PutLayout(layout) + PutPrxSpan(prx)
  }

  function PutPrxSpan(prx: Option<Span>): Bytes {
    if prx.None? then [] else PutSpan(prx.value)
  }

  function GetPrxSpan(s: Bytes, rich: bool): (r: Result<Read<Option<Span>>>)
    ensures r.Ok? ==> |r.value.rest| <= |s|
  {
    if !rich then Ok(Read(None, s))
    else
      var prx :- GetSpan(s);
      Ok(Read(Some(prx.value), prx.rest))
  }

  lemma {:induction false} PrxSpanRoundTrip(prx: Option<Span>, rest: Bytes)
    requires prx.Some? ==> SpanFits(prx.value)
    ensures GetPrxSpan(PutPrxSpan(prx) + rest, prx.Some?) == Ok(Read(prx, rest))
  {
    if prx.Some? {
      SpanRoundTrip(prx.value, rest);
    } else {
      assert [] + rest == rest;
    }
  }

  function GetPodRef(s: Bytes, windowed: bool, rich: bool): (r: Result<Read<Locator>>)
    ensures r.Ok? ==> |r.value.rest| < |s|
  {
    var frq :- GetSpan(s);
    var layout :- GetLayout(frq.rest, windowed, frq.value.len, rich);
    var prx :- GetPrxSpan(layout.rest, rich);
    Ok(Read(PodRef(frq.value, layout.value, prx.value), prx.rest))
  }

  lemma {:induction false} PodRefRoundTrip(l: Locator, rich: bool, rest: Bytes)
    requires l.PodRef? && LocatorFits(l, rich)
    ensures GetPodRef(PutPodRef(l.frq, l.layout, l.prx) + rest, l.layout.Windowed?, rich) == Ok(Read(l, rest))
  {
    var tail := PutPrxSpan(l.prx) + rest;
    Cat3(PutSpan(l.frq), PutLayout(l.layout), PutPrxSpan(l.prx), rest);
    SpanRoundTrip(l.frq, PutLayout(l.layout) + tail);
    LayoutRoundTrip(l.layout, l.frq.len, rich, tail);
    PrxSpanRoundTrip(l.prx, rest);
  }

  function PutBlob(b: Bytes): Bytes {
    Encode(|b|) + b
  }

  function GetBlob(s: Bytes): (r: Result<Read<Bytes>>)
    ensures r.Ok? ==> |r.value.rest| < |s|
  {
    var len :- GetVarint64(s);
    GetBytes(len.rest, len.value)
  }

  lemma {:induction false} BlobRoundTrip(b: Bytes, rest: Bytes)
    requires |b| < TWO64
    ensures GetBlob(PutBlob(b) + rest) == Ok(Read(b, rest))
  {
    assert PutBlob(b) + rest == Encode(|b|) + (b + rest);
    VarintFirst(|b|, b + rest);
    BytesFirst(b, rest);
  }

  function PutInline(frqBytes: Bytes, ddLen: nat, regions: Regions, prxBytes: Option<Bytes>): Bytes {
    PutBlob(frqBytes) + Encode(ddLen) + PutRegions(regions, false) + PutPrxBlob(prxBytes)
  }

  function PutPrxBlob(prx: Option<Bytes>): Bytes {
    if prx.None? then [] else PutBlob(prx.value)
  }

  function GetPrxBlob(s: Bytes, rich: bool): (r: Result<Read<Option<Bytes>>>)
    ensures r.Ok? ==> |r.value.rest| <= |s|
  {
    if !rich then Ok(Read(None, s))
    else
      var prx :- GetBlob(s);
      Ok(Read(Some(prx.value), prx.rest))
  }

  lemma {:induction false} PrxBlobRoundTrip(prx: Option<Bytes>, rest: Bytes)
    requires prx.Some? ==> |prx.value| < TWO64
    ensures GetPrxBlob(PutPrxBlob(prx) + rest, prx.Some?) == Ok(Read(prx, rest))
  {
    if prx.Some? {
      BlobRoundTrip(prx.value, rest);
    } else {
      assert [] + rest == rest;
    }
  }

  function GetInline(s: Bytes, enc: bool, rich: bool): (r: Result<Read<Locator>>)
    ensures r.Ok? ==> |r.value.rest| < |s|
  {
    var frq :- GetBlob(s);
    var ddLen :- GetVarint64(frq.rest);
    if ddLen.value > |frq.value| then Error(Corruption("inline_dd_disk_len exceeds frq_bytes"))
    else
      var regions :- GetRegions(ddLen.rest, rich, false);
      var prx :- GetPrxBlob(regions.rest, rich);
      Ok(Read(Inline(enc, frq.value, ddLen.value, regions.value, prx.value), prx.rest))
  }

  lemma {:induction false} InlineRoundTrip(l: Locator, rich: bool, rest: Bytes)
    requires l.Inline? && LocatorFits(l, rich)
    ensures GetInline(PutInline(l.frqBytes, l.ddLen, l.regions, l.prxBytes) + rest, l.enc, rich) == Ok(Read(l, rest))
  {
    var tail := PutPrxBlob(l.prxBytes) + rest;
    var regions := PutRegions(l.regions, false) + tail;
    Cat4(PutBlob(l.frqBytes), Encode(l.ddLen), PutRegions(l.regions, false), PutPrxBlob(l.prxBytes), rest);
    BlobRoundTrip(l.frqBytes, Encode(l.ddLen) + regions);
    VarintFirst(l.ddLen, regions);
    RegionsRoundTrip(l.regions, false, tail);
    PrxBlobRoundTrip(l.prxBytes, rest);
  }

  function PutLocator(l: Locator): Bytes {
    match l
    case PodRef(frq, layout, prx) => PutPodRef(frq, layout, prx)
    case Inline(_, frqBytes, ddLen, regions, prxBytes) => PutInline(frqBytes, ddLen, regions, prxBytes)
  }

  function GetLocator(s: Bytes, inl: bool, enc: bool, rich: bool): (r: Result<Read<Locator>>)
    ensures r.Ok? ==> |r.value.rest| < |s|
  {
    if inl then GetInline(s, enc, rich) else GetPodRef(s, enc, rich)
  }

  function EncBit(l: Locator): bool {
    if l.PodRef? then l.layout.Windowed? else l.enc
  }

  lemma {:induction false} LocatorRoundTrip(l: Locator, rich: bool, rest: Bytes)
    requires LocatorFits(l, rich)
    ensures GetLocator(PutLocator(l) + rest, l.Inline?, EncBit(l), rich) == Ok(Read(l, rest))
  {
    if l.PodRef? {
      PodRefRoundTrip(l, rich, rest);
    } else {
      InlineRoundTrip(l, rich, rest);
    }
  }

  // ----- whole entries

  function PackFlags(e: DictEntry): byte {
    (Bit(e.locator.Inline?, 1) + Bit(EncBit(e.locator), 2) + Bit(e.hasSb, 4)) as byte
  }

  predicate FlagAt(flags: byte, weight: nat)
    requires weight > 0
  {
    flags as nat / weight % 2 == 1
  }

  lemma {:induction false} FlagBits(e: DictEntry)
    ensures FlagAt(PackFlags(e), 1) == e.locator.Inline?
    ensures FlagAt(PackFlags(e), 2) == EncBit(e.locator) && FlagAt(PackFlags(e), 4) == e.hasSb
  {
  }

  function PutBody(e: DictEntry, prev: Bytes): Bytes {
    PutTermKey(e.term, prev) + [PackFlags(e)] + PutStats(e.df, e.stats) + PutLocator(e.locator)
  }

  function GetBody(s: Bytes, prev: Bytes, rich: bool): (r: Result<Read<DictEntry>>)
    ensures r.Ok? ==> |r.value.rest| < |s|
  {
    var term :- GetTermKey(s, prev);
    var flags :- GetU8(term.rest);
    var stats :- GetStats(flags.rest, rich);
    var locator :- GetLocator(stats.rest, FlagAt(flags.value, 1), FlagAt(flags.value, 2), rich);
    Ok(Read(DictEntry(term.value, FlagAt(flags.value, 4), stats.value.df, stats.value.stats, locator.value), locator.rest))
  }

  lemma {:induction false} BodyRoundTrip(e: DictEntry, prev: Bytes, rich: bool, rest: Bytes)
    requires Fits(e, rich)
    ensures GetBody(PutBody(e, prev) + rest, prev, rich) == Ok(Read(e, rest))
  {
    var locator := PutLocator(e.locator) + rest;
    var stats := PutStats(e.df, e.stats) + locator;
    Cat4(PutTermKey(e.term, prev), [PackFlags(e)], PutStats(e.df, e.stats), PutLocator(e.locator), rest);
    TermKeyRoundTrip(e.term, prev, [PackFlags(e)] + stats);
    U8First(PackFlags(e), stats);
    StatsRoundTrip(e.df, e.stats, locator);
    FlagBits(e);
    LocatorRoundTrip(e.locator, rich, rest);
  }

  /** The body preceded by its length. */
  function EncodeEntry(e: DictEntry, prev: Bytes): (r: Bytes)
    ensures r != []
  {
    Encode(|PutBody(e, prev)|) + PutBody(e, prev)
  }

  /** Rejects a body that does not use exactly its declared length. */
  function DecodeEntry(s: Bytes, prev: Bytes, rich: bool): (r: Result<Read<DictEntry>>)
    ensures r.Ok? ==> |r.value.rest| < |s|
  {
    var len :- GetVarint64(s);
    if len.value > |len.rest| then Error(Corruption("entry_len out of range"))
    else
      var body :- GetBody(len.rest, prev, rich);
      if |len.rest| - |body.rest| != len.value then Error(Corruption("body length does not match entry_len")) else Ok(body)
  }

  /** Every field comes back, whatever follows the entry. */
  lemma {:induction false} EntryRoundTrip(e: DictEntry, prev: Bytes, rich: bool, rest: Bytes)
    requires Fits(e, rich) && |PutBody(e, prev)| < TWO64
    ensures DecodeEntry(EncodeEntry(e, prev) + rest, prev, rich) == Ok(Read(e, rest))
  {
    var body := PutBody(e, prev);
    assert EncodeEntry(e, prev) + rest == Encode(|body|) + (body + rest);
    VarintFirst(|body|, body + rest);
    BodyRoundTrip(e, prev, rich, rest);
  }
}
