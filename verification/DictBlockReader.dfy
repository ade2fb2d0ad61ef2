/** Opening a dictionary block and finding terms in it: binary search over the anchors,
    then a front-coded scan of one segment. */
module DictBlockReader {
  import opened Common
  import opened Varint
  import opened ByteStreams
  import opened TermOrder
  import opened TermDict
  import opened DictEntries
  import opened Pieces
  import opened DictBlocks
  import Crc32c

  datatype Reader = Reader(covered: Bytes, rich: bool, frqBase: nat, prxBase: nat, nEntries: nat,
                           anchorOffsets: seq<nat>, anchorTerms: seq<Bytes>)

  // ----- blocks the format can carry, and readers of them

  ghost predicate EntryFits(b: Block, i: nat)
    requires b.interval > 0 && i < |b.entries|
  {
    Fits(b.entries[i], b.rich) && |PutBody(b.entries[i], PrevOf(b, i))| < TWO64
  }

  ghost predicate EntriesFit(b: Block) {
    b.interval > 0 && forall i: nat {:trigger EntryFits(b, i)} :: i < |b.entries| ==> EntryFits(b, i)
  }

  ghost predicate SortedEntries(es: seq<DictEntry>) {
    forall i, j :: 0 <= i < j < |es| ==> Less(es[i].term, es[j].term)
  }

  function MarksIn(b: Block): seq<nat>
    requires b.interval > 0
  {
    Marks(b.interval, |b.entries|)
  }

  ghost predicate TermsAt(terms: seq<Bytes>, b: Block, n: nat)
    requires b.interval > 0
  {
    var m := MarksIn(b);
    |terms| == n <= |m| && forall a :: 0 <= a < n ==> m[a] < |b.entries| && terms[a] == b.entries[m[a]].term
  }

  function TableBegin(r: Reader): int {
    |r.covered| - 4 - 4 * |r.anchorOffsets|
  }

  function SegmentBytes(r: Reader, a: nat): Result<Bytes>
    requires a < |r.anchorOffsets|
  {
    var begin := r.anchorOffsets[a];
    var end := if a + 1 == |r.anchorOffsets| then TableBegin(r) else r.anchorOffsets[a + 1];
    if end < begin || end > |r.covered| then Error(Corruption("anchor segment range invalid")) else Ok(r.covered[begin..end])
  }

  /** Segment `a` of the reader's bytes holds the entries from mark `a` to the next. */
  ghost predicate SegmentGood(r: Reader, b: Block, a: nat)
    requires b.interval > 0 && a < |r.anchorOffsets|
  {
    var m := MarksIn(b);
    && a < |m| && m[a] < SegmentEnd(m, a, |b.entries|) <= |b.entries|
    && SegmentBytes(r, a) == Ok(Join(Coded(b), m[a], SegmentEnd(m, a, |b.entries|)))
  }

  /** `r` is the reader of block `b`. */
  ghost predicate Reads(r: Reader, b: Block) {
    && EntriesFit(b) && r.rich == b.rich
    && r.frqBase == b.frqBase && r.prxBase == b.prxBase && r.nEntries == |b.entries|
    && |r.anchorOffsets| == |MarksIn(b)| && TermsAt(r.anchorTerms, b, |MarksIn(b)|)
    && forall a: nat {:trigger SegmentGood(r, b, a)} :: a < |r.anchorOffsets| ==> SegmentGood(r, b, a)
  }

  // ----- decoding the pieces

  /** Piece k decodes to entry k against the term it was coded against. */
  lemma {:induction false} PieceDecodes(b: Block, k: nat)
    requires EntriesFit(b) && k < |b.entries|
    ensures Coded(b)[k] != []
    ensures forall rest: Bytes {:trigger Coded(b)[k] + rest} ::
              DecodeEntry(Coded(b)[k] + rest, PrevOf(b, k), b.rich) == Ok(Read(b.entries[k], rest))
  {
    assert EntryFits(b, k);
    var e, prev := b.entries[k], PrevOf(b, k);
    BodyShorter(e, prev);
    forall rest: Bytes ensures DecodeEntry(EncodeEntry(e, prev) + rest, prev, b.rich) == Ok(Read(e, rest)) {
      EntryRoundTrip(e, prev, b.rich, rest);
    }
  }

  lemma {:induction false} BodyShorter(e: DictEntry, prev: Bytes)
    ensures |PutBody(e, prev)| < |EncodeEntry(e, prev)|
  {
  }

  lemma {:induction false} PiecesNonEmpty(b: Block)
    requires b.interval > 0
    ensures NonEmptyPieces(Coded(b))
  {
    var ps := Coded(b);
    forall i | 0 <= i < |ps| ensures ps[i] != [] {
      BodyShorter(b.entries[i], PrevOf(b, i));
    }
  }

  // ----- searching

  /** The last anchor at or before the target. */
  method LocateAnchor(terms: seq<Bytes>, target: Bytes) returns (a: Option<nat>)
    ensures a.None? <==> terms == [] || Less(target, terms[0])
    ensures a.Some? ==> a.value < |terms| && !Less(target, terms[a.value]) && (a.value + 1 < |terms| ==> Less(target, terms[a.value + 1]))
  {
    if terms == [] || Less(target, terms[0]) {
      return None;
    }
    var lo: nat, hi: nat := 0, |terms|;
    while lo + 1 < hi
      invariant lo < hi <= |terms| && !Less(target, terms[lo]) && (hi < |terms| ==> Less(target, terms[hi]))
    {
      var mid := lo + (hi - lo) / 2;
      if !Less(target, terms[mid]) {
        lo := mid;
      } else {
        hi := mid;
      }
    }
    a := Some(lo);
  }

  /** Piece `k` decodes to entry `k` when the scan began at `lo`, whatever follows it. */
  ghost predicate PieceGood(ps: seq<Bytes>, es: seq<DictEntry>, lo: nat, k: nat, rich: bool)
    requires lo <= k < |ps| && |ps| == |es|
  {
    && ps[k] != []
    && forall rest: Bytes {:trigger ps[k] + rest} ::
         DecodeEntry(ps[k] + rest, if k == lo then [] else es[k - 1].term, rich) == Ok(Read(es[k], rest))
  }

  /** The bytes of one segment: pieces lo..hi, coding entries lo..hi. */
  ghost predicate SegmentOf(bytes: Bytes, ps: seq<Bytes>, es: seq<DictEntry>, lo: nat, hi: nat, rich: bool) {
    && lo <= hi <= |ps| && |ps| == |es| && bytes == Join(ps, lo, hi)
    && forall k: nat {:trigger PieceGood(ps, es, lo, k, rich)} :: lo <= k < hi ==> PieceGood(ps, es, lo, k, rich)
  }

  /** Where a scan stands before entry `k`. */
  ghost predicate ScanAt(ps: seq<Bytes>, es: seq<DictEntry>, lo: nat, hi: nat, k: nat, src: Bytes, prev: Bytes) {
    && lo <= k <= hi <= |ps| && |ps| == |es| && src == Join(ps, k, hi)
    && prev == if k == lo then [] else es[k - 1].term
  }

  method DecodeNext(src: Bytes, prev: Bytes, rich: bool, ghost bytes: Bytes, ghost ps: seq<Bytes>, ghost es: seq<DictEntry>,
                    ghost lo: nat, ghost hi: nat, ghost k: nat, ghost good: bool)
    returns (e: Result<Read<DictEntry>>)
    requires src != [] && (good ==> SegmentOf(bytes, ps, es, lo, hi, rich) && ScanAt(ps, es, lo, hi, k, src, prev))
    ensures e.Ok? ==> |e.value.rest| < |src|
    ensures good ==> k < hi && e.Ok? && e.value.value == es[k] && ScanAt(ps, es, lo, hi, k + 1, e.value.rest, es[k].term)
  {
    if good {
      assert k < hi;
      assert PieceGood(ps, es, lo, k, rich);
      assert src == ps[k] + Join(ps, k + 1, hi);
    }
    e := DecodeEntry(src, prev, rich);
  }

  lemma {:induction false} ScanOver(bytes: Bytes, ps: seq<Bytes>, es: seq<DictEntry>, lo: nat, hi: nat, rich: bool,
                                    k: nat, src: Bytes, prev: Bytes)
    requires SegmentOf(bytes, ps, es, lo, hi, rich) && ScanAt(ps, es, lo, hi, k, src, prev) && src == []
    ensures k == hi
  {
    if k < hi {
      MoreToRead(bytes, ps, es, lo, hi, rich, k);
    }
  }

  lemma {:induction false} MoreToRead(bytes: Bytes, ps: seq<Bytes>, es: seq<DictEntry>, lo: nat, hi: nat, rich: bool, k: nat)
    requires SegmentOf(bytes, ps, es, lo, hi, rich) && lo <= k < hi
    ensures Join(ps, k, hi) != []
  {
    assert PieceGood(ps, es, lo, k, rich);
  }

  /** `r` is the entry among lo..hi with the target's term, or there is none. */
  ghost predicate SegmentHit(es: seq<DictEntry>, lo: nat, hi: nat, target: Bytes, r: Option<DictEntry>) {
    hi <= |es| && match r
    case Some(e) => e.term == target && exists i :: lo <= i < hi && es[i] == e
    case None => forall i :: lo <= i < hi ==> es[i].term != target
  }

  /** Decodes entry after entry until the target is met or passed. */
  method ScanSegment(bytes: Bytes, rich: bool, target: Bytes, ghost ps: seq<Bytes>, ghost es: seq<DictEntry>,
                     ghost lo: nat, ghost hi: nat, ghost good: bool)
    returns (res: Result<Option<DictEntry>>)
    requires good ==> SortedEntries(es) && SegmentOf(bytes, ps, es, lo, hi, rich)
    ensures good ==> res.Ok? && SegmentHit(es, lo, hi, target, res.value)
  {
    var src, prev: Bytes := bytes, [];
    ghost var k: nat := lo;
    while src != []
      invariant good ==> ScanAt(ps, es, lo, hi, k, src, prev) && SegmentHit(es, lo, k, target, None)
      decreases |src|
    {
      var e := DecodeNext(src, prev, rich, bytes, ps, es, lo, hi, k, good);
      if e.Error? {
        return Error(e.status);
      }
      var entry := e.value.value;
      if entry.term == target {
        return Ok(Some(entry));
      }
      if Less(target, entry.term) {
        if good {
          PastTarget(es, k, target);
        }
        return Ok(None);
      }
      src, prev := e.value.rest, entry.term;
      k := k + 1;
    }
    if good {
      ScanOver(bytes, ps, es, lo, hi, rich, k, src, prev);
    }
    res := Ok(None);
  }

  /** The block's segment `a` is such a segment. */
  lemma {:induction false} SegmentOfBlock(r: Reader, b: Block, a: nat)
    requires Reads(r, b) && a < |r.anchorOffsets|
    ensures var m := MarksIn(b);
            && a < |m| && SegmentBytes(r, a).Ok?
            && SegmentOf(SegmentBytes(r, a).value, Coded(b), b.entries, m[a], SegmentEnd(m, a, |b.entries|), b.rich)
  {
    var m, n, ps := MarksIn(b), |b.entries|, Coded(b);
    assert SegmentGood(r, b, a);
    MarksAre(b.interval, n);
    assert Unbroken(m, a, b.interval, n);
    forall k: nat | m[a] <= k < SegmentEnd(m, a, n) ensures PieceGood(ps, b.entries, m[a], k, b.rich) {
      assert IsAnchor(k, b.interval) <==> k == m[a];
      PieceDecodes(b, k);
    }
  }

  method ScanFromAnchor(r: Reader, a: nat, target: Bytes, ghost b: Block) returns (res: Result<Option<DictEntry>>)
    requires a < |r.anchorOffsets|
    ensures Reads(r, b) && SortedEntries(b.entries) ==>
              res.Ok? && a < |MarksIn(b)| && SegmentHit(b.entries, MarksIn(b)[a], SegmentEnd(MarksIn(b), a, |b.entries|), target, res.value)
  {
    ghost var good := Reads(r, b) && SortedEntries(b.entries);
    ghost var ps: seq<Bytes>, lo: nat, hi: nat := [], 0, 0;
    if good {
      SegmentOfBlock(r, b, a);
      ps, lo, hi := Coded(b), MarksIn(b)[a], SegmentEnd(MarksIn(b), a, |b.entries|);
    }
    var segment := SegmentBytes(r, a);
    if segment.Error? {
      return Error(segment.status);
    }
    res := ScanSegment(segment.value, r.rich, target, ps, b.entries, lo, hi, good);
  }

  lemma {:induction false} PastTarget(es: seq<DictEntry>, k: nat, target: Bytes)
    requires SortedEntries(es) && k < |es| && Less(target, es[k].term)
    ensures forall i :: k <= i < |es| ==> es[i].term != target
  {
    forall i | k <= i < |es| ensures es[i].term != target {
      LessIrreflexive(target);
      if i > k && es[i].term == target {
        LessTransitive(es[k].term, target, es[k].term);
        LessIrreflexive(es[k].term);
      }
    }
  }

  function Named(es: seq<DictEntry>): (r: seq<Entry<DictEntry>>)
    ensures |r| == |es| && forall i :: 0 <= i < |es| ==> r[i] == Entry(es[i].term, es[i])
  {
    seq(|es|, i requires 0 <= i < |es| => Entry(es[i].term, es[i]))
  }

  ghost predicate HitIn(b: Block, a: nat, target: Bytes, r: Option<DictEntry>)
    requires b.interval > 0
  {
    a < |MarksIn(b)| && SegmentHit(b.entries, MarksIn(b)[a], SegmentEnd(MarksIn(b), a, |b.entries|), target, r)
  }

  /** One segment's answer is the whole block's, when the anchors bracket the target. */
  lemma {:induction false} SegmentDecides(b: Block, a: nat, target: Bytes, r: Option<DictEntry>)
    requires b.interval > 0 && SortedEntries(b.entries) && HitIn(b, a, target, r)
    requires var m := MarksIn(b); a < |m| && m[a] < |b.entries| && !Less(target, b.entries[m[a]].term)
    requires var m := MarksIn(b); a + 1 < |m| ==> m[a + 1] < |b.entries| && Less(target, b.entries[m[a + 1]].term)
    ensures r == Find(Named(b.entries), target)
  {
    var m, es, n := MarksIn(b), b.entries, |b.entries|;
    var named := Named(es);
    match r
    case Some(e) =>
      var i :| m[a] <= i < SegmentEnd(m, a, n) <= n && es[i] == e;
      NamedSorted(es);
      FindAt(named, i);
    case None =>
      MarksAre(b.interval, n);
      forall i | 0 <= i < n ensures named[i].term != target {
        if i < m[a] {
          BeforeTarget(es, i, m[a], target);
        } else if a + 1 < |m| && m[a + 1] <= i {
          PastTarget(es, m[a + 1], target);
        }
      }
      FindNone(named, target);
  }

  lemma {:induction false} BeforeTarget(es: seq<DictEntry>, i: nat, k: nat, target: Bytes)
    requires SortedEntries(es) && i < k < |es| && !Less(target, es[k].term)
    ensures es[i].term != target
  {
  }

  lemma {:induction false} NamedSorted(es: seq<DictEntry>)
    requires SortedEntries(es)
    ensures SortedTerms(Named(es))
  {
  }

  method FindTerm(r: Reader, target: Bytes, ghost b: Block) returns (res: Result<Option<DictEntry>>)
    requires |r.anchorTerms| == |r.anchorOffsets|
    ensures Reads(r, b) && SortedEntries(b.entries) ==> res == Ok(Find(Named(b.entries), target))
  {
    var a := LocateAnchor(r.anchorTerms, target);
    ghost var good := Reads(r, b) && SortedEntries(b.entries);
    if a.None? {
      if good {
        NoAnchor(b, r.anchorTerms, target);
      }
      return Ok(None);
    }
    res := ScanFromAnchor(r, a.value, target, b);
    if good {
      AnchorDecides(b, r.anchorTerms, a.value, target, res.value);
    }
  }

  lemma {:induction false} NoAnchor(b: Block, terms: seq<Bytes>, target: Bytes)
    requires b.interval > 0 && SortedEntries(b.entries) && TermsAt(terms, b, |MarksIn(b)|)
    requires terms == [] || Less(target, terms[0])
    ensures Find(Named(b.entries), target) == None
  {
    MarksAre(b.interval, |b.entries|);
    BelowAll(b, target);
  }

  lemma {:induction false} AnchorDecides(b: Block, terms: seq<Bytes>, a: nat, target: Bytes, r: Option<DictEntry>)
    requires b.interval > 0 && SortedEntries(b.entries) && TermsAt(terms, b, |MarksIn(b)|) && HitIn(b, a, target, r)
    requires a < |terms| && !Less(target, terms[a]) && (a + 1 < |terms| ==> Less(target, terms[a + 1]))
    ensures r == Find(Named(b.entries), target)
  {
    SegmentDecides(b, a, target, r);
  }

  lemma {:induction false} BelowAll(b: Block, target: Bytes)
    requires b.interval > 0 && SortedEntries(b.entries) && (b.entries != [] ==> Less(target, b.entries[0].term))
    ensures Find(Named(b.entries), target) == None
  {
    var es := b.entries;
    if es != [] {
      PastTarget(es, 0, target);
    }
    FindNone(Named(es), target);
  }

  // ----- every entry of a block

  method DecodeSegment(bytes: Bytes, rich: bool, ghost ps: seq<Bytes>, ghost es: seq<DictEntry>,
                       ghost lo: nat, ghost hi: nat, ghost good: bool)
    returns (res: Result<seq<DictEntry>>)
    requires good ==> SegmentOf(bytes, ps, es, lo, hi, rich)
    ensures good ==> res == Ok(es[lo..hi])
  {
    var src, prev: Bytes := bytes, [];
    var out := [];
    ghost var k: nat := lo;
    while src != []
      invariant good ==> ScanAt(ps, es, lo, hi, k, src, prev) && out == es[lo..k]
      decreases |src|
    {
      var e := DecodeNext(src, prev, rich, bytes, ps, es, lo, hi, k, good);
      if e.Error? {
        return Error(e.status);
      }
      var entry := e.value.value;
      src, prev, out := e.value.rest, entry.term, out + [entry];
      k := k + 1;
    }
    if good {
      ScanOver(bytes, ps, es, lo, hi, rich, k, src, prev);
    }
    res := Ok(out);
  }

  method SegmentEntries(r: Reader, a: nat, ghost b: Block) returns (res: Result<seq<DictEntry>>)
    requires a < |r.anchorOffsets|
    ensures Reads(r, b) ==> a < |MarksIn(b)| && MarksIn(b)[a] <= SegmentEnd(MarksIn(b), a, |b.entries|) <= |b.entries|
    ensures Reads(r, b) ==> res == Ok(b.entries[MarksIn(b)[a]..SegmentEnd(MarksIn(b), a, |b.entries|)])
  {
    ghost var good := Reads(r, b);
    ghost var ps: seq<Bytes>, lo: nat, hi: nat := [], 0, 0;
    if good {
      SegmentOfBlock(r, b, a);
      ps, lo, hi := Coded(b), MarksIn(b)[a], SegmentEnd(MarksIn(b), a, |b.entries|);
    }
    var segment := SegmentBytes(r, a);
    if segment.Error? {
      return Error(segment.status);
    }
    res := DecodeSegment(segment.value, r.rich, ps, b.entries, lo, hi, good);
  }

  lemma {:induction false} PrefixJoin(es: seq<DictEntry>, i: nat, j: nat)
    requires i <= j <= |es|
    ensures es[..i] + es[i..j] == es[..j]
  {
  }

  /** Where segment `a` starts; the number of entries past the last one. */
  function SegmentStart(m: seq<nat>, a: nat, n: nat): nat {
    if a < |m| then m[a] else n
  }

  /** Decodes all segments in order; the header's count must agree. */
  method DecodeAll(r: Reader, ghost b: Block) returns (res: Result<seq<DictEntry>>)
    ensures Reads(r, b) ==> res == Ok(b.entries)
  {
    var out: seq<DictEntry> := [];
    ghost var good := Reads(r, b);
    ghost var m, n := if good then MarksIn(b) else [], |b.entries|;
    if good {
      MarksAre(b.interval, n);
    }
    for a := 0 to |r.anchorOffsets|
      invariant good ==> SegmentStart(m, a, n) <= n && out == b.entries[..SegmentStart(m, a, n)]
    {
      var part := SegmentEntries(r, a, b);
      if part.Error? {
        return Error(part.status);
      }
      if good {
        PrefixJoin(b.entries, m[a], SegmentEnd(m, a, n));
      }
      out := out + part.value;
    }
    assert good ==> b.entries[..n] == b.entries;
    if |out| != r.nEntries {
      return Error(Corruption("decoded entry count mismatch"));
    }
    res := Ok(out);
  }

  // ----- opening

  datatype Bases = Bases(frq: nat, prx: nat)
  datatype Head = Head(nEntries: nat, bases: Bases)

  function GetHead(s: Bytes, hasPositions: bool): (r: Result<Read<Head>>)
    ensures r.Ok? ==> |r.value.rest| <= |s|
  {
    var n :- GetVarint64(s);
    var bases :- GetChecked(n.rest, hasPositions);
    Ok(Read(Head(n.value % TWO32, bases.value), bases.rest))
  }

  /** Version and flags must be the expected ones. */
  function GetChecked(s: Bytes, hasPositions: bool): (r: Result<Read<Bases>>)
    ensures r.Ok? ==> |r.value.rest| <= |s|
  {
    var ver :- GetU8(s);
    var flags :- GetU8(ver.rest);
    if ver.value != FORMAT_VER then Error(Unsupported("unsupported entry_format_ver"))
    else if (flags.value % 2 == 1) != hasPositions then Error(InvalidArgument("has_positions inconsistent with block_flags"))
    else GetBases(flags.rest, hasPositions)
  }

  function GetBases(s: Bytes, hasPositions: bool): (r: Result<Read<Bases>>)
    ensures r.Ok? ==> |r.value.rest| <= |s|
  {
    var frq :- GetVarint64(s);
    var prx :- GetPrxBase(frq.rest, hasPositions);
    Ok(Read(Bases(frq.value, prx.value), prx.rest))
  }

  function GetPrxBase(s: Bytes, hasPositions: bool): (r: Result<Read<nat>>)
    ensures r.Ok? ==> |r.value.rest| <= |s|
  {
    if hasPositions then GetVarint64(s) else Ok(Read(0, s))
  }

  /** Sizes and bases the block format can hold. */
  ghost predicate Carries(b: Block) {
    && EntriesFit(b) && b.frqBase < TWO64 && b.prxBase < TWO64 && (!b.hasPositions ==> b.prxBase == 0)
    && |b.entries| < TWO32 && |Covered(b)| < TWO32
  }

  lemma {:induction false} PrxBaseRoundTrip(b: Block, rest: Bytes)
    requires b.prxBase < TWO64 && (!b.hasPositions ==> b.prxBase == 0)
    ensures GetPrxBase(PrxBase(b) + rest, b.hasPositions) == Ok(Read(b.prxBase, rest))
  {
    if b.hasPositions {
      VarintFirst(b.prxBase, rest);
    } else {
      assert [] + rest == rest;
    }
  }

  lemma {:induction false} BasesRoundTrip(b: Block, rest: Bytes)
    requires b.frqBase < TWO64 && b.prxBase < TWO64 && (!b.hasPositions ==> b.prxBase == 0)
    ensures GetBases(Encode(b.frqBase) + (PrxBase(b) + rest), b.hasPositions) == Ok(Read(Bases(b.frqBase, b.prxBase), rest))
  {
    VarintFirst(b.frqBase, PrxBase(b) + rest);
    PrxBaseRoundTrip(b, rest);
  }

  lemma {:induction false} CheckedRoundTrip(flag: byte, hasPositions: bool, bases: Bytes)
    requires flag == if hasPositions then 1 else 0
    ensures GetChecked([FORMAT_VER] + ([flag] + bases), hasPositions) == GetBases(bases, hasPositions)
  {
    U8First(FORMAT_VER, [flag] + bases);
    U8First(flag, bases);
  }

  lemma {:induction false} HeadRoundTrip(b: Block, rest: Bytes)
    requires b.frqBase < TWO64 && b.prxBase < TWO64 && |b.entries| < TWO32 && (!b.hasPositions ==> b.prxBase == 0)
    ensures GetHead(Header(b) + rest, b.hasPositions) == Ok(Read(Head(|b.entries|, Bases(b.frqBase, b.prxBase)), rest))
  {
    var n, flag: byte := |b.entries|, if b.hasPositions then 1 else 0;
    var bases := Encode(b.frqBase) + (PrxBase(b) + rest);
    Cat5(Encode(n), [FORMAT_VER], [flag], Encode(b.frqBase), PrxBase(b), rest);
    CountFirst(n, [FORMAT_VER] + ([flag] + bases), b.hasPositions);
    CheckedRoundTrip(flag, b.hasPositions, bases);
    BasesRoundTrip(b, rest);
  }

  lemma {:induction false} CountFirst(n: nat, tail: Bytes, hasPositions: bool)
    requires n < TWO32
    ensures GetHead(Encode(n) + tail, hasPositions) ==
            match GetChecked(tail, hasPositions) case Ok(r) => Ok(Read(Head(n, r.value), r.rest)) case Error(e) => Error(e)
  {
    VarintFirst(n, tail);
  }

  /** The bytes before the checksum, if it matches. */
  function VerifyCrc(block: Bytes): (r: Result<Bytes>)
    ensures r.Ok? ==> |r.value| >= 4
  {
    if |block| < 8 then Error(Corruption("block too short to contain footer"))
    else
      var n := |block| - 4;
      if Crc32c.Digest(block[..n]) != LoadLe32(block[n..]) then Error(Corruption("crc32c checksum mismatch")) else Ok(block[..n])
  }

  lemma {:induction false} CrcAccepts(covered: Bytes)
    requires |covered| >= 4
    ensures VerifyCrc(covered + Fixed32(Crc32c.Digest(covered))) == Ok(covered)
  {
    var f := Fixed32(Crc32c.Digest(covered));
    var block := covered + f;
    Crc32c.DigestFits(covered);
    assert block[..|block| - 4] == covered && block[|block| - 4..] == f;
    Fixed32First(Crc32c.Digest(covered), []);
  }

  // ----- the anchor table

  lemma {:induction false} TableAt(offsets: seq<nat>, i: nat)
    requires i < |offsets| && offsets[i] < TWO32
    ensures LoadLe32(Table(offsets)[4 * i..4 * i + 4]) == offsets[i]
    decreases |offsets|
  {
    var n := |offsets| - 1;
    if i < n {
      TableAt(offsets[..n], i);
      assert Table(offsets)[4 * i..4 * i + 4] == Table(offsets[..n])[4 * i..4 * i + 4];
    } else {
      Fixed32First(offsets[i], []);
      assert Table(offsets)[4 * i..4 * i + 4] == Fixed32(offsets[i]);
    }
  }

  /** Word `a` of the table holds offset `a`, which is in range and in order. */
  ghost predicate WordGood(covered: Bytes, base: nat, begin: nat, offsets: seq<nat>, a: nat) {
    && begin <= |covered| && a < |offsets| && offsets[a] < begin
    && (a == 0 ==> offsets[a] == base) && (a > 0 ==> offsets[a - 1] < offsets[a])
    && begin + 4 * a + 4 <= |covered| && LoadLe32(covered[begin + 4 * a..begin + 4 * a + 4]) == offsets[a]
  }

  ghost predicate WordsGood(covered: Bytes, base: nat, begin: nat, offsets: seq<nat>) {
    forall a: nat {:trigger WordGood(covered, base, begin, offsets, a)} :: a < |offsets| ==> WordGood(covered, base, begin, offsets, a)
  }

  /** The entry at `off` decodes and carries the term. */
  ghost predicate ProbeGood(covered: Bytes, begin: nat, off: nat, rich: bool, term: Bytes) {
    && off <= begin <= |covered|
    && var e := DecodeEntry(covered[off..begin], [], rich); e.Ok? && e.value.value.term == term
  }

  ghost predicate ProbesGood(covered: Bytes, begin: nat, offsets: seq<nat>, terms: seq<Bytes>, rich: bool) {
    && |terms| == |offsets|
    && forall a: nat {:trigger ProbeGood(covered, begin, offsets[a], rich, terms[a])} :: a < |offsets| ==>
         ProbeGood(covered, begin, offsets[a], rich, terms[a])
  }

  datatype Anchors = Anchors(offsets: seq<nat>, terms: seq<Bytes>)

  /** Reads and checks the offset table, decoding each anchor's term. */
  method ReadAnchors(covered: Bytes, base: nat, begin: nat, n: nat, rich: bool,
                     ghost offsets: seq<nat>, ghost terms: seq<Bytes>, ghost good: bool)
    returns (r: Result<Anchors>)
    requires begin + 4 * n <= |covered|
    requires good ==> n == |offsets| && WordsGood(covered, base, begin, offsets) && ProbesGood(covered, begin, offsets, terms, rich)
    ensures r.Ok? ==> |r.value.offsets| == |r.value.terms|
    ensures good ==> r == Ok(Anchors(offsets, terms))
  {
    var offs: seq<nat>, found: seq<Bytes> := [], [];
    for a := 0 to n
      invariant |offs| == |found| == a
      invariant good ==> offs == offsets[..a] && found == terms[..a]
    {
      var off := ReadOffset(covered, base, begin, a, if a == 0 then 0 else offs[a - 1], offsets, good);
      if off.Error? {
        return Error(off.status);
      }
      var term := ReadTerm(covered, begin, off.value, rich, offsets, terms, a, good);
      if term.Error? {
        return Error(term.status);
      }
      offs, found := offs + [off.value], found + [term.value];
    }
    assert good ==> offsets[..n] == offsets && terms[..n] == terms;
    r := Ok(Anchors(offs, found));
  }

  /** One word of the table: in range, the first at the start of the entries, ascending. */
  method ReadOffset(covered: Bytes, base: nat, begin: nat, a: nat, prior: nat, ghost offsets: seq<nat>, ghost good: bool)
    returns (r: Result<nat>)
    requires begin + 4 * a + 4 <= |covered|
    requires good ==> a < |offsets| && WordsGood(covered, base, begin, offsets) && (a > 0 ==> prior == offsets[a - 1])
    ensures r.Ok? ==> r.value < begin
    ensures good ==> r == Ok(offsets[a])
  {
    assert good ==> WordGood(covered, base, begin, offsets, a);
    var off := LoadLe32(covered[begin + 4 * a..begin + 4 * a + 4]);
    if off >= begin {
      return Error(Corruption("anchor offset out of range"));
    }
    if a == 0 {
      if off != base {
        return Error(Corruption("first anchor offset is not the start of entries"));
      }
    } else if off <= prior {
      return Error(Corruption("anchor offsets are not strictly increasing"));
    }
    r := Ok(off);
  }

  /** The term of the anchor at `off`. */
  method ReadTerm(covered: Bytes, begin: nat, off: nat, rich: bool,
                  ghost offsets: seq<nat>, ghost terms: seq<Bytes>, ghost a: nat, ghost good: bool)
    returns (r: Result<Bytes>)
    requires off <= begin <= |covered|
    requires good ==> a < |offsets| && off == offsets[a] && ProbesGood(covered, begin, offsets, terms, rich)
    ensures good ==> r == Ok(terms[a])
  {
    assert good ==> ProbeGood(covered, begin, off, rich, terms[a]);
    var probe := DecodeEntry(covered[off..begin], [], rich);
    if probe.Error? {
      return Error(probe.status);
    }
    r := Ok(probe.value.value.term);
  }

  // ----- the table of a built block

  function AnchorTerms(b: Block): (r: seq<Bytes>)
    requires b.interval > 0
    ensures TermsAt(r, b, |MarksIn(b)|)
  {
    MarksAre(b.interval, |b.entries|);
    var m := MarksIn(b);
    seq(|m|, a requires 0 <= a < |m| => b.entries[m[a]].term)
  }

  /** Header, pieces and trailer end to end. */
  function Laid(head: Bytes, ps: seq<Bytes>, offsets: seq<nat>): Bytes {
    head + Join(ps, 0, |ps|) + Trailer(offsets)
  }

  /** The bytes, cut at the table. */
  lemma {:induction false} LaidCut(head: Bytes, ps: seq<Bytes>, offsets: seq<nat>)
    ensures var c := Laid(head, ps, offsets);
            var begin := At(ps, |head|, |ps|);
            && |c| == begin + 4 * |offsets| + 4
            && c[begin..begin + 4 * |offsets|] == Table(offsets)
            && c[|c| - 4..] == Fixed32(|offsets|)
            && |head| <= begin
  {
    Cuts(head, Join(ps, 0, |ps|), Table(offsets), Fixed32(|offsets|));
    assert |Laid(head, ps, offsets)| - 4 == At(ps, |head|, |ps|) + |Table(offsets)|;
  }

  lemma {:induction false} Cuts(head: Bytes, area: Bytes, table: Bytes, count: Bytes)
    ensures var c, begin := head + area + (table + count), |head| + |area|;
            && |c| == begin + |table| + |count|
            && c[begin..begin + |table|] == table && c[begin + |table|..] == count
            && c[..begin] == head + area
  {
  }

  /** The marks of the pieces: in range, ascending, from the first piece. */
  ghost predicate MarksIn0(m: seq<nat>, n: nat) {
    && (forall a :: 0 <= a < |m| ==> m[a] < n)
    && (forall a, c :: 0 <= a < c < |m| ==> m[a] < m[c])
    && (m != [] ==> m[0] == 0)
  }

  /** Offset `a` is in place and in range and leads to the piece. */
  ghost predicate OffsetGood(c: Bytes, base: nat, begin: nat, offsets: seq<nat>, a: nat, piece: Bytes, rest: Bytes) {
    && begin <= |c| && a < |offsets| && offsets[a] < begin
    && (a == 0 ==> offsets[a] == base) && (a > 0 ==> offsets[a - 1] < offsets[a])
    && begin + 4 * a + 4 <= |c| && LoadLe32(c[begin + 4 * a..begin + 4 * a + 4]) == offsets[a]
    && c[offsets[a]..begin] == piece + rest
  }

  /** An offset of the table is in place, in range and leads to its piece. */
  lemma {:induction false} LaidAnchor(head: Bytes, ps: seq<Bytes>, m: seq<nat>, offsets: seq<nat>, a: nat)
    requires MarksIn0(m, |ps|) && offsets == Offsets(ps, |head|, m) && NonEmptyPieces(ps) && a < |m|
    requires |Laid(head, ps, offsets)| < TWO32
    ensures OffsetGood(Laid(head, ps, offsets), |head|, At(ps, |head|, |ps|), offsets, a, ps[m[a]], Join(ps, m[a] + 1, |ps|))
  {
    var c, n := Laid(head, ps, offsets), |ps|;
    var begin := At(ps, |head|, n);
    LaidCut(head, ps, offsets);
    OffsetsAscend(ps, |head|, m[a], n);
    if a > 0 {
      OffsetsAscend(ps, |head|, m[a - 1], m[a]);
    } else {
      assert Join(ps, 0, 0) == [];
    }
    TableAt(offsets, a);
    SubCut(c, begin, 4 * |offsets|, 4 * a);
    CutPieces(head, ps, Trailer(offsets), m[a], n);
  }

  lemma {:induction false} SubCut(c: Bytes, begin: nat, len: nat, i: nat)
    requires begin + len <= |c| && i + 4 <= len
    ensures c[begin..begin + len][i..i + 4] == c[begin + i..begin + i + 4]
  {
    var x, y := c[begin..begin + len][i..i + 4], c[begin + i..begin + i + 4];
    assert forall k :: 0 <= k < 4 ==> x[k] == y[k];
  }

  /** The bytes between two offsets of the table are the pieces between their marks. */
  lemma {:induction false} LaidSegment(r: Reader, head: Bytes, ps: seq<Bytes>, m: seq<nat>, a: nat)
    requires MarksIn0(m, |ps|) && a < |m|
    requires r.anchorOffsets == Offsets(ps, |head|, m) && r.covered == Laid(head, ps, r.anchorOffsets)
    ensures SegmentEnd(m, a, |ps|) <= |ps| && m[a] <= SegmentEnd(m, a, |ps|)
    ensures SegmentBytes(r, a) == Ok(Join(ps, m[a], SegmentEnd(m, a, |ps|)))
  {
    LaidCut(head, ps, r.anchorOffsets);
    var end := SegmentEnd(m, a, |ps|);
    CutPieces(head, ps, Trailer(r.anchorOffsets), m[a], end);
    assert r.covered == head + Join(ps, 0, |ps|) + Trailer(r.anchorOffsets);
    assert r.anchorOffsets[a] == At(ps, |head|, m[a]);
    assert a + 1 < |m| ==> r.anchorOffsets[a + 1] == At(ps, |head|, end);
    assert a + 1 == |m| ==> TableBegin(r) == At(ps, |head|, end);
  }

  // ----- opening, on the parts of a block

  /** A block taken apart: its header, coded entries, anchor marks and anchor terms. */
  datatype Parts = Parts(head: Bytes, ps: seq<Bytes>, marks: seq<nat>, terms: seq<Bytes>)

  /** The header bytes say `h`, whatever follows. */
  ghost predicate HeadSays(head: Bytes, hasPositions: bool, h: Head) {
    forall rest: Bytes {:trigger head + rest} :: GetHead(head + rest, hasPositions) == Ok(Read(h, rest))
  }

  /** The piece on its own decodes to an entry with this term, whatever follows. */
  ghost predicate Stands(piece: Bytes, term: Bytes, rich: bool) {
    && piece != []
    && forall rest: Bytes {:trigger piece + rest} ::
         DecodeEntry(piece + rest, [], rich).Ok? && DecodeEntry(piece + rest, [], rich).value.value.term == term
  }

  ghost predicate PartsGood(p: Parts, rich: bool, hasPositions: bool, h: Head) {
    && MarksIn0(p.marks, |p.ps|) && |p.terms| == |p.marks| && NonEmptyPieces(p.ps)
    && HeadSays(p.head, hasPositions, h)
    && |Laid(p.head, p.ps, OffsetsOf(p))| < TWO32
    && forall a: nat {:trigger Stands(p.ps[p.marks[a]], p.terms[a], rich)} :: a < |p.marks| ==>
         Stands(p.ps[p.marks[a]], p.terms[a], rich)
  }

  function OffsetsOf(p: Parts): seq<nat>
    requires MarksIn0(p.marks, |p.ps|)
  {
    Offsets(p.ps, |p.head|, p.marks)
  }

  function Whole(p: Parts): Bytes
    requires MarksIn0(p.marks, |p.ps|)
  {
    Laid(p.head, p.ps, OffsetsOf(p))
  }

  /** A piece that stands on its own decodes where an offset leads to it. */
  lemma {:induction false} ProbeGoodIf(c: Bytes, base: nat, begin: nat, offsets: seq<nat>, terms: seq<Bytes>, rich: bool, a: nat,
                                       piece: Bytes, rest: Bytes)
    requires |terms| == |offsets| && OffsetGood(c, base, begin, offsets, a, piece, rest) && Stands(piece, terms[a], rich)
    ensures ProbeGood(c, begin, offsets[a], rich, terms[a])
  {
  }

  lemma {:induction false} LaidProbe(head: Bytes, ps: seq<Bytes>, m: seq<nat>, offsets: seq<nat>, terms: seq<Bytes>, rich: bool, a: nat)
    requires MarksIn0(m, |ps|) && offsets == Offsets(ps, |head|, m) && NonEmptyPieces(ps) && a < |m| && |terms| == |m|
    requires |Laid(head, ps, offsets)| < TWO32 && Stands(ps[m[a]], terms[a], rich)
    ensures ProbeGood(Laid(head, ps, offsets), At(ps, |head|, |ps|), offsets[a], rich, terms[a])
  {
    LaidAnchor(head, ps, m, offsets, a);
    ProbeGoodIf(Laid(head, ps, offsets), |head|, At(ps, |head|, |ps|), offsets, terms, rich, a, ps[m[a]], Join(ps, m[a] + 1, |ps|));
  }

  lemma {:induction false} LaidWord(head: Bytes, ps: seq<Bytes>, m: seq<nat>, offsets: seq<nat>, a: nat)
    requires MarksIn0(m, |ps|) && offsets == Offsets(ps, |head|, m) && NonEmptyPieces(ps) && a < |m|
    requires |Laid(head, ps, offsets)| < TWO32
    ensures WordGood(Laid(head, ps, offsets), |head|, At(ps, |head|, |ps|), offsets, a)
  {
    LaidAnchor(head, ps, m, offsets, a);
  }

  lemma {:induction false} PartsWords(p: Parts)
    requires MarksIn0(p.marks, |p.ps|) && NonEmptyPieces(p.ps) && |Whole(p)| < TWO32
    ensures WordsGood(Whole(p), |p.head|, |Whole(p)| - 4 - 4 * |p.marks|, OffsetsOf(p))
  {
    var offsets, whole, begin := OffsetsOf(p), Whole(p), At(p.ps, |p.head|, |p.ps|);
    LaidCut(p.head, p.ps, offsets);
    forall a: nat | a < |p.marks| ensures WordGood(whole, |p.head|, begin, offsets, a) {
      LaidWord(p.head, p.ps, p.marks, offsets, a);
    }
  }

  lemma {:induction false} PartsProbes(p: Parts, rich: bool, hasPositions: bool, h: Head)
    requires PartsGood(p, rich, hasPositions, h)
    ensures ProbesGood(Whole(p), |Whole(p)| - 4 - 4 * |p.marks|, OffsetsOf(p), p.terms, rich)
  {
    var offsets, whole, begin := OffsetsOf(p), Whole(p), At(p.ps, |p.head|, |p.ps|);
    LaidCut(p.head, p.ps, offsets);
    forall a: nat | a < |p.marks| ensures ProbeGood(whole, begin, offsets[a], rich, p.terms[a]) {
      assert Stands(p.ps[p.marks[a]], p.terms[a], rich);
      LaidProbe(p.head, p.ps, p.marks, offsets, p.terms, rich, a);
    }
  }

  /** What opening learns before the table: header fields, where entries start, how many anchors. */
  datatype Frame = Frame(head: Head, base: nat, n: nat)

  function GetFrame(covered: Bytes, hasPositions: bool): (r: Result<Frame>)
    requires |covered| >= 4
    ensures r.Ok? ==> r.value.base + 4 * r.value.n + 4 <= |covered|
  {
    var head :- GetHead(covered, hasPositions);
    var count := LoadLe32(covered[|covered| - 4..]);
    var base := |covered| - |head.rest|;
    if base + 4 * count + 4 > |covered| then Error(Corruption("anchor table out of range"))
    else Ok(Frame(head.value, base, count))
  }

  lemma {:induction false} FrameOf(head: Bytes, area: Bytes, trailer: Bytes, n: nat, hasPositions: bool, h: Head)
    requires HeadSays(head, hasPositions, h) && |trailer| == 4 * n + 4 && LoadLe32(trailer[|trailer| - 4..]) == n
    ensures GetFrame(head + area + trailer, hasPositions) == Ok(Frame(h, |head|, n))
  {
    Cat2(head, area, trailer);
    LastFour(head + area, trailer);
    FrameFrom(head + area + trailer, hasPositions, h, area + trailer, n);
  }

  lemma {:induction false} LastFour(front: Bytes, trailer: Bytes)
    requires |trailer| >= 4
    ensures (front + trailer)[|front + trailer| - 4..] == trailer[|trailer| - 4..]
  {
  }

  lemma {:induction false} FrameFrom(c: Bytes, hasPositions: bool, h: Head, rest: Bytes, n: nat)
    requires |c| >= 4 && GetHead(c, hasPositions) == Ok(Read(h, rest)) && LoadLe32(c[|c| - 4..]) == n && 4 * n + 4 <= |rest| <= |c|
    ensures GetFrame(c, hasPositions) == Ok(Frame(h, |c| - |rest|, n))
  {
  }

  lemma {:induction false} TrailerCount(offsets: seq<nat>)
    requires |offsets| < TWO32
    ensures var t := Trailer(offsets); |t| == 4 * |offsets| + 4 && LoadLe32(t[|t| - 4..]) == |offsets|
  {
    Fixed32First(|offsets|, []);
    var t := Trailer(offsets);
    assert t[|t| - 4..] == Fixed32(|offsets|);
  }

  lemma {:induction false} PartsFrame(p: Parts, rich: bool, hasPositions: bool, h: Head)
    requires PartsGood(p, rich, hasPositions, h)
    ensures |Whole(p)| >= 4 && GetFrame(Whole(p), hasPositions) == Ok(Frame(h, |p.head|, |p.marks|))
  {
    var offsets := OffsetsOf(p);
    LaidCut(p.head, p.ps, offsets);
    TrailerCount(offsets);
    FrameOf(p.head, Join(p.ps, 0, |p.ps|), Trailer(offsets), |offsets|, hasPositions, h);
  }

  method ReadFrame(covered: Bytes, rich: bool, hasPositions: bool, ghost p: Parts, ghost h: Head, ghost good: bool) returns (r: Result<Frame>)
    requires |covered| >= 4 && (good ==> PartsGood(p, rich, hasPositions, h) && covered == Whole(p))
    ensures r.Ok? ==> r.value.base + 4 * r.value.n + 4 <= |covered|
    ensures good ==> r == Ok(Frame(h, |p.head|, |p.marks|))
  {
    if good {
      PartsFrame(p, rich, hasPositions, h);
    }
    r := GetFrame(covered, hasPositions);
  }

  /** The table of a good block, on its bytes. */
  lemma {:induction false} TableReady(covered: Bytes, begin: nat, rich: bool, hasPositions: bool, p: Parts, h: Head)
    requires PartsGood(p, rich, hasPositions, h) && covered == Whole(p) && begin + 4 * |p.marks| + 4 == |covered|
    ensures |OffsetsOf(p)| == |p.marks| && WordsGood(covered, |p.head|, begin, OffsetsOf(p)) && ProbesGood(covered, begin, OffsetsOf(p), p.terms, rich)
  {
    PartsWords(p);
    PartsProbes(p, rich, hasPositions, h);
  }

  method OpenCovered(covered: Bytes, rich: bool, hasPositions: bool, ghost p: Parts, ghost h: Head, ghost good: bool)
    returns (r: Result<Reader>)
    requires |covered| >= 4 && (good ==> PartsGood(p, rich, hasPositions, h) && covered == Whole(p))
    ensures r.Ok? ==> |r.value.anchorTerms| == |r.value.anchorOffsets|
    ensures good ==> r == Ok(Reader(covered, rich, h.bases.frq, h.bases.prx, h.nEntries, OffsetsOf(p), p.terms))
  {
    var frame := ReadFrame(covered, rich, hasPositions, p, h, good);
    if frame.Error? {
      return Error(frame.status);
    }
    var f := frame.value;
    var begin := |covered| - 4 - 4 * f.n;
    ghost var offsets := [];
    if good {
      TableReady(covered, begin, rich, hasPositions, p, h);
      offsets := OffsetsOf(p);
    }
    var anchors := ReadAnchors(covered, f.base, begin, f.n, rich, offsets, p.terms, good);
    if anchors.Error? {
      return Error(anchors.status);
    }
    r := Ok(Reader(covered, rich, f.head.bases.frq, f.head.bases.prx, f.head.nEntries, anchors.value.offsets, anchors.value.terms));
  }

  // ----- the parts of a built block

  function PartsOf(b: Block): Parts
    requires b.interval > 0
  {
    Parts(Header(b), Coded(b), MarksIn(b), AnchorTerms(b))
  }

  lemma {:induction false} AnchorStands(b: Block, a: nat)
    requires EntriesFit(b) && a < |MarksIn(b)|
    ensures var m := MarksIn(b); m[a] < |b.entries| && Stands(Coded(b)[m[a]], b.entries[m[a]].term, b.rich)
  {
    MarksAre(b.interval, |b.entries|);
    PieceDecodes(b, MarksIn(b)[a]);
  }

  lemma {:induction false} CoveredIsWhole(b: Block)
    requires b.interval > 0
    ensures MarksIn0(MarksIn(b), |Coded(b)|) && Covered(b) == Whole(PartsOf(b)) && AnchorOffsets(b) == OffsetsOf(PartsOf(b))
  {
    MarksAre(b.interval, |b.entries|);
  }

  lemma {:induction false} PartsOfBlock(b: Block)
    requires Carries(b)
    ensures PartsGood(PartsOf(b), b.rich, b.hasPositions, Head(|b.entries|, Bases(b.frqBase, b.prxBase)))
  {
    CoveredIsWhole(b);
    PiecesNonEmpty(b);
    forall rest: Bytes ensures GetHead(Header(b) + rest, b.hasPositions) == Ok(Read(Head(|b.entries|, Bases(b.frqBase, b.prxBase)), rest)) {
      HeadRoundTrip(b, rest);
    }
    forall a: nat | a < |MarksIn(b)| ensures Stands(Coded(b)[MarksIn(b)[a]], AnchorTerms(b)[a], b.rich) {
      AnchorStands(b, a);
    }
  }

  lemma {:induction false} BuiltReads(b: Block)
    requires EntriesFit(b)
    ensures Reads(Reader(Covered(b), b.rich, b.frqBase, b.prxBase, |b.entries|, AnchorOffsets(b), AnchorTerms(b)), b)
  {
    var r := Reader(Covered(b), b.rich, b.frqBase, b.prxBase, |b.entries|, AnchorOffsets(b), AnchorTerms(b));
    CoveredIsWhole(b);
    forall a: nat | a < |r.anchorOffsets| ensures SegmentGood(r, b, a) {
      MarksAre(b.interval, |b.entries|);
      LaidSegment(r, Header(b), Coded(b), MarksIn(b), a);
    }
  }

  lemma {:induction false} OpensTo(b: Block, block: Bytes, p: Parts, h: Head)
    requires Carries(b) && block == BlockBytes(b) && p == PartsOf(b) && h == Head(|b.entries|, Bases(b.frqBase, b.prxBase))
    ensures PartsGood(p, b.rich, b.hasPositions, h) && VerifyCrc(block) == Ok(Whole(p))
    ensures Reads(Reader(Whole(p), b.rich, h.bases.frq, h.bases.prx, h.nEntries, OffsetsOf(p), p.terms), b)
  {
    PartsOfBlock(b);
    CoveredIsWhole(b);
    LaidCut(p.head, p.ps, OffsetsOf(p));
    CrcAccepts(Covered(b));
    BuiltReads(b);
  }

  /** Opens a block: checksum, header, anchor table. */
  method Open(block: Bytes, rich: bool, hasPositions: bool, ghost b: Block) returns (r: Result<Reader>)
    ensures r.Ok? ==> |r.value.anchorTerms| == |r.value.anchorOffsets|
    ensures Carries(b) && block == BlockBytes(b) && b.rich == rich && b.hasPositions == hasPositions ==> r.Ok? && Reads(r.value, b)
  {
    ghost var good := Carries(b) && block == BlockBytes(b) && b.rich == rich && b.hasPositions == hasPositions;
    ghost var p, h := Parts([], [], [], []), Head(0, Bases(0, 0));
    if good {
      p, h := PartsOf(b), Head(|b.entries|, Bases(b.frqBase, b.prxBase));
      OpensTo(b, block, p, h);
    }
    var checked := VerifyCrc(block);
    if checked.Error? {
      return Error(checked.status);
    }
    r := OpenCovered(checked.value, rich, hasPositions, p, h, good);
  }
}
