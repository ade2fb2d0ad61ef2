/** Sample bytes of the formats. The round trips hold of any pair of coders that agree; these
    values fix which coders they are. */
module FormatSamples {
  import opened Common
  import opened Varint
  import opened ByteStreams
  import BitStrings
  import TermChain
  import Postings
  import Pfor
  import DictEntries
  import DictBlocks
  import SampledIndex
  import WindowRows
  import FrqPrelude
  import PrxWindows
  import PrxFrames
  import Crc32c
  import FrqRegions
  import PostingPool
  import SlimEntries
  import SpimiBuffer
  import WindowedLayout

  // ----- numbers

  /** Byte `i` holds digit `i` to the base 128, and its high bit says whether more follow. */
  lemma {:induction false} VarintDigits(v: nat, i: nat)
    requires i < |Encode(v)|
    ensures Encode(v)[i] as nat % 128 == v / Scale(i) % 128
    ensures Encode(v)[i] >= 128 <==> i + 1 < |Encode(v)|
  {
    if i > 0 {
      VarintDigits(v / 128, i - 1);
      DigitsFirst(v, Scale(i - 1));
    }
  }

  lemma {:induction false} DigitsFirst(v: nat, s: nat)
    requires s > 0
    ensures v / 128 / s == v / (128 * s)
  {
    var m := v / 128;
    var q := m / s;
    assert m == s * q + m % s;
    Times128(s, q);
    FrqPrelude.Quotient(v, 128 * s, q);
  }

  lemma {:induction false} Times128(s: nat, q: nat)
    ensures 128 * (s * q) == q * (128 * s)
  {
  }

  lemma {:induction false} NumberSample()
    ensures Encode(300) == [0xAC, 0x02] && Fixed32(0x0403_0201) == [1, 2, 3, 4]
    ensures Zigzag(0) == 0 && Zigzag(-1) == 1 && Zigzag(1) == 2 && Zigzag(-2) == 3
  {
    assert Encode(300) == [0xAC] + Encode(2);
  }

  // ----- a term's chain

  /** Document 5 at positions 3 and 4, then document 2 at position 0. */
  lemma {:induction false} ChainSample()
    ensures TermChain.EncodeFrom(TermChain.FRESH, [Postings.Tok(5, 3), Postings.Tok(5, 4), Postings.Tok(2, 0)], true) == [7, 10, 8, 1, 5]
  {
    var a, b, c := Postings.Tok(5, 3), Postings.Tok(5, 4), Postings.Tok(2, 0);
    var at5 := TermChain.Head(true, 5);
    assert TermChain.EncodeTok(TermChain.FRESH, a, true) == [7, 10];
    assert TermChain.EncodeTok(at5, b, true) == [8];
    assert TermChain.EncodeTok(at5, c, true) == [1, 5];
    assert [a, b, c][1..] == [b, c] && [b, c][1..] == [c] && [c][1..] == [];
    assert TermChain.EncodeFrom(TermChain.Head(true, 2), [], true) == [];
    assert TermChain.EncodeFrom(at5, [c], true) == [1, 5] + [];
    assert TermChain.EncodeFrom(at5, [b, c], true) == [8] + ([1, 5] + []);
  }

  // ----- the dictionary

  /** "apply" behind "apple": four bytes shared, one new. */
  lemma {:induction false} TermKeySample()
    ensures DictEntries.PutTermKey([0x61, 0x70, 0x70, 0x6C, 0x79], [0x61, 0x70, 0x70, 0x6C, 0x65]) == [4, 1, 0x79]
  {
    var t, p: Bytes := [0x61, 0x70, 0x70, 0x6C, 0x79], [0x61, 0x70, 0x70, 0x6C, 0x65];
    PrefixIs(t, p, 4);
    assert t[4..] == [0x79];
  }

  lemma {:induction false} PrefixIs(t: Bytes, p: Bytes, n: nat)
    requires n < |t| && n < |p| && t[..n] == p[..n] && t[n] != p[n]
    ensures DictEntries.CommonPrefixLen(t, p) == n
  {
    var m := DictEntries.CommonPrefixLen(t, p);
    SharedBelow(t, p, m);
    SharedBelow(t, p, n);
  }

  lemma {:induction false} SharedBelow(t: Bytes, p: Bytes, n: nat)
    requires n <= |t| && n <= |p| && t[..n] == p[..n]
    ensures forall i :: 0 <= i < n ==> t[i] == p[i]
  {
    assert forall i :: 0 <= i < n ==> t[..n][i] == p[..n][i];
  }

  /** A windowed entry: three flag bits, statistics, and spans into the posting region. */
  lemma {:induction false} WindowedEntrySample()
    ensures DictEntries.EncodeEntry(
              DictEntries.DictEntry([0x62], true, 9, Some(DictEntries.TermStats(20, 6)),
                                    DictEntries.PodRef(DictEntries.Span(11, 12), DictEntries.Windowed(13), Some(DictEntries.Span(14, 15)))),
              [0x61])
            == [12, 0, 1, 0x62, 6, 9, 20, 6, 11, 12, 13, 14, 15]
  {
    var l := DictEntries.PodRef(DictEntries.Span(11, 12), DictEntries.Windowed(13), Some(DictEntries.Span(14, 15)));
    var e := DictEntries.DictEntry([0x62], true, 9, Some(DictEntries.TermStats(20, 6)), l);
    assert DictEntries.PutTermKey(e.term, [0x61]) == [0, 1, 0x62];
    assert DictEntries.PutStats(9, e.stats) == [9, 20, 6];
    assert DictEntries.PutLocator(l) == [11, 12] + [13] + [14, 15];
    EntryOf(e, [0x61], [0, 1, 0x62], [9, 20, 6], [11, 12, 13, 14, 15]);
  }

  lemma {:induction false} EntryOf(e: DictEntries.DictEntry, prev: Bytes, key: Bytes, stats: Bytes, locator: Bytes)
    requires key == DictEntries.PutTermKey(e.term, prev) && stats == DictEntries.PutStats(e.df, e.stats)
    requires locator == DictEntries.PutLocator(e.locator) && |key| + 1 + |stats| + |locator| < 128
    ensures DictEntries.EncodeEntry(e, prev)
            == [(|key| + 1 + |stats| + |locator|) as byte] + (key + [DictEntries.PackFlags(e)] + stats + locator)
  {
  }

  /** An entry that holds its posting: bytes with their lengths, no checksums. */
  lemma {:induction false} InlineEntrySample()
    ensures DictEntries.EncodeEntry(
              DictEntries.DictEntry([0x62], false, 1, None,
                                    DictEntries.Inline(false, [7, 8], 2, DictEntries.Regions(DictEntries.Region(false, 2, 0), None), None)),
              [])
            == [11, 0, 1, 0x62, 1, 1, 2, 7, 8, 2, 0, 2]
  {
    var regions := DictEntries.Regions(DictEntries.Region(false, 2, 0), None);
    var l := DictEntries.Inline(false, [7, 8], 2, regions, None);
    var e := DictEntries.DictEntry([0x62], false, 1, None, l);
    assert DictEntries.PutTermKey(e.term, []) == [0, 1, 0x62];
    assert DictEntries.PutRegions(regions, false) == [0, 2];
    assert DictEntries.PutLocator(l) == [2, 7, 8] + [2] + [0, 2] + [];
    EntryOf(e, [], [0, 1, 0x62], [1], [2, 7, 8, 2, 0, 2]);
  }

  /** Two entries with positions, posting bases 5 and 6. */
  lemma {:induction false} BlockHeaderSample(e: DictEntries.DictEntry)
    ensures DictBlocks.Header(DictBlocks.Block(true, true, 5, 6, 16, [e, e])) == [2, 1, 1, 5, 6]
  {
  }

  /** The count, the two boundary keys, then every key against the one before. */
  lemma {:induction false} SampledSample()
    ensures SampledIndex.Payload([[0x61], [0x61, 0x62]]) == [2] + ([0, 1, 0x61] + ([0, 2, 0x61, 0x62] + ([0, 1, 0x61] + [1, 1, 0x62])))
  {
    var a, b: Bytes := [0x61], [0x61, 0x62];
    assert a[1..] == [] && b[1..] == [0x62];
    assert DictEntries.PutTermKey(a, []) == [0, 1, 0x61];
    assert DictEntries.PutTermKey(b, []) == [0, 2, 0x61, 0x62];
    assert DictEntries.CommonPrefixLen(b, a) == 1;
    assert DictEntries.PutTermKey(b, a) == [1, 1, 0x62];
    assert SampledIndex.Keys([a, b], 2) == [];
    assert SampledIndex.Keys([a, b], 1) == [1, 1, 0x62] + [];
  }

  // ----- postings

  /** One exception among zeros: width 0, the gap to it and its value. */
  lemma {:induction false} ExceptionSample()
    ensures Pfor.ExcOf([0, 0, 5], 0, 3) == [Pfor.Exc(2, 5)] && Pfor.PutExc([Pfor.Exc(2, 5)], 0) == [2, 5]
  {
    var vs := [0, 0, 5];
    assert Pfor.ExcOf(vs, 0, 0) == [] && Pfor.ExcOf(vs, 0, 1) == [] && Pfor.ExcOf(vs, 0, 2) == [];
    var exc := [Pfor.Exc(2, 5)];
    assert Pfor.PutExc(exc, 1) == [];
  }

  /** Four values of two bits, the first lowest: 1 + 3 * 4 + 2 * 16 + 0 * 64. */
  lemma {:induction false} PackedSample(packed: Bytes)
    requires Pfor.Packs(packed, Pfor.Stream([1, 3, 2, 0], 2, 4))
    ensures packed == [45]
  {
    StreamSample();
    assert packed == [packed[0]];
    OneByte(packed[0]);
    EightBits(packed[0] as nat, Pfor.Stream([1, 3, 2, 0], 2, 4));
  }

  lemma {:induction false} StreamSample()
    ensures Pfor.Stream([1, 3, 2, 0], 2, 4) == [true, false, true, true, false, true, false, false]
  {
    var vs := [1, 3, 2, 0];
    assert Pfor.Stream(vs, 2, 0) == [];
    assert Pfor.Stream(vs, 2, 1) == [true, false];
    assert Pfor.Stream(vs, 2, 2) == [true, false] + [true, true];
    assert Pfor.Stream(vs, 2, 3) == [true, false] + [true, true] + [false, true];
  }

  lemma {:induction false} OneByte(b: byte)
    ensures BitStrings.ByteBits([b]) == BitStrings.Bits(b as nat, 8)
  {
    assert [b][..0] == [];
  }

  lemma {:induction false} EightBits(n: nat, bits: seq<bool>)
    requires n < 256 && BitStrings.Bits(n, 8) == bits == [true, false, true, true, false, true, false, false]
    ensures n == 45
  {
    BitStrings.Pow8();
    BitStrings.ValOfBits(n, 8);
    assert bits[1..][1..][1..][1..][1..][1..] == [false, false];
    assert BitStrings.Val([false, false]) == 0;
    assert bits[1..][1..][1..][1..][1..] == [true, false, false];
    assert BitStrings.Val([true, false, false]) == 1;
    assert bits[1..][1..][1..][1..] == [false, true, false, false];
    assert BitStrings.Val([false, true, false, false]) == 2;
    assert bits[1..][1..][1..] == [true, false, true, false, false];
    assert BitStrings.Val(bits[1..][1..][1..]) == 5;
    assert BitStrings.Val(bits[1..][1..]) == 11;
    assert BitStrings.Val(bits[1..]) == 22;
  }

  /** A window's row: last docid as a step, count, codecs, two regions, positions, peaks. */
  lemma {:induction false} RowSample()
    ensures WindowRows.RowBytes(
              WindowRows.WindowMeta(30, 20, 4, WindowRows.Place(1, false, 2, 3, 0x0403_0201), WindowRows.Place(5, true, 6, 7, 0x0807_0605), 8, 9, 10, 11),
              true, true, 20)
            == [10, 4, 2] + [1, 2, 3, 1, 2, 3, 4] + [5, 6, 7, 5, 6, 7, 8] + [8, 9] + [10, 11]
  {
    var dd, freq := WindowRows.Place(1, false, 2, 3, 0x0403_0201), WindowRows.Place(5, true, 6, 7, 0x0807_0605);
    var m := WindowRows.WindowMeta(30, 20, 4, dd, freq, 8, 9, 10, 11);
    RowOf(m, WindowRows.PutHead(m, true, 20), WindowRows.PutPlace(dd), WindowRows.PutPlace(freq), WindowRows.PutPrx(m), WindowRows.PutTail(m));
    PlaceSamples();
    assert WindowRows.PutHead(m, true, 20) == [10, 4, 2];
    assert WindowRows.PutPrx(m) == [8, 9] && WindowRows.PutTail(m) == [10, 11];
  }

  lemma {:induction false} RowOf(m: WindowRows.WindowMeta, head: Bytes, dd: Bytes, freq: Bytes, prx: Bytes, tail: Bytes)
    requires 20 <= m.lastDocid && head == WindowRows.PutHead(m, true, 20) && dd == WindowRows.PutPlace(m.dd)
    requires freq == WindowRows.PutPlace(m.freq) && prx == WindowRows.PutPrx(m) && tail == WindowRows.PutTail(m)
    ensures WindowRows.RowBytes(m, true, true, 20) == head + dd + freq + prx + tail
  {
  }

  lemma {:induction false} PlaceSamples()
    ensures WindowRows.PutPlace(WindowRows.Place(1, false, 2, 3, 0x0403_0201)) == [1, 2, 3, 1, 2, 3, 4]
    ensures WindowRows.PutPlace(WindowRows.Place(5, true, 6, 7, 0x0807_0605)) == [5, 6, 7, 5, 6, 7, 8]
  {
    assert Fixed32(0x0403_0201) == [1, 2, 3, 4] && Fixed32(0x0807_0605) == [5, 6, 7, 8];
  }

  /** Flags, windows, windows a group, groups, and the length of the group rows. */
  lemma {:induction false} PreludeHeaderSample()
    ensures FrqPrelude.HeaderBytes(true, true, 65, 64, 2, 6) == [3, 65, 64, 2, 6]
  {
  }

  /** Codec, length, payload, and the checksum of the three. */
  lemma {:induction false} FrameSample(payload: byte)
    ensures PrxFrames.Frame(PrxWindows.PforCodec, [payload]) == [2, 1, payload] + Fixed32(Crc32c.Digest([2, 1, payload]))
    ensures PrxFrames.Frame(PrxWindows.Raw, [payload]) == [0, 1, payload] + Fixed32(Crc32c.Digest([0, 1, payload]))
  {
    assert PrxFrames.Covered(PrxWindows.PforCodec, [payload]) == [2, 1, payload];
    assert PrxFrames.Covered(PrxWindows.Raw, [payload]) == [0, 1, payload];
  }

  // ----- limits

  /** Terms of 8192 documents and more are cut into windows of 1024, others of 256. */
  lemma {:induction false} UnitSample()
    ensures WindowedLayout.Unit(8191) == 256 && WindowedLayout.Unit(8192) == 1024
  {
  }

  /** Where the writer changes form and what the readers take at most. */
  lemma {:induction false} LimitsByValue()
    ensures TermChain.SLIM_DF == 512 && TermChain.STREAM_TOKENS == 65536 && SlimEntries.INLINE_BYTES == 256 && WindowedLayout.GROUP == 64
    ensures FrqRegions.MAX_DOCS == FrqPrelude.MAX_WINDOWS == 16 * 1024 * 1024
    ensures FrqRegions.MAX_PLAIN == 256 * 1024 * 1024 && PrxWindows.MAX_POSITIONS == 64 * 1024 * 1024
    ensures SpimiBuffer.ARENA_CAP == 3584 * 1024 * 1024 && PostingPool.BLOCK == 32 * 1024
  {
  }
}
