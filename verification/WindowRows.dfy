/** One row of the window directory: where a window's regions lie, and its extent. */
module WindowRows {
  import opened Common
  import opened Varint
  import opened ByteStreams
  import opened Pieces

  /** A region inside its block. */
  datatype Place = Place(off: nat, zstd: bool, diskLen: nat, uncompLen: nat, crc: nat)

  datatype WindowMeta = WindowMeta(
    lastDocid: nat, winBase: nat, docCount: nat,
    dd: Place, freq: Place, prxOff: nat, prxLen: nat,
    maxFreq: nat, maxNorm: byte)

  function NoPlace(): Place {
    Place(0, false, 0, 0, 0)
  }

  predicate PlaceFits(p: Place) {
    p.off < TWO64 && p.diskLen < TWO64 && p.uncompLen < TWO64 && p.crc < TWO32
  }

  /** Field widths; what the index does not carry is zero. */
  predicate RowFits(m: WindowMeta, hasFreq: bool, hasPrx: bool) {
    && m.lastDocid < TWO32 && m.docCount < TWO32 && m.maxFreq < TWO32
    && PlaceFits(m.dd) && (if hasFreq then PlaceFits(m.freq) else m.freq == NoPlace())
    && (if hasPrx then m.prxOff < TWO64 && m.prxLen < TWO64 else m.prxOff == 0 && m.prxLen == 0)
  }

  // ----- writing

  function Mode(m: WindowMeta, hasFreq: bool): byte {
    (if m.dd.zstd then 1 else 0) + (if hasFreq && m.freq.zstd then 2 else 0)
  }

  function PutHead(m: WindowMeta, hasFreq: bool, prev: nat): Bytes
    requires prev <= m.lastDocid
  {
    Encode(m.lastDocid - prev) + (Encode(m.docCount) + [Mode(m, hasFreq)])
  }

  function PutPlace(p: Place): Bytes {
    Encode(p.off) + (Encode(p.diskLen) + (Encode(p.uncompLen) + Fixed32(p.crc)))
  }

  function PutPrx(m: WindowMeta): Bytes {
    Encode(m.prxOff) + Encode(m.prxLen)
  }

  function PutTail(m: WindowMeta): Bytes {
    Encode(m.maxFreq) + [m.maxNorm]
  }

  /** The row, with its last docid relative to the previous window's. */
  function RowBytes(m: WindowMeta, hasFreq: bool, hasPrx: bool, prev: nat): Bytes
    requires prev <= m.lastDocid
  {
    PutHead(m, hasFreq, prev) + PutPlace(m.dd)
    + (if hasFreq then PutPlace(m.freq) else [])
    + (if hasPrx then PutPrx(m) else [])
    + PutTail(m)
  }

  // ----- reading

  datatype RowHead = RowHead(delta: nat, docCount: nat, mode: byte)

  method GetHead(src: Bytes, hasFreq: bool, ghost m: WindowMeta, ghost prev: nat, ghost rest: Bytes, ghost good: bool)
    returns (r: Result<Read<RowHead>>)
    requires good ==> prev <= m.lastDocid < TWO32 && m.docCount < TWO32 && src == PutHead(m, hasFreq, prev) + rest
    ensures r.Ok? ==> r.value.value.mode < 4
    ensures good ==> r == Ok(Read(RowHead(m.lastDocid - prev, m.docCount, Mode(m, hasFreq)), rest))
  {
    if good {
      var mode := [Mode(m, hasFreq)];
      Nest3(Encode(m.lastDocid - prev), Encode(m.docCount), mode, rest);
      VarintFirst(m.lastDocid - prev, Encode(m.docCount) + (mode + rest));
      VarintFirst(m.docCount, mode + rest);
      U8First(Mode(m, hasFreq), rest);
    }
    var delta := GetVarint64(src);
    if delta.Error? {
      return Error(delta.status);
    }
    var n := GetVarint64(delta.value.rest);
    if n.Error? {
      return Error(n.status);
    }
    var mode := GetU8(n.value.rest);
    if mode.Error? {
      return Error(mode.status);
    }
    if mode.value.value >= 4 {
      return Error(Corruption("frq_prelude: unknown win_mode bits"));
    }
    if !hasFreq && mode.value.value >= 2 {
      return Error(Corruption("frq_prelude: freq mode set without has_freq"));
    }
    r := Ok(Read(RowHead(delta.value.value, n.value.value, mode.value.value), mode.value.rest));
  }

  method GetPlace(src: Bytes, zstd: bool, ghost p: Place, ghost rest: Bytes, ghost good: bool) returns (r: Result<Read<Place>>)
    requires good ==> PlaceFits(p) && p.zstd == zstd && src == PutPlace(p) + rest
    ensures good ==> r == Ok(Read(p, rest))
  {
    if good {
      var a, b, c, d := Encode(p.off), Encode(p.diskLen), Encode(p.uncompLen), Fixed32(p.crc);
      Nest4(a, b, c, d, rest);
      VarintFirst(p.off, b + (c + (d + rest)));
      VarintFirst(p.diskLen, c + (d + rest));
      VarintFirst(p.uncompLen, d + rest);
      Fixed32First(p.crc, rest);
    }
    var off := GetVarint64(src);
    if off.Error? {
      return Error(off.status);
    }
    var disk := GetVarint64(off.value.rest);
    if disk.Error? {
      return Error(disk.status);
    }
    var uncomp := GetVarint64(disk.value.rest);
    if uncomp.Error? {
      return Error(uncomp.status);
    }
    var crc := GetFixed32(uncomp.value.rest);
    if crc.Error? {
      return Error(crc.status);
    }
    r := Ok(Read(Place(off.value.value, zstd, disk.value.value, uncomp.value.value, crc.value.value), crc.value.rest));
  }

  datatype Range = Range(off: nat, len: nat)

  method GetPrx(src: Bytes, ghost m: WindowMeta, ghost rest: Bytes, ghost good: bool) returns (r: Result<Read<Range>>)
    requires good ==> m.prxOff < TWO64 && m.prxLen < TWO64 && src == PutPrx(m) + rest
    ensures good ==> r == Ok(Read(Range(m.prxOff, m.prxLen), rest))
  {
    if good {
      Cat2(Encode(m.prxOff), Encode(m.prxLen), rest);
      VarintFirst(m.prxOff, Encode(m.prxLen) + rest);
      VarintFirst(m.prxLen, rest);
    }
    var off := GetVarint64(src);
    if off.Error? {
      return Error(off.status);
    }
    var len := GetVarint64(off.value.rest);
    if len.Error? {
      return Error(len.status);
    }
    r := Ok(Read(Range(off.value.value, len.value.value), len.value.rest));
  }

  datatype Peak = Peak(maxFreq: nat, maxNorm: byte)

  method GetTail(src: Bytes, ghost m: WindowMeta, ghost rest: Bytes, ghost good: bool) returns (r: Result<Read<Peak>>)
    requires good ==> m.maxFreq < TWO32 && src == PutTail(m) + rest
    ensures good ==> r == Ok(Read(Peak(m.maxFreq, m.maxNorm), rest))
  {
    if good {
      Cat2(Encode(m.maxFreq), [m.maxNorm], rest);
      VarintFirst(m.maxFreq, [m.maxNorm] + rest);
      U8First(m.maxNorm, rest);
    }
    var f := GetVarint64(src);
    if f.Error? {
      return Error(f.status);
    }
    var n := GetU8(f.value.rest);
    if n.Error? {
      return Error(n.status);
    }
    r := Ok(Read(Peak(f.value.value, n.value.value), n.value.rest));
  }

  datatype Regions = Regions(dd: Place, freq: Place, prx: Range)

  ghost function RegionBytes(m: WindowMeta, hasFreq: bool, hasPrx: bool, rest: Bytes): Bytes {
    PutPlace(m.dd) + ((if hasFreq then PutPlace(m.freq) else []) + ((if hasPrx then PutPrx(m) else []) + rest))
  }

  method GetRegions(src: Bytes, mode: byte, hasFreq: bool, hasPrx: bool, ghost m: WindowMeta, ghost rest: Bytes, ghost good: bool)
    returns (r: Result<Read<Regions>>)
    requires mode < 4
    requires good ==> RowFits(m, hasFreq, hasPrx) && mode == Mode(m, hasFreq) && src == RegionBytes(m, hasFreq, hasPrx, rest)
    ensures good ==> r == Ok(Read(Regions(m.dd, m.freq, Range(m.prxOff, m.prxLen)), rest))
  {
    ghost var afterFreq: Bytes := (if hasPrx then PutPrx(m) else []) + rest;
    ghost var afterDd: Bytes := (if hasFreq then PutPlace(m.freq) else []) + afterFreq;
    assert good && !hasFreq ==> afterDd == afterFreq;
    assert good && !hasPrx ==> afterFreq == rest;
    var dd := GetPlace(src, mode % 2 == 1, m.dd, afterDd, good);
    if dd.Error? {
      return Error(dd.status);
    }
    var freq := Read(NoPlace(), dd.value.rest);
    if hasFreq {
      var f := GetPlace(dd.value.rest, mode >= 2, m.freq, afterFreq, good);
      if f.Error? {
        return Error(f.status);
      }
      freq := f.value;
    }
    var prx := Read(Range(0, 0), freq.rest);
    if hasPrx {
      var p := GetPrx(freq.rest, m, rest, good);
      if p.Error? {
        return Error(p.status);
      }
      prx := p.value;
    }
    r := Ok(Read(Regions(dd.value.value, freq.value, prx.value), prx.rest));
  }

  lemma {:induction false} RowSplits(m: WindowMeta, hasFreq: bool, hasPrx: bool, prev: nat, rest: Bytes)
    requires prev <= m.lastDocid
    ensures RowBytes(m, hasFreq, hasPrx, prev) + rest == PutHead(m, hasFreq, prev) + RegionBytes(m, hasFreq, hasPrx, PutTail(m) + rest)
  {
    Cat5(PutHead(m, hasFreq, prev), PutPlace(m.dd), if hasFreq then PutPlace(m.freq) else [], if hasPrx then PutPrx(m) else [], PutTail(m), rest);
  }

  /** Docids, counts and frequencies are kept in 32 bits. */
  function Assemble(prev: nat, h: RowHead, g: Regions, t: Peak): WindowMeta {
    WindowMeta((prev + h.delta) % TWO32, prev, h.docCount % TWO32, g.dd, g.freq, g.prx.off, g.prx.len, t.maxFreq % TWO32, t.maxNorm)
  }

  lemma {:induction false} Assembled(m: WindowMeta, prev: nat, mode: byte)
    requires m.winBase == prev <= m.lastDocid < TWO32 && m.docCount < TWO32 && m.maxFreq < TWO32
    ensures Assemble(prev, RowHead(m.lastDocid - prev, m.docCount, mode), Regions(m.dd, m.freq, Range(m.prxOff, m.prxLen)), Peak(m.maxFreq, m.maxNorm)) == m
  {
  }

  /** Reads back the row just written, its base being the previous window's last docid. */
  method DecodeRow(src: Bytes, hasFreq: bool, hasPrx: bool, prev: nat, ghost m: WindowMeta, ghost rest: Bytes, ghost good: bool)
    returns (r: Result<Read<WindowMeta>>)
    requires good ==> RowFits(m, hasFreq, hasPrx) && m.winBase == prev <= m.lastDocid && src == RowBytes(m, hasFreq, hasPrx, prev) + rest
    ensures good ==> r == Ok(Read(m, rest))
  {
    ghost var afterRegions := if good then PutTail(m) + rest else [];
    ghost var afterHead := if good then RegionBytes(m, hasFreq, hasPrx, afterRegions) else [];
    if good {
      RowSplits(m, hasFreq, hasPrx, prev, rest);
    }
    var head := GetHead(src, hasFreq, m, prev, afterHead, good);
    if head.Error? {
      return Error(head.status);
    }
    var regions := GetRegions(head.value.rest, head.value.value.mode, hasFreq, hasPrx, m, afterRegions, good);
    if regions.Error? {
      return Error(regions.status);
    }
    var tail := GetTail(regions.value.rest, m, rest, good);
    if tail.Error? {
      return Error(tail.status);
    }
    if good {
      Assembled(m, prev, Mode(m, hasFreq));
    }
    r := Ok(Read(Assemble(prev, head.value.value, regions.value.value, tail.value.value), tail.value.rest));
  }
}
