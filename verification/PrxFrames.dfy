/** The plain-varint payload, the checksummed frame, and reading a position window of
    either codec. */
module PrxFrames {
  import opened Common
  import opened Varint
  import opened ByteStreams
  import opened Pieces
  import opened Pfor
  import opened FrqRegions
  import opened PostingCursor
  import opened PrxWindows
  import Crc32c

  // ----- varint lists

  ghost function PutVarints(vs: seq<nat>, i: nat): Bytes
    requires i <= |vs|
    decreases |vs| - i
  {
    if i == |vs| then [] else Encode(vs[i]) + PutVarints(vs, i + 1)
  }

  method WriteVarints(vs: seq<nat>) returns (bytes: Bytes)
    ensures bytes == PutVarints(vs, 0)
  {
    bytes := [];
    for i := 0 to |vs|
      invariant bytes + PutVarints(vs, i) == PutVarints(vs, 0)
    {
      JoinThree(bytes, Encode(vs[i]), PutVarints(vs, i + 1));
      bytes := bytes + Encode(vs[i]);
    }
    assert bytes + [] == bytes;
  }

  lemma {:induction false} JoinThree(a: Bytes, b: Bytes, c: Bytes)
    ensures a + (b + c) == (a + b) + c
  {
  }

  lemma {:induction false} NextVarint(vs: seq<nat>, i: nat, rest: Bytes)
    requires i < |vs| && Values(vs)
    ensures GetVarint32(PutVarints(vs, i) + rest) == Ok(Read(vs[i], PutVarints(vs, i + 1) + rest))
  {
    VarintFirst(vs[i], PutVarints(vs, i + 1) + rest);
    JoinThree(Encode(vs[i]), PutVarints(vs, i + 1), rest);
  }

  method ReadVarints(src: Bytes, n: nat, ghost vs: seq<nat>, ghost rest: Bytes, ghost good: bool) returns (r: Result<Read<seq<nat>>>)
    requires good ==> Values(vs) && n == |vs| && src == PutVarints(vs, 0) + rest
    ensures r.Ok? ==> |r.value.value| == n
    ensures good ==> r == Ok(Read(vs, rest))
  {
    var s, out: seq<nat> := src, [];
    for i := 0 to n
      invariant |out| == i
      invariant good ==> s == PutVarints(vs, i) + rest && out == vs[..i]
    {
      if good {
        NextVarint(vs, i, rest);
      }
      var v := GetVarint32(s);
      if v.Error? {
        return Error(v.status);
      }
      s, out := v.value.rest, out + [v.value.value];
    }
    assert good ==> vs[..|vs|] == vs && [] + rest == rest;
    r := Ok(Read(out, s));
  }

  // ----- the plain payload

  ghost predicate RawPiece(p: Bytes, list: seq<nat>) {
    ListGood(list) && p == Encode(|list|) + PutVarints(DocDeltas(list, 0), 0)
  }

  ghost predicate RawPieces(ps: seq<Bytes>, lists: seq<seq<nat>>, k: nat) {
    |ps| == k <= |lists| && forall d: nat {:trigger RawPiece(ps[d], lists[d])} :: d < k ==> RawPiece(ps[d], lists[d])
  }

  ghost predicate RawParts(bytes: Bytes, lists: seq<seq<nat>>, ps: seq<Bytes>) {
    RawPieces(ps, lists, |lists|) && bytes == Encode(Low32(|lists|)) + Join(ps, 0, |ps|)
  }

  ghost predicate IsRaw(bytes: Bytes, lists: seq<seq<nat>>) {
    exists ps :: RawParts(bytes, lists, ps)
  }

  lemma {:induction false} RawSnoc(ps: seq<Bytes>, lists: seq<seq<nat>>, p: Bytes)
    requires |ps| < |lists| && RawPieces(ps, lists, |ps|) && RawPiece(p, lists[|ps|])
    ensures RawPieces(ps + [p], lists, |ps| + 1) && Join(ps + [p], 0, |ps| + 1) == Join(ps, 0, |ps|) + p
  {
    var more := ps + [p];
    forall d: nat | d < |more| ensures RawPiece(more[d], lists[d]) {
      if d < |ps| {
        assert RawPiece(ps[d], lists[d]);
      }
    }
    JoinGrows(ps, p, |ps|);
    JoinSnoc(more, |ps|);
  }

  lemma {:induction false} RawGood(ps: seq<Bytes>, lists: seq<seq<nat>>, k: nat)
    requires RawPieces(ps, lists, k)
    ensures GoodUpTo(lists, k)
  {
    forall d: nat | d < k ensures ListGood(lists[d]) {
      assert RawPiece(ps[d], lists[d]);
    }
  }

  /** Refused exactly when the packed encoder refuses. */
  method EncodeRaw(flat: seq<nat>, freqs: seq<nat>) returns (r: Result<Bytes>)
    requires Values(flat) && Values(freqs)
    ensures r.Ok? <==> Ordered(flat, freqs)
    ensures r.Ok? ==> IsRaw(r.value, Lists(flat, freqs))
  {
    var total := TotalOf(freqs);
    if total != |flat| {
      return Error(InvalidArgument("prx: sum(freqs) does not match positions_flat size"));
    }
    ghost var lists := Lists(flat, freqs);
    ghost var ps: seq<Bytes> := [];
    var body: Bytes, off := [], 0;
    for d := 0 to |freqs|
      invariant off == Sum(freqs, d) && RawPieces(ps, lists, d) && body == Join(ps, 0, d)
    {
      var next := NextDeltas(flat, freqs, d, off);
      assert lists[d] == ListAt(flat, freqs, d);
      if next.None? {
        assert !ListGood(lists[d]);
        return Error(InvalidArgument("prx: positions within a doc must be ascending"));
      }
      var deltas := WriteVarints(next.value);
      var piece := Encode(freqs[d]) + deltas;
      RawSnoc(ps, lists, piece);
      ps := ps + [piece];
      body, off := body + piece, off + freqs[d];
    }
    RawGood(ps, lists, |freqs|);
    r := Ok(Encode(Low32(|freqs|)) + body);
    assert RawParts(r.value, lists, ps);
  }

  /** One document: its count, held to what room is left, then its deltas. */
  method ReadRawDoc(src: Bytes, room: Option<nat>, ghost list: seq<nat>, ghost p: Bytes, ghost rest: Bytes, ghost good: bool)
    returns (r: Result<Read<seq<nat>>>)
    requires good ==> RawPiece(p, list) && |list| < TWO32 && src == p + rest
    ensures r.Ok? && room.Some? ==> |r.value.value| <= room.value
    ensures good && (room.None? || |list| <= room.value) ==> r == Ok(Read(list, rest))
    ensures good && room.Some? && |list| > room.value ==> r.Error?
  {
    ghost var dd: seq<nat> := [];
    if good {
      dd := DocDeltas(list, 0);
      DeltasFit(list, 0);
      JoinThree(Encode(|list|), PutVarints(dd, 0), rest);
      VarintFirst(|list|, PutVarints(dd, 0) + rest);
    }
    var n := GetVarint32(src);
    if n.Error? {
      return Error(n.status);
    }
    if room.Some? && n.value.value > room.value {
      return Error(Corruption("prx: position count exceeds sane cap"));
    }
    var deltas := ReadVarints(n.value.rest, n.value.value, dd, rest, good);
    if deltas.Error? {
      return Error(deltas.status);
    }
    var out := SumDeltas(deltas.value.value, 0, list, good);
    r := Ok(Read(out, deltas.value.rest));
  }

  method ReadRawCount(plain: Bytes, ghost n: nat, ghost body: Bytes, ghost good: bool) returns (r: Result<Read<nat>>)
    requires good ==> n <= MAX_DOCS && plain == Encode(n) + body
    ensures good ==> r == Ok(Read(n, body))
  {
    if good {
      VarintFirst(n, body);
    }
    var c := GetVarint32(plain);
    if c.Error? {
      return Error(c.status);
    }
    if c.value.value > MAX_DOCS {
      return Error(Corruption("prx: doc count exceeds sane cap"));
    }
    r := c;
  }

  /** Where reading stands before document `d`. */
  ghost predicate RawAt(s: Bytes, lists: seq<seq<nat>>, ps: seq<Bytes>, d: nat) {
    RawPieces(ps, lists, |lists|) && Values(Counts(lists)) && d <= |ps| && s == Join(ps, d, |ps|)
  }

  lemma {:induction false} RawNext(s: Bytes, lists: seq<seq<nat>>, ps: seq<Bytes>, d: nat)
    requires RawAt(s, lists, ps, d) && d < |lists|
    ensures RawPiece(ps[d], lists[d]) && |lists[d]| < TWO32 && s == ps[d] + Join(ps, d + 1, |ps|) && RawAt(Join(ps, d + 1, |ps|), lists, ps, d + 1)
  {
    assert Counts(lists)[d] < TWO32;
  }

  method DecodeRaw(plain: Bytes, ghost lists: seq<seq<nat>>, ghost good: bool) returns (r: Result<seq<seq<nat>>>)
    requires good ==> |lists| <= MAX_DOCS && Values(Counts(lists)) && IsRaw(plain, lists)
    ensures good ==> r == Ok(lists)
  {
    ghost var ps: seq<Bytes> := [];
    if good {
      ps :| RawParts(plain, lists, ps);
    }
    var n := ReadRawCount(plain, |lists|, Join(ps, 0, |ps|), good);
    if n.Error? {
      return Error(n.status);
    }
    var s, out: seq<seq<nat>> := n.value.rest, [];
    for d := 0 to n.value.value
      invariant good ==> RawAt(s, lists, ps, d) && out == lists[..d]
    {
      ghost var list: seq<nat>, p: Bytes, rest: Bytes := [], [], [];
      if good {
        RawNext(s, lists, ps, d);
        list, p, rest := lists[d], ps[d], Join(ps, d + 1, |ps|);
      }
      var doc := ReadRawDoc(s, None, list, p, rest, good);
      if doc.Error? {
        return Error(doc.status);
      }
      s, out := doc.value.rest, out + [doc.value.value];
    }
    if s != [] {
      return Error(Corruption("prx: trailing bytes after payload"));
    }
    assert good ==> lists[..|lists|] == lists;
    r := Ok(out);
  }

  /** The flat form also holds the running position count to its cap. */
  method DecodeRawCsr(plain: Bytes, ghost lists: seq<seq<nat>>, ghost good: bool) returns (r: Result<Flattened>)
    requires good ==> |lists| <= MAX_DOCS && Values(Counts(lists)) && IsRaw(plain, lists)
    ensures good && Sane(lists) ==> r.Ok? && Csr(lists, r.value.flat, r.value.off)
    ensures good && !Sane(lists) ==> r.Error?
  {
    ghost var ps: seq<Bytes> := [];
    if good {
      ps :| RawParts(plain, lists, ps);
    }
    var n := ReadRawCount(plain, |lists|, Join(ps, 0, |ps|), good);
    if n.Error? {
      return Error(n.status);
    }
    var s, flat: seq<nat>, offs: seq<nat> := n.value.rest, [], [0];
    for d := 0 to n.value.value
      invariant |flat| <= MAX_POSITIONS
      invariant good ==> RawAt(s, lists, ps, d) && Csr(lists[..d], flat, offs) && offs[d] == |flat| == Sum(Counts(lists), d)
    {
      ghost var list: seq<nat>, p: Bytes, rest: Bytes := [], [], [];
      if good {
        RawNext(s, lists, ps, d);
        list, p, rest := lists[d], ps[d], Join(ps, d + 1, |ps|);
        assert lists[..d + 1] == lists[..d] + [list];
        CsrSnoc(lists[..d], flat, offs, list);
        SumMono(Counts(lists), d + 1, |lists|);
      }
      var doc := ReadRawDoc(s, Some(MAX_POSITIONS - |flat|), list, p, rest, good);
      if doc.Error? {
        return Error(doc.status);
      }
      s, flat := doc.value.rest, flat + doc.value.value;
      offs := offs + [|flat|];
    }
    if s != [] {
      return Error(Corruption("prx: trailing bytes after payload"));
    }
    assert good ==> lists[..|lists|] == lists;
    r := Ok(Flattened(flat, offs));
  }

  // ----- frames

  function CodecByte(c: Codec): byte {
    match c
    case Raw => 0
    case Zstd => 1
    case PforCodec => 2
  }

  function Covered(c: Codec, payload: Bytes): Bytes {
    [CodecByte(c)] + (Encode(Low32(|payload|)) + payload)
  }

  /** Codec, length and payload, then their checksum. */
  function Frame(c: Codec, payload: Bytes): Bytes {
    Covered(c, payload) + Fixed32(Crc32c.Digest(Covered(c, payload)))
  }

  datatype Framed = Framed(codec: Codec, uncompLen: nat, payload: Bytes)
  datatype FrameHead = FrameHead(codec: Codec, uncompLen: nat, payloadLen: nat, rest: Bytes)

  method ReadFrameHead(src: Bytes, ghost c: Codec, ghost n: nat, ghost body: Bytes, ghost good: bool) returns (r: Result<FrameHead>)
    requires good ==> !c.Zstd? && n < TWO32 && src == [CodecByte(c)] + (Encode(n) + body)
    ensures r.Ok? ==> |r.value.rest| <= |src|
    ensures good ==> if n > MAX_PLAIN then r.Error? else r == Ok(FrameHead(c, n, n, body))
  {
    if good {
      U8First(CodecByte(c), Encode(n) + body);
      VarintFirst(n, body);
    }
    var b := GetU8(src);
    if b.Error? {
      return Error(b.status);
    }
    if b.value.value > 2 {
      return Error(Corruption("prx: unknown codec"));
    }
    var codec := if b.value.value == 0 then Raw else if b.value.value == 1 then Zstd else PforCodec;
    var len := GetVarint32(b.value.rest);
    if len.Error? {
      return Error(len.status);
    }
    if len.value.value > MAX_PLAIN {
      return Error(Corruption("prx: uncomp_len exceeds sane window cap"));
    }
    if codec == Zstd {
      var comp := GetVarint32(len.value.rest);
      if comp.Error? {
        return Error(comp.status);
      }
      return Ok(FrameHead(codec, len.value.value, comp.value.value, comp.value.rest));
    }
    r := Ok(FrameHead(codec, len.value.value, len.value.value, len.value.rest));
  }

  lemma {:induction false} FrameSplits(c: Codec, payload: Bytes, rest: Bytes)
    ensures var crc := Fixed32(Crc32c.Digest(Covered(c, payload)));
            && Frame(c, payload) + rest == [CodecByte(c)] + (Encode(Low32(|payload|)) + (payload + (crc + rest)))
            && (Frame(c, payload) + rest)[..|Frame(c, payload) + rest| - |crc + rest|] == Covered(c, payload)
  {
    var covered, crc := Covered(c, payload), Fixed32(Crc32c.Digest(Covered(c, payload)));
    var all := Frame(c, payload) + rest;
    assert all == covered + (crc + rest);
    assert all[..|covered|] == covered;
  }

  /** The frame at the front of the source, its checksum verified. */
  method ReadFramed(src: Bytes, ghost c: Codec, ghost payload: Bytes, ghost rest: Bytes, ghost good: bool) returns (r: Result<Framed>)
    requires good ==> !c.Zstd? && |payload| < TWO32 && src == Frame(c, payload) + rest
    ensures good ==> if |payload| > MAX_PLAIN then r.Error? else r == Ok(Framed(c, |payload|, payload))
  {
    ghost var crc := Fixed32(Crc32c.Digest(Covered(c, payload)));
    if good {
      FrameSplits(c, payload, rest);
      BytesFirst(payload, crc + rest);
      Crc32c.DigestFits(Covered(c, payload));
      Fixed32First(Crc32c.Digest(Covered(c, payload)), rest);
    }
    var h := ReadFrameHead(src, c, |payload|, payload + (crc + rest), good);
    if h.Error? {
      return Error(h.status);
    }
    var body := GetBytes(h.value.rest, h.value.payloadLen);
    if body.Error? {
      return Error(body.status);
    }
    var stored := GetFixed32(body.value.rest);
    if stored.Error? {
      return Error(stored.status);
    }
    if Crc32c.Digest(src[..|src| - |body.value.rest|]) != stored.value.value {
      return Error(Corruption("prx: window crc mismatch"));
    }
    r := Ok(Framed(h.value.codec, h.value.uncompLen, body.value.value));
  }

  // ----- windows

  ghost predicate PayloadIs(c: Codec, payload: Bytes, lists: seq<seq<nat>>) {
    (c.Raw? && IsRaw(payload, lists)) || (c.PforCodec? && IsPacked(payload, lists))
  }

  /** The byte form of a window of position lists. */
  ghost predicate IsWindow(bytes: Bytes, lists: seq<seq<nat>>, c: Codec, payload: Bytes) {
    bytes == Frame(c, payload) && PayloadIs(c, payload, lists)
  }

  /** The writer packs; the plain form is written on request. */
  method BuildPrxWindow(flat: seq<nat>, freqs: seq<nat>, plain: bool) returns (r: Result<Bytes>, ghost payload: Bytes)
    requires Values(flat) && Values(freqs)
    ensures r.Ok? <==> Ordered(flat, freqs)
    ensures r.Ok? ==> IsWindow(r.value, Lists(flat, freqs), if plain then Raw else PforCodec, payload)
  {
    payload := [];
    var p;
    if plain {
      p := EncodeRaw(flat, freqs);
    } else {
      p := EncodePacked(flat, freqs);
    }
    if p.Error? {
      r := Error(p.status);
      return;
    }
    payload := p.value;
    r := Ok(Frame(if plain then Raw else PforCodec, p.value));
  }

  /** What a reader of separate lists accepts. */
  ghost predicate Readable(lists: seq<seq<nat>>, c: Codec, payload: Bytes) {
    |payload| <= MAX_PLAIN && (c.PforCodec? ==> Sane(lists))
  }

  /** Restores the lists, or reports an error exactly when a cap is exceeded. */
  method ReadPrxWindow(src: Bytes, inflate: Inflate, ghost lists: seq<seq<nat>>, ghost c: Codec, ghost payload: Bytes, ghost good: bool)
    returns (r: Result<seq<seq<nat>>>)
    requires good ==> |lists| <= MAX_DOCS && Values(Counts(lists)) && |payload| < TWO32 && IsWindow(src, lists, c, payload)
    ensures good ==> if Readable(lists, c, payload) then r == Ok(lists) else r.Error?
  {
    assert good ==> src == Frame(c, payload) + [];
    var f := ReadFramed(src, c, payload, [], good);
    if f.Error? {
      return Error(f.status);
    }
    match f.value.codec {
      case PforCodec =>
        r := DecodePacked(f.value.payload, lists, good);
      case Raw =>
        r := DecodeRaw(f.value.payload, lists, good);
      case Zstd =>
        var plain := inflate(f.value.payload, f.value.uncompLen);
        if plain.Error? {
          return Error(plain.status);
        }
        r := DecodeRaw(plain.value, [], false);
    }
  }

  /** The flat form: the same lists, cut by offsets. */
  method ReadPrxWindowCsr(src: Bytes, inflate: Inflate, ghost lists: seq<seq<nat>>, ghost c: Codec, ghost payload: Bytes, ghost good: bool)
    returns (r: Result<Flattened>)
    requires good ==> |lists| <= MAX_DOCS && Values(Counts(lists)) && |payload| < TWO32 && IsWindow(src, lists, c, payload)
    ensures good ==> if |payload| <= MAX_PLAIN && Sane(lists) then r.Ok? && Csr(lists, r.value.flat, r.value.off) else r.Error?
  {
    assert good ==> src == Frame(c, payload) + [];
    var f := ReadFramed(src, c, payload, [], good);
    if f.Error? {
      return Error(f.status);
    }
    match f.value.codec {
      case PforCodec =>
        r := DecodePackedCsr(f.value.payload, lists, good);
      case Raw =>
        r := DecodeRawCsr(f.value.payload, lists, good);
      case Zstd =>
        var plain := inflate(f.value.payload, f.value.uncompLen);
        if plain.Error? {
          return Error(plain.status);
        }
        r := DecodeRawCsr(plain.value, [], false);
    }
  }
}
