/** The two regions of a posting window: docids as deltas from the previous window's last
    docid, and term frequencies, each as PFOR runs with its lengths and checksum held in
    the directory row. */
module FrqRegions {
  import opened Common
  import opened Varint
  import opened ByteStreams
  import opened Pfor
  import opened PforRuns
  import Crc32c

  const MAX_DOCS: nat := 0x100_0000
  const MAX_PLAIN: nat := 0x1000_0000

  /** What the directory row holds about a region. Regions of inline entries are not verified. */
  datatype RegionMeta = RegionMeta(zstd: bool, uncompLen: nat, diskLen: nat, crc: nat, verify: bool)
  datatype Region = Region(bytes: Bytes, meta: RegionMeta)

  /** Decompression of a region to a stated length; foreign to this model. */
  type Inflate = (Bytes, nat) -> Result<Bytes>

  /** The row of a region stored as it is. */
  function MetaOf(bytes: Bytes): RegionMeta {
    RegionMeta(false, |bytes|, |bytes|, Crc32c.Digest(bytes), true)
  }

  /** The row tells the truth about a region stored as it is. */
  ghost predicate Describes(meta: RegionMeta, bytes: Bytes) {
    !meta.zstd && meta.uncompLen == meta.diskLen == |bytes| && (meta.verify ==> meta.crc == Crc32c.Digest(bytes))
  }

  function OpenRegion(disk: Bytes, meta: RegionMeta, inflate: Inflate): Result<Bytes> {
    if |disk| != meta.diskLen then Error(Corruption("frq: region slice length mismatch"))
    else if meta.uncompLen > MAX_PLAIN then Error(Corruption("frq: region uncomp_len exceeds sane cap"))
    else if meta.verify && Crc32c.Digest(disk) != meta.crc then Error(Corruption("frq: region crc mismatch"))
    else if meta.zstd then inflate(disk, meta.uncompLen)
    else if meta.uncompLen != meta.diskLen then Error(Corruption("frq: raw region length inconsistent"))
    else Ok(disk)
  }

  // ----- docids

  function Before(docs: seq<nat>, base: nat, i: nat): nat
    requires i <= |docs|
  {
    if i == 0 then base else docs[i - 1]
  }

  predicate Rises(docs: seq<nat>, base: nat, i: nat)
    requires i < |docs|
  {
    Before(docs, base, i) <= docs[i]
  }

  /** Ascending from `base` on; equal neighbours are let through. */
  ghost predicate Climbs(docs: seq<nat>, base: nat) {
    forall i: nat {:trigger Rises(docs, base, i)} :: i < |docs| ==> Rises(docs, base, i)
  }

  function Delta(docs: seq<nat>, base: nat, i: nat): nat
    requires i < |docs| && Rises(docs, base, i)
  {
    docs[i] - Before(docs, base, i)
  }

  ghost function DocDeltas(docs: seq<nat>, base: nat): (r: seq<nat>)
    requires Climbs(docs, base)
    ensures |r| == |docs| && forall i: nat {:trigger r[i]} :: i < |docs| ==> Rises(docs, base, i) && r[i] == Delta(docs, base, i)
  {
    seq(|docs|, i requires 0 <= i < |docs| => assert Rises(docs, base, i); Delta(docs, base, i))
  }

  ghost predicate DdParts(bytes: Bytes, docs: seq<nat>, base: nat, runs: Bytes) {
    Climbs(docs, base) && bytes == Encode(|docs| % TWO32) + runs && Coded(runs, DocDeltas(docs, base))
  }

  /** The byte form of a window's docids. */
  ghost predicate IsDd(bytes: Bytes, docs: seq<nat>, base: nat) {
    exists runs :: DdParts(bytes, docs, base, runs)
  }

  method ValidateDocs(docs: seq<nat>, base: nat) returns (ok: bool)
    ensures ok == Climbs(docs, base)
  {
    if docs != [] && docs[0] < base {
      assert !Rises(docs, base, 0);
      return false;
    }
    var i := 1;
    while i < |docs|
      invariant i >= 1 && forall j: nat {:trigger Rises(docs, base, j)} :: j < i && j < |docs| ==> Rises(docs, base, j)
    {
      if docs[i] < docs[i - 1] {
        assert !Rises(docs, base, i);
        return false;
      }
      i := i + 1;
    }
    ok := true;
  }

  lemma {:induction false} DeltasFit(docs: seq<nat>, base: nat)
    requires Values(docs) && Climbs(docs, base)
    ensures Values(DocDeltas(docs, base))
  {
    var dd := DocDeltas(docs, base);
    forall i | 0 <= i < |dd| ensures dd[i] < TWO32 {
      assert dd[i] <= docs[i];
    }
  }

  method TakeDeltas(docs: seq<nat>, base: nat) returns (dd: seq<nat>)
    requires Values(docs) && Climbs(docs, base)
    ensures dd == DocDeltas(docs, base) && Values(dd)
  {
    dd := [];
    var prev := base;
    for i := 0 to |docs|
      invariant |dd| == i && prev == Before(docs, base, i)
      invariant forall j: nat {:trigger dd[j]} :: j < i ==> Rises(docs, base, j) && dd[j] == Delta(docs, base, j)
    {
      assert Rises(docs, base, i);
      dd, prev := dd + [docs[i] - prev], docs[i];
    }
    DeltasFit(docs, base);
  }

  /** Running sums from the base, cut to 32 bits. */
  method SumDeltas(dd: seq<nat>, base: nat, ghost docs: seq<nat>, ghost good: bool) returns (out: seq<nat>)
    requires good ==> Values(docs) && Climbs(docs, base) && dd == DocDeltas(docs, base)
    ensures |out| == |dd| && (good ==> out == docs)
  {
    out := [];
    var cur := base;
    for i := 0 to |dd|
      invariant |out| == i
      invariant good ==> out == docs[..i] && cur == Before(docs, base, i)
    {
      cur := cur + dd[i];
      out := out + [cur % TWO32];
    }
    assert good ==> docs[..|docs|] == docs;
  }

  /** Refused exactly when the docids do not climb from the base. */
  method BuildDdRegion(docs: seq<nat>, base: nat) returns (r: Result<Region>)
    requires Values(docs)
    ensures r.Ok? <==> Climbs(docs, base)
    ensures r.Ok? ==> IsDd(r.value.bytes, docs, base) && r.value.meta == MetaOf(r.value.bytes)
  {
    var ok := ValidateDocs(docs, base);
    if !ok {
      return Error(InvalidArgument("frq: docids must be ascending"));
    }
    var dd := TakeDeltas(docs, base);
    var runs := EncodeRuns(dd);
    var bytes := Encode(|docs| % TWO32) + runs;
    assert DdParts(bytes, docs, base, runs);
    r := Ok(Region(bytes, MetaOf(bytes)));
  }

  lemma {:induction false} DdHead(bytes: Bytes, docs: seq<nat>, base: nat, runs: Bytes)
    requires DdParts(bytes, docs, base, runs) && |docs| < TWO32
    ensures GetVarint32(bytes) == Ok(Read(|docs|, runs)) && runs + [] == runs
  {
    VarintFirst(|docs|, runs);
  }

  /** The document count is capped before anything is unpacked. */
  method DecodeDdPlain(plain: Bytes, base: nat, ghost docs: seq<nat>, ghost good: bool) returns (r: Result<seq<nat>>)
    requires good ==> Values(docs) && |docs| < TWO32 && IsDd(plain, docs, base)
    ensures good && |docs| <= MAX_DOCS ==> r == Ok(docs)
    ensures good && |docs| > MAX_DOCS ==> r.Error?
  {
    ghost var runs: Bytes, deltas: seq<nat> := [], [];
    if good {
      runs :| DdParts(plain, docs, base, runs);
      deltas := DocDeltas(docs, base);
      DeltasFit(docs, base);
      DdHead(plain, docs, base, runs);
    }
    var n := GetVarint32(plain);
    if n.Error? {
      return Error(n.status);
    }
    if n.value.value > MAX_DOCS {
      return Error(Corruption("frq: doc count exceeds sane cap"));
    }
    var dd := DecodeRuns(n.value.rest, n.value.value, deltas, runs, [], good);
    if dd.Error? {
      return Error(dd.status);
    }
    if dd.value.rest != [] {
      return Error(Corruption("frq: trailing bytes after dd region payload"));
    }
    var out := SumDeltas(dd.value.value, base, docs, good);
    r := Ok(out);
  }

  /** Restores the docids, unless the window is too large for the reader's caps. */
  method DecodeDdRegion(disk: Bytes, meta: RegionMeta, base: nat, inflate: Inflate, ghost docs: seq<nat>, ghost good: bool)
    returns (r: Result<seq<nat>>)
    requires good ==> Values(docs) && |docs| < TWO32 && IsDd(disk, docs, base) && Describes(meta, disk)
    ensures good && |docs| <= MAX_DOCS && |disk| <= MAX_PLAIN ==> r == Ok(docs)
    ensures good && !(|docs| <= MAX_DOCS && |disk| <= MAX_PLAIN) ==> r.Error?
  {
    var plain := OpenRegion(disk, meta, inflate);
    if plain.Error? {
      return Error(plain.status);
    }
    r := DecodeDdPlain(plain.value, base, docs, good);
  }

  /** A window of the writer never meets a cap. */
  lemma {:induction false} DdLength(bytes: Bytes, docs: seq<nat>, base: nat)
    requires Values(docs) && |docs| <= 1024 && IsDd(bytes, docs, base)
    ensures |bytes| <= 24630
  {
    var runs :| DdParts(bytes, docs, base, runs);
    RunsLength(runs, DocDeltas(docs, base));
    EncodedShort(|docs|);
  }

  // ----- frequencies

  method BuildFreqRegion(freqs: seq<nat>) returns (r: Region)
    requires Values(freqs)
    ensures Coded(r.bytes, freqs) && r.meta == MetaOf(r.bytes)
  {
    var bytes := EncodeRuns(freqs);
    r := Region(bytes, MetaOf(bytes));
  }

  method DecodeFreqRegion(disk: Bytes, meta: RegionMeta, docCount: nat, inflate: Inflate, ghost freqs: seq<nat>, ghost good: bool)
    returns (r: Result<seq<nat>>)
    requires good ==> Values(freqs) && docCount == |freqs| && Coded(disk, freqs) && Describes(meta, disk)
    ensures good && |disk| <= MAX_PLAIN ==> r == Ok(freqs)
    ensures good && |disk| > MAX_PLAIN ==> r.Error?
  {
    var plain := OpenRegion(disk, meta, inflate);
    if plain.Error? {
      return Error(plain.status);
    }
    if good {
      assert disk == disk + [];
      NoRunsEmpty(disk, freqs);
    }
    if docCount == 0 {
      if meta.uncompLen != 0 {
        return Error(Corruption("frq: empty freq region expected"));
      }
      return Ok([]);
    }
    var out := DecodeRuns(plain.value, docCount, freqs, disk, [], good);
    if out.Error? {
      return Error(out.status);
    }
    if out.value.rest != [] {
      return Error(Corruption("frq: trailing bytes after freq region payload"));
    }
    r := Ok(out.value.value);
  }

  lemma {:induction false} NoRunsEmpty(bytes: Bytes, vs: seq<nat>)
    requires Coded(bytes, vs)
    ensures vs == [] ==> bytes == []
  {
  }
}
