/** A dictionary block: header, front-coded entries restarting at every anchor, the anchor
    offset table and a checksum. */
module DictBlocks {
  import opened Common
  import opened Varint
  import opened ByteStreams
  import opened DictEntries
  import opened Pieces
  import Crc32c

  datatype Block = Block(rich: bool, hasPositions: bool, frqBase: nat, prxBase: nat, interval: nat, entries: seq<DictEntry>)

  const FORMAT_VER: byte := 1

  // ----- anchors

  predicate IsAnchor(i: nat, interval: nat)
    requires interval > 0
  {
    i == 0 || i % interval == 0
  }

  /** The anchors among the first `n` entries. */
  function Marks(interval: nat, n: nat): seq<nat>
    requires interval > 0
  {
    if n == 0 then [] else Marks(interval, n - 1) + if IsAnchor(n - 1, interval) then [n - 1] else []
  }

  function SegmentEnd(m: seq<nat>, a: nat, n: nat): nat
    requires a < |m|
  {
    if a + 1 < |m| then m[a + 1] else n
  }

  /** No anchor inside segment `a`. */
  ghost predicate Unbroken(m: seq<nat>, a: nat, interval: nat, n: nat)
    requires interval > 0 && a < |m|
  {
    forall i: nat {:trigger IsAnchor(i, interval)} :: m[a] < i < SegmentEnd(m, a, n) ==> !IsAnchor(i, interval)
  }

  /** `m` lists the anchors below `n`: ascending, from 0, with unbroken segments between. */
  ghost predicate MarksOf(m: seq<nat>, interval: nat, n: nat)
    requires interval > 0
  {
    && (forall a :: 0 <= a < |m| ==> m[a] < n && IsAnchor(m[a], interval))
    && (forall a, c :: 0 <= a < c < |m| ==> m[a] < m[c])
    && (n > 0 ==> m != [] && m[0] == 0)
    && (forall a: nat {:trigger Unbroken(m, a, interval, n)} :: a < |m| ==> Unbroken(m, a, interval, n))
  }

  lemma {:induction false} MarksAre(interval: nat, n: nat)
    requires interval > 0
    ensures MarksOf(Marks(interval, n), interval, n)
  {
    if n > 0 {
      MarksAre(interval, n - 1);
      MarkNext(Marks(interval, n - 1), interval, n - 1);
    }
  }

  lemma {:induction false} MarkNext(m: seq<nat>, interval: nat, n: nat)
    requires interval > 0 && MarksOf(m, interval, n)
    ensures MarksOf(m + if IsAnchor(n, interval) then [n] else [], interval, n + 1)
  {
    var m' := m + if IsAnchor(n, interval) then [n] else [];
    var n' := n + 1;
    forall a: nat | a < |m'| ensures Unbroken(m', a, interval, n') {
      if a < |m| {
        assert Unbroken(m, a, interval, n);
      }
    }
  }

  // ----- the bytes of a block

  /** The term entry `i` is coded against: none for an anchor. */
  function PrevOf(b: Block, i: nat): Bytes
    requires b.interval > 0 && i < |b.entries|
  {
    if IsAnchor(i, b.interval) then [] else b.entries[i - 1].term
  }

  function Coded(b: Block): (r: seq<Bytes>)
    requires b.interval > 0
    ensures |r| == |b.entries| && forall i :: 0 <= i < |r| ==> r[i] == EncodeEntry(b.entries[i], PrevOf(b, i))
  {
    seq(|b.entries|, i requires 0 <= i < |b.entries| => EncodeEntry(b.entries[i], PrevOf(b, i)))
  }

  function PrxBase(b: Block): Bytes {
    if b.hasPositions then Encode(b.prxBase) else []
  }

  function Header(b: Block): Bytes {
    Encode(|b.entries|) + [FORMAT_VER] + [if b.hasPositions then 1 else 0] + Encode(b.frqBase) + PrxBase(b)
  }

  /** The byte offset of each mark. */
  function Offsets(ps: seq<Bytes>, base: nat, marks: seq<nat>): (r: seq<nat>)
    requires forall a :: 0 <= a < |marks| ==> marks[a] < |ps|
    ensures |r| == |marks| && forall a :: 0 <= a < |marks| ==> r[a] == At(ps, base, marks[a])
  {
    seq(|marks|, a requires 0 <= a < |marks| => At(ps, base, marks[a]))
  }

  function Table(offsets: seq<nat>): (r: Bytes)
    ensures |r| == 4 * |offsets|
  {
    if offsets == [] then [] else Table(offsets[..|offsets| - 1]) + Fixed32(offsets[|offsets| - 1])
  }

  function AnchorOffsets(b: Block): (r: seq<nat>)
    requires b.interval > 0
    ensures |r| == |Marks(b.interval, |b.entries|)|
  {
    MarksAre(b.interval, |b.entries|);
    Offsets(Coded(b), |Header(b)|, Marks(b.interval, |b.entries|))
  }

  function Trailer(offsets: seq<nat>): Bytes {
    Table(offsets) + Fixed32(|offsets|)
  }

  /** Everything the checksum covers. */
  function Covered(b: Block): Bytes
    requires b.interval > 0
  {
    Header(b) + Join(Coded(b), 0, |Coded(b)|) + Trailer(AnchorOffsets(b))
  }

  function BlockBytes(b: Block): Bytes
    requires b.interval > 0
  {
    Covered(b) + Fixed32(Crc32c.Digest(Covered(b)))
  }

  // ----- building

  method PutTable(offsets: seq<nat>) returns (trailer: Bytes)
    ensures trailer == Trailer(offsets)
  {
    var table := [];
    for a := 0 to |offsets|
      invariant table == Table(offsets[..a])
    {
      assert offsets[..a + 1][..a] == offsets[..a];
      table := table + Fixed32(offsets[a]);
    }
    assert offsets[..|offsets|] == offsets;
    trailer := table + Fixed32(|offsets|);
  }

  method Finish(b: Block) returns (bytes: Bytes)
    requires b.interval > 0
    ensures bytes == BlockBytes(b)
  {
    var head := Header(b);
    var area, offsets := CodeEntries(b, |head|, Coded(b));
    NotedAll(b, offsets);
    var trailer := PutTable(offsets);
    var body := head + area + trailer;
    bytes := body + Fixed32(Crc32c.Digest(body));
  }

  lemma {:induction false} NotedAll(b: Block, offsets: seq<nat>)
    requires b.interval > 0 && NotedUpTo(Coded(b), |Header(b)|, b.interval, |b.entries|, offsets)
    ensures offsets == AnchorOffsets(b)
  {
    MarksAre(b.interval, |b.entries|);
  }

  ghost predicate PieceIs(b: Block, ps: seq<Bytes>, i: nat)
    requires b.interval > 0 && |ps| == |b.entries| && i < |ps|
  {
    ps[i] == Coded(b)[i]
  }

  ghost predicate AllPieces(b: Block, ps: seq<Bytes>) {
    && b.interval > 0 && |ps| == |b.entries|
    && forall i: nat {:trigger PieceIs(b, ps, i)} :: i < |ps| ==> PieceIs(b, ps, i)
  }

  method CodeOne(b: Block, i: nat, prev: Bytes, ghost ps: seq<Bytes>) returns (piece: Bytes)
    requires AllPieces(b, ps) && i < |ps|
    requires prev == if IsAnchor(i, b.interval) then [] else b.entries[i - 1].term
    ensures piece == ps[i]
  {
    assert PieceIs(b, ps, i);
    piece := EncodeEntry(b.entries[i], prev);
  }

  /** Codes entry after entry, noting where each anchor starts. */
  method CodeEntries(b: Block, base: nat, ghost ps: seq<Bytes>) returns (area: Bytes, offsets: seq<nat>)
    requires AllPieces(b, ps)
    ensures area == Join(ps, 0, |ps|) && NotedUpTo(ps, base, b.interval, |ps|, offsets)
  {
    area, offsets := [], [];
    var prev: Bytes := [];
    for i := 0 to |b.entries|
      invariant area == Join(ps, 0, i) && NotedUpTo(ps, base, b.interval, i, offsets)
      invariant i > 0 ==> prev == b.entries[i - 1].term
    {
      var anchor, here: nat := IsAnchor(i, b.interval), base + |area|;
      var noted := if anchor then offsets + [here] else offsets;
      NoteNext(ps, base, b.interval, i, offsets, noted);
      JoinSnoc(ps, i);
      var piece := CodeOne(b, i, if anchor then [] else prev, ps);
      area := area + piece;
      prev, offsets := b.entries[i].term, noted;
    }
  }

  ghost predicate NotedUpTo(ps: seq<Bytes>, base: nat, interval: nat, i: nat, offsets: seq<nat>)
    requires interval > 0 && i <= |ps|
  {
    var m := Marks(interval, i);
    |offsets| == |m| && forall a :: 0 <= a < |m| ==> m[a] < i && offsets[a] == At(ps, base, m[a])
  }

  lemma {:induction false} NoteNext(ps: seq<Bytes>, base: nat, interval: nat, i: nat, offsets: seq<nat>, noted: seq<nat>)
    requires interval > 0 && i < |ps| && NotedUpTo(ps, base, interval, i, offsets)
    requires noted == if IsAnchor(i, interval) then offsets + [At(ps, base, i)] else offsets
    ensures NotedUpTo(ps, base, interval, i + 1, noted)
  {
  }
}
