/** The segmented byte arena: many chains of linked slices of growing size, all in one
    bump-allocated space addressed by 32-bit offsets. */
module PostingPool {
  import opened Common
  import opened ByteStreams

  const BLOCK: nat := 0x8000
  const PTR: nat := 4
  const LEVELS: nat := 16
  const SLICE_SIZES: seq<nat> := [5, 8, 12, 18, 27, 40, 60, 90, 135, 202, 303, 455, 683, 1024, 1536, 2304]

  function NextLevel(level: nat): nat
  {
    if level < 15 then level + 1 else 15
  }

  /** Payload capacity of a slice at `level`. */
  function SliceSize(level: nat): (c: nat)
    requires level < LEVELS
    ensures 0 < c <= 2304
  {
    SLICE_SIZES[level]
  }

  /** The level of a chain's i-th slice, and its payload capacity. */
  function LevelOf(i: nat): (l: nat)
    ensures l < LEVELS
  {
    if i < 15 then i else 15
  }

  function Cap(i: nat): nat {
    SliceSize(LevelOf(i))
  }

  // ----- pointers

  /** The little-endian 32-bit pointer at `off`. */
  function ReadPtr(arena: seq<byte>, off: nat): nat
    requires off + PTR <= |arena|
  {
    LoadLe32At(arena, off)
  }

  function WritePtr(arena: seq<byte>, off: nat, v: nat): (r: seq<byte>)
    requires off + PTR <= |arena| && v < TWO32
    ensures |r| == |arena|
  {
    arena[..off] + Fixed32(v) + arena[off + PTR..]
  }

  lemma {:induction false} PtrRoundTrip(arena: seq<byte>, off: nat, v: nat)
    requires off + PTR <= |arena| && v < TWO32
    ensures ReadPtr(WritePtr(arena, off, v), off) == v
    ensures forall i :: 0 <= i < |arena| && !(off <= i < off + PTR) ==> WritePtr(arena, off, v)[i] == arena[i]
  {
    var a, p := WritePtr(arena, off, v), Fixed32(v);
    assert a[off] == p[0] && a[off + 1] == p[1] && a[off + 2] == p[2] && a[off + 3] == p[3];
    Fixed32First(v, []);
  }

  // ----- what a chain is, in terms of the arena alone

  /** `cap` payload bytes from `head`, then the forward pointer. */
  datatype Slice = Slice(head: nat, cap: nat) {
    function Ptr(): nat { head + cap }
    function End(): nat { head + cap + PTR }
  }

  /** One chain: its slices in order and the bytes appended to it. */
  datatype Chain = Chain(slices: seq<Slice>, content: seq<byte>)

  /** A slice lies in one block below `limit`. */
  ghost predicate Placed(s: Slice, limit: nat) {
    s.End() <= limit && s.head / BLOCK == (s.End() - 1) / BLOCK
  }

  ghost predicate AllPlaced(slices: seq<Slice>, limit: nat) {
    forall i :: 0 <= i < |slices| ==> Placed(slices[i], limit)
  }

  /** Slices ascend without overlapping. */
  ghost predicate Ascending(slices: seq<Slice>) {
    forall i, j :: 0 <= i < j < |slices| ==> slices[i].End() <= slices[j].head
  }

  /** Slice capacities follow the size schedule from slice number `i` on. */
  ghost predicate OnSchedule(slices: seq<Slice>, i: nat) {
    forall j :: 0 <= j < |slices| ==> slices[j].cap == Cap(i + j)
  }

  /** The bytes of one slice. */
  function Region(arena: seq<byte>, s: Slice): (r: seq<byte>)
    requires s.End() <= |arena|
    ensures |r| == s.cap + PTR
  {
    arena[s.head..s.End()]
  }

  /** The slices hold `content` in order, all full but the last, and link to one
      another; the last one's pointer is 0. */
  ghost predicate Stores(arena: seq<byte>, slices: seq<Slice>, content: seq<byte>)
    decreases |slices|
  {
    slices != [] && slices[0].End() <= |arena| &&
    var s, r := slices[0], Region(arena, slices[0]);
    if |slices| == 1 then
      ReadPtr(r, s.cap) == 0 && |content| <= s.cap && r[..|content|] == content
    else
      && ReadPtr(r, s.cap) == slices[1].head && |content| >= s.cap && r[..s.cap] == content[..s.cap]
      && Stores(arena, slices[1..], content[s.cap..])
  }

  /** The chain is stored in the arena below `limit`. */
  ghost predicate Holds(arena: seq<byte>, limit: nat, ch: Chain) {
    && limit <= |arena| && ch.slices != []
    && AllPlaced(ch.slices, limit) && Ascending(ch.slices) && OnSchedule(ch.slices, 0)
    && Stores(arena, ch.slices, ch.content)
  }

  /** No slice of one chain meets a slice of the other. */
  ghost predicate Apart(a: Chain, b: Chain) {
    forall i, j :: 0 <= i < |a.slices| && 0 <= j < |b.slices| ==>
      a.slices[i].End() <= b.slices[j].head || b.slices[j].End() <= a.slices[i].head
  }

  /** Two arenas agree in every one of the slices. */
  ghost predicate AgreeOn(a: seq<byte>, b: seq<byte>, slices: seq<Slice>) {
    && |a| <= |b|
    && forall i :: 0 <= i < |slices| && slices[i].End() <= |a| ==> Region(a, slices[i]) == Region(b, slices[i])
  }

  /** A chain does not notice writes elsewhere. */
  lemma {:induction false} StoresElsewhere(a: seq<byte>, b: seq<byte>, slices: seq<Slice>, content: seq<byte>)
    requires Stores(a, slices, content) && AgreeOn(a, b, slices)
    ensures Stores(b, slices, content)
    decreases |slices|
  {
    assert Region(a, slices[0]) == Region(b, slices[0]);
    if |slices| > 1 {
      assert forall i :: 0 <= i < |slices[1..]| ==> slices[1..][i] == slices[i + 1];
      StoresElsewhere(a, b, slices[1..], content[slices[0].cap..]);
    }
  }

  lemma {:induction false} HoldsElsewhere(a: seq<byte>, limit: nat, b: seq<byte>, limit': nat, ch: Chain)
    requires Holds(a, limit, ch) && AgreeOn(a, b, ch.slices) && limit <= limit' <= |b|
    ensures Holds(b, limit', ch)
  {
    StoresElsewhere(a, b, ch.slices, ch.content);
    forall i | 0 <= i < |ch.slices| ensures Placed(ch.slices[i], limit') {
      assert Placed(ch.slices[i], limit);
    }
  }

  /** Of `n` content bytes, how many are in the last slice. */
  function TailFill(slices: seq<Slice>, n: int): int
    decreases |slices|
  {
    if |slices| <= 1 then n else TailFill(slices[1..], n - slices[0].cap)
  }

  lemma {:induction false} TailFillBounds(arena: seq<byte>, slices: seq<Slice>, content: seq<byte>)
    requires Stores(arena, slices, content)
    ensures 0 <= TailFill(slices, |content|) <= slices[|slices| - 1].cap
    decreases |slices|
  {
    if |slices| > 1 {
      TailFillBounds(arena, slices[1..], content[slices[0].cap..]);
    }
  }

  /** Ascending slices put the n-th byte at offset n or later: the write offset bounds
      the payload length. */
  lemma {:induction false} TailBoundsLength(arena: seq<byte>, slices: seq<Slice>, content: seq<byte>)
    requires Stores(arena, slices, content) && Ascending(slices)
    ensures slices[0].head + |content| <= slices[|slices| - 1].head + TailFill(slices, |content|)
    decreases |slices|
  {
    if |slices| > 1 {
      assert slices[0].End() <= slices[1].head;
      TailBoundsLength(arena, slices[1..], content[slices[0].cap..]);
    }
  }

  lemma {:induction false} CutSnoc(s: seq<byte>, v: byte, n: nat)
    requires n <= |s|
    ensures (s + [v])[n..] == s[n..] + [v] && (s + [v])[..n] == s[..n]
  {
  }

  lemma {:induction false} AppendToOnly(arena: seq<byte>, s: Slice, content: seq<byte>, v: byte)
    requires Stores(arena, [s], content) && |content| < s.cap
    ensures Stores(arena[s.head + |content| := v], [s], content + [v])
  {
    var r, r' := Region(arena, s), Region(arena[s.head + |content| := v], s);
    assert r' == r[|content| := v];
    assert r'[..|content| + 1] == content + [v];
  }

  lemma {:induction false} AppendBehind(arena: seq<byte>, arena': seq<byte>, slices: seq<Slice>, content: seq<byte>, v: byte)
    requires Stores(arena, slices, content) && |slices| > 1 && |arena'| == |arena| && Region(arena', slices[0]) == Region(arena, slices[0])
    requires Stores(arena', slices[1..], content[slices[0].cap..] + [v])
    ensures Stores(arena', slices, content + [v])
  {
    CutSnoc(content, v, slices[0].cap);
  }

  /** A byte written behind a slice leaves it alone. */
  lemma {:induction false} ByteBehind(arena: seq<byte>, s: Slice, at: nat, v: byte)
    requires s.End() <= at < |arena|
    ensures Region(arena[at := v], s) == Region(arena, s)
  {
  }

  lemma {:induction false} LaterSlices(slices: seq<Slice>)
    requires |slices| > 1 && Ascending(slices)
    ensures Ascending(slices[1..]) && slices[1..][|slices[1..]| - 1] == slices[|slices| - 1] && slices[0].End() <= slices[|slices| - 1].head
  {
  }

  /** Writing the next byte, at `at`, into a last slice with room. */
  lemma {:induction false} StoresNext(arena: seq<byte>, slices: seq<Slice>, content: seq<byte>, v: byte, at: nat)
    requires Stores(arena, slices, content) && Ascending(slices) && at < slices[|slices| - 1].Ptr() && slices[|slices| - 1].End() <= |arena|
    requires at == slices[|slices| - 1].head + TailFill(slices, |content|)
    ensures Stores(arena[at := v], slices, content + [v])
    decreases |slices|
  {
    if |slices| == 1 {
      assert slices == [slices[0]];
      AppendToOnly(arena, slices[0], content, v);
    } else {
      LaterSlices(slices);
      TailFillBounds(arena, slices[1..], content[slices[0].cap..]);
      StoresNext(arena, slices[1..], content[slices[0].cap..], v, at);
      ByteBehind(arena, slices[0], at, v);
      AppendBehind(arena, arena[at := v], slices, content, v);
    }
  }

  lemma {:induction false} StoresAppend(arena: seq<byte>, slices: seq<Slice>, content: seq<byte>, v: byte)
    requires Stores(arena, slices, content) && Ascending(slices)
    requires TailFill(slices, |content|) < slices[|slices| - 1].cap
    requires slices[|slices| - 1].End() <= |arena|
    ensures 0 <= TailFill(slices, |content|)
    ensures Stores(arena[slices[|slices| - 1].head + TailFill(slices, |content|) := v], slices, content + [v])
  {
    TailFillBounds(arena, slices, content);
    StoresNext(arena, slices, content, v, slices[|slices| - 1].head + TailFill(slices, |content|));
  }

  lemma {:induction false} PtrElsewhere(arena: seq<byte>, s: Slice, off: nat, v: nat)
    requires off + PTR <= |arena| && v < TWO32 && s.End() <= |arena|
    requires s.End() <= off || off + PTR <= s.head
    ensures Region(WritePtr(arena, off, v), s) == Region(arena, s)
  {
    var a := WritePtr(arena, off, v);
    assert forall i :: s.head <= i < s.End() ==> a[i] == arena[i];
  }

  lemma {:induction false} PtrInside(arena: seq<byte>, s: Slice, v: nat)
    requires s.End() <= |arena| && v < TWO32
    ensures var r := Region(WritePtr(arena, s.Ptr(), v), s);
            ReadPtr(r, s.cap) == v && r[..s.cap] == Region(arena, s)[..s.cap]
  {
    var a := WritePtr(arena, s.Ptr(), v);
    PtrRoundTrip(arena, s.Ptr(), v);
    var r := Region(a, s);
    assert r[s.cap] == a[s.Ptr()] && r[s.cap + 1] == a[s.Ptr() + 1];
    assert r[s.cap + 2] == a[s.Ptr() + 2] && r[s.cap + 3] == a[s.Ptr() + 3];
    assert forall i :: s.head <= i < s.Ptr() ==> a[i] == arena[i];
    assert forall i :: 0 <= i < s.cap ==> r[i] == a[s.head + i];
    assert r[..s.cap] == Region(arena, s)[..s.cap];
  }

  /** Linking a fresh empty slice behind a full one. */
  lemma {:induction false} StoresGrow(arena: seq<byte>, slices: seq<Slice>, content: seq<byte>, grown: Slice)
    requires Stores(arena, slices, content) && Ascending(slices + [grown])
    requires TailFill(slices, |content|) == slices[|slices| - 1].cap
    requires grown.End() <= |arena| && grown.head < TWO32 && ReadPtr(Region(arena, grown), grown.cap) == 0
    ensures slices[|slices| - 1].End() <= |arena|
    ensures Stores(WritePtr(arena, slices[|slices| - 1].Ptr(), grown.head), slices + [grown], content)
    decreases |slices|
  {
    var s, last, all := slices[0], slices[|slices| - 1], slices + [grown];
    assert all[0] == s && all[|slices| - 1] == last && all[|slices|] == grown;
    assert last.End() <= grown.head;
    var arena' := WritePtr(arena, last.Ptr(), grown.head);
    if |slices| == 1 {
      assert all[1..] == [grown];
      PtrInside(arena, s, grown.head);
      PtrElsewhere(arena, grown, s.Ptr(), grown.head);
      assert content[s.cap..] == [];
      assert Stores(arena', [grown], []);
    } else {
      assert s.End() <= last.head;
      PtrElsewhere(arena, s, last.Ptr(), grown.head);
      assert all[1..] == slices[1..] + [grown] && all[1] == slices[1];
      StoresGrow(arena, slices[1..], content[s.cap..], grown);
    }
  }

  // ----- other chains

  lemma {:induction false} HoldsPrefix(a: seq<byte>, limit: nat, b: seq<byte>, limit': nat, ch: Chain)
    requires Holds(a, limit, ch) && limit <= limit' <= |b| && |a| <= |b| && a[..limit] == b[..limit]
    ensures Holds(b, limit', ch)
  {
    forall i | 0 <= i < |ch.slices| && ch.slices[i].End() <= |a|
      ensures Region(a, ch.slices[i]) == Region(b, ch.slices[i])
    {
      var s := ch.slices[i];
      assert Placed(s, limit);
      assert forall i :: s.head <= i < s.End() ==> a[i] == a[..limit][i] && b[i] == b[..limit][i];
    }
    HoldsElsewhere(a, limit, b, limit', ch);
  }

  /** A byte written inside `own` is outside every chain apart from it. */
  lemma {:induction false} ByteElsewhere(arena: seq<byte>, limit: nat, own: Slice, off: nat, v: byte, other: Chain)
    requires Holds(arena, limit, other) && own.head <= off < own.End() && off < |arena|
    requires forall i :: 0 <= i < |other.slices| ==> other.slices[i].End() <= own.head || own.End() <= other.slices[i].head
    ensures Holds(arena[off := v], limit, other)
  {
    var b := arena[off := v];
    forall i | 0 <= i < |other.slices| && other.slices[i].End() <= |arena|
      ensures Region(arena, other.slices[i]) == Region(b, other.slices[i])
    {
    }
    HoldsElsewhere(arena, limit, b, limit, other);
  }

  lemma {:induction false} LinkElsewhere(arena: seq<byte>, limit: nat, own: Slice, v: nat, other: Chain)
    requires Holds(arena, limit, other) && own.End() <= |arena| && v < TWO32
    requires forall i :: 0 <= i < |other.slices| ==> other.slices[i].End() <= own.head || own.End() <= other.slices[i].head
    ensures Holds(WritePtr(arena, own.Ptr(), v), limit, other)
  {
    var b := WritePtr(arena, own.Ptr(), v);
    forall i | 0 <= i < |other.slices| && other.slices[i].End() <= |arena|
      ensures Region(arena, other.slices[i]) == Region(b, other.slices[i])
    {
      PtrElsewhere(arena, other.slices[i], own.Ptr(), v);
    }
    HoldsElsewhere(arena, limit, b, limit, other);
  }

  /** A slice at or above the limit is apart from every chain below it. */
  lemma {:induction false} ApartFromNew(arena: seq<byte>, limit: nat, other: Chain, s: Slice)
    requires Holds(arena, limit, other) && limit <= s.head
    ensures forall i :: 0 <= i < |other.slices| ==> other.slices[i].End() <= s.head
  {
    assert forall i :: 0 <= i < |other.slices| ==> Placed(other.slices[i], limit);
  }

  /** Everything stored before and apart from `ch` is stored after and apart from `ch'`. */
  ghost predicate Spares(a: seq<byte>, limit: nat, ch: Chain, a': seq<byte>, limit': nat, ch': Chain) {
    forall other {:trigger Holds(a, limit, other)} ::
      Holds(a, limit, other) && Apart(other, ch) ==> Holds(a', limit', other) && Apart(other, ch')
  }

  lemma {:induction false} SparesTwice(a: seq<byte>, l: nat, c: Chain, a': seq<byte>, l': nat, c': Chain,
                                       a'': seq<byte>, l'': nat, c'': Chain)
    requires Spares(a, l, c, a', l', c') && Spares(a', l', c', a'', l'', c'')
    ensures Spares(a, l, c, a'', l'', c'')
  {
  }

  // ----- one write

  /** The live append handle of one chain; the caller keeps it and the slice level. */
  datatype SliceWriter = SliceWriter(cur: nat, sliceEnd: nat, level: nat)

  ghost predicate WriterAt(w: SliceWriter, ch: Chain) {
    && ch.slices != []
    && var last := ch.slices[|ch.slices| - 1];
       && w.cur == last.head + TailFill(ch.slices, |ch.content|)
       && w.sliceEnd == last.Ptr()
       && w.level == LevelOf(|ch.slices| - 1)
  }

  lemma {:induction false} WriteKeeps(arena: seq<byte>, limit: nat, w: SliceWriter, ch: Chain, v: byte)
    requires Holds(arena, limit, ch) && WriterAt(w, ch) && w.cur < w.sliceEnd
    ensures w.cur < limit
    ensures Holds(arena[w.cur := v], limit, Chain(ch.slices, ch.content + [v]))
    ensures WriterAt(w.(cur := w.cur + 1), Chain(ch.slices, ch.content + [v]))
  {
    var last := ch.slices[|ch.slices| - 1];
    TailFillBounds(arena, ch.slices, ch.content);
    assert Placed(last, limit);
    StoresAppend(arena, ch.slices, ch.content, v);
    TailFillStep(ch.slices, |ch.content|);
  }

  lemma {:induction false} WriteSpares(arena: seq<byte>, limit: nat, w: SliceWriter, ch: Chain, v: byte)
    requires Holds(arena, limit, ch) && WriterAt(w, ch) && w.cur < w.sliceEnd && w.cur < limit
    ensures Spares(arena, limit, ch, arena[w.cur := v], limit, Chain(ch.slices, ch.content + [v]))
  {
    var last := ch.slices[|ch.slices| - 1];
    TailFillBounds(arena, ch.slices, ch.content);
    forall other | Holds(arena, limit, other) && Apart(other, ch) ensures Holds(arena[w.cur := v], limit, other) {
      ByteElsewhere(arena, limit, last, w.cur, v, other);
    }
  }

  /** Slice `s`, allocated behind the limit with a zero pointer, is linked to the chain. */
  lemma {:induction false} GrownShape(slices: seq<Slice>, s: Slice, limit: nat)
    requires slices != [] && Ascending(slices) && OnSchedule(slices, 0) && AllPlaced(slices, limit) && Placed(s, limit)
    requires s.cap == SliceSize(LevelOf(|slices|)) && forall i :: 0 <= i < |slices| ==> slices[i].End() <= s.head
    ensures Ascending(slices + [s]) && AllPlaced(slices + [s], limit) && OnSchedule(slices + [s], 0)
  {
  }

  lemma {:induction false} AllBelow(slices: seq<Slice>, low: nat, limit: nat, head: nat)
    requires AllPlaced(slices, low) && low <= head <= limit
    ensures AllPlaced(slices, limit) && forall i :: 0 <= i < |slices| ==> slices[i].End() <= head
  {
    forall i | 0 <= i < |slices| ensures slices[i].End() <= head && Placed(slices[i], limit) {
      assert Placed(slices[i], low);
    }
  }

  lemma {:induction false} LinkKeeps(arena: seq<byte>, low: nat, limit: nat, w: SliceWriter, ch: Chain, s: Slice)
    requires Holds(arena, low, ch) && WriterAt(w, ch) && w.cur == w.sliceEnd
    requires low <= s.head < TWO32 && s.End() <= limit <= |arena| && Placed(s, limit)
    requires s.cap == SliceSize(NextLevel(w.level)) && ReadPtr(Region(arena, s), s.cap) == 0
    ensures w.sliceEnd + PTR <= |arena|
    ensures Holds(WritePtr(arena, w.sliceEnd, s.head), limit, Chain(ch.slices + [s], ch.content))
    ensures WriterAt(SliceWriter(s.head, s.Ptr(), NextLevel(w.level)), Chain(ch.slices + [s], ch.content))
  {
    var last, all := ch.slices[|ch.slices| - 1], ch.slices + [s];
    AllBelow(ch.slices, low, limit, s.head);
    GrownShape(ch.slices, s, limit);
    TailFillGrown(ch.slices, s, |ch.content|);
    StoresGrow(arena, ch.slices, ch.content, s);
  }

  lemma {:induction false} LinkSpares(arena: seq<byte>, low: nat, limit: nat, w: SliceWriter, ch: Chain, s: Slice)
    requires Holds(arena, low, ch) && WriterAt(w, ch)
    requires low <= s.head < TWO32 && s.End() <= limit <= |arena| && w.sliceEnd + PTR <= |arena|
    ensures Spares(arena, low, ch, WritePtr(arena, w.sliceEnd, s.head), limit, Chain(ch.slices + [s], ch.content))
  {
    var last, arena' := ch.slices[|ch.slices| - 1], WritePtr(arena, w.sliceEnd, s.head);
    forall other | Holds(arena, low, other) && Apart(other, ch)
      ensures Holds(arena', limit, other) && Apart(other, Chain(ch.slices + [s], ch.content))
    {
      ApartFromNew(arena, low, other, s);
      LinkElsewhere(arena, low, last, s.head, other);
      HoldsPrefix(arena', low, arena', limit, other);
    }
  }

  // ----- the pool

  /** `arena` is the fixed-size blocks laid end to end. */
  class CompactPostingPool {
    var arena: seq<byte>
    var nextOffset: nat
    var payloadBytes: nat

    ghost predicate Valid()
      reads this
    {
      |arena| % BLOCK == 0 && nextOffset <= |arena| && nextOffset < TWO32
    }

    constructor ()
      ensures Valid() && arena == [] && nextOffset == 0 && payloadBytes == 0
    {
      arena, nextOffset, payloadBytes := [], 0, 0;
    }

    method Reset()
      modifies this
      ensures Valid() && arena == [] && nextOffset == 0 && payloadBytes == 0
    {
      arena, nextOffset, payloadBytes := [], 0, 0;
    }

    /** Where a run of `bytes` would start: behind the bump pointer if the tail block has
        room, else in a new block. */
    function RunStart(bytes: nat): nat
      reads this
    {
      if nextOffset / BLOCK < |arena| / BLOCK && nextOffset % BLOCK + bytes <= BLOCK then nextOffset else |arena|
    }

    /** Reserves `bytes` in one block at or above the bump pointer. Refuses, changing
        nothing, exactly when the run would reach past the 32-bit offsets. */
    method AllocRun(bytes: nat) returns (r: Result<nat>)
      requires Valid() && 0 < bytes <= BLOCK
      modifies this
      ensures Valid() && payloadBytes == old(payloadBytes)
      ensures r.Error? ==> arena == old(arena) && nextOffset == old(nextOffset)
      ensures r.Error? <==> old(RunStart(bytes)) + bytes >= TWO32
      ensures r.Ok? ==>
                && old(nextOffset) <= r.value == old(RunStart(bytes)) && nextOffset == r.value + bytes
                && r.value / BLOCK == (r.value + bytes - 1) / BLOCK
      ensures old(arena) <= arena && |arena| <= |old(arena)| + BLOCK
    {
      var inBlock := nextOffset % BLOCK;
      var tailExists := nextOffset / BLOCK < |arena| / BLOCK;
      var needBlock := !tailExists || inBlock + bytes > BLOCK;
      var runStart := if needBlock then |arena| else nextOffset;
      if runStart + bytes >= TWO32 {
        return Error(Corruption("arena exceeded the 4 GiB uint32 offset limit"));
      }
      if needBlock {
        arena := arena + seq(BLOCK, i => 0);
        nextOffset := |arena| - BLOCK;
      }
      r := Ok(nextOffset);
      nextOffset := nextOffset + bytes;
    }

    /** A fresh slice of the given level with a zero pointer; nothing below the bump
        pointer changes. */
    method AllocSlice(level: nat) returns (r: Result<Slice>)
      requires Valid() && level < LEVELS
      modifies this
      ensures Valid() && payloadBytes == old(payloadBytes)
      ensures r.Error? ==> arena == old(arena) && nextOffset == old(nextOffset)
      ensures r.Error? <==> old(RunStart(SliceSize(level) + PTR)) + SliceSize(level) + PTR >= TWO32
      ensures r.Ok? ==>
                && r.value.cap == SliceSize(level) && old(nextOffset) <= r.value.head < TWO32
                && Placed(r.value, nextOffset) && ReadPtr(Region(arena, r.value), r.value.cap) == 0
      ensures |old(arena)| <= |arena| <= |old(arena)| + BLOCK && old(nextOffset) <= nextOffset
      ensures arena[..old(nextOffset)] == old(arena[..nextOffset])
    {
      var cap := SliceSize(level);
      var run := AllocRun(cap + PTR);
      if run.Error? {
        return Error(run.status);
      }
      var s := Slice(run.value, cap);
      PtrInside(arena, s, 0);
      assert forall i :: 0 <= i < old(nextOffset) ==> WritePtr(arena, s.Ptr(), 0)[i] == arena[i];
      arena := WritePtr(arena, s.Ptr(), 0);
      r := Ok(s);
    }

    /** Begins an empty chain apart from every chain stored so far. */
    method StartChain() returns (r: Result<SliceWriter>, ghost ch: Chain)
      requires Valid()
      modifies this
      ensures Valid() && |arena| <= |old(arena)| + BLOCK && payloadBytes == old(payloadBytes)
      ensures r.Error? ==> |old(arena)| + BLOCK >= TWO32
      ensures r.Ok? ==> Holds(arena, nextOffset, ch) && ch.content == [] && WriterAt(r.value, ch)
      ensures r.Ok? ==> r.value.cur == ch.slices[0].head
      ensures forall other {:trigger old(Holds(arena, nextOffset, other))} ::
                old(Holds(arena, nextOffset, other)) ==>
                  Holds(arena, nextOffset, other) && (r.Ok? ==> Apart(other, ch))
    {
      var slice := AllocSlice(0);
      forall other | old(Holds(arena, nextOffset, other)) ensures Holds(arena, nextOffset, other) {
        HoldsPrefix(old(arena), old(nextOffset), arena, nextOffset, other);
      }
      if slice.Error? {
        return Error(slice.status), Chain([], []);
      }
      var s := slice.value;
      ch := Chain([s], []);
      assert Stores(arena, [s], []);
      forall other | old(Holds(arena, nextOffset, other)) ensures Apart(other, ch) {
        ApartFromNew(old(arena), old(nextOffset), other, s);
      }
      r := Ok(SliceWriter(s.head, s.Ptr(), 0));
    }

    /** Links a larger slice behind a chain whose last slice is full. */
    method Grow(w: SliceWriter, ghost ch: Chain) returns (r: Result<SliceWriter>, ghost ch': Chain)
      requires Valid() && Holds(arena, nextOffset, ch) && WriterAt(w, ch) && w.cur == w.sliceEnd
      modifies this
      ensures Valid() && |old(arena)| <= |arena| <= |old(arena)| + BLOCK && payloadBytes == old(payloadBytes)
      ensures r.Error? ==> |old(arena)| + BLOCK >= TWO32 && ch' == ch && arena == old(arena) && nextOffset == old(nextOffset)
      ensures Holds(arena, nextOffset, ch')
      ensures ch'.content == ch.content && ch'.slices[0] == ch.slices[0]
      ensures r.Ok? ==> WriterAt(r.value, ch') && r.value.cur < r.value.sliceEnd
      ensures Spares(old(arena), old(nextOffset), ch, arena, nextOffset, ch')
    {
      ch' := ch;
      var next := NextLevel(w.level);
      ghost var low := nextOffset;
      var slice := AllocSlice(next);
      if slice.Error? {
        return Error(slice.status), ch;
      }
      var s := slice.value;
      HoldsPrefix(old(arena), low, arena, low, ch);
      ch' := Chain(ch.slices + [s], ch.content);
      LinkKeeps(arena, low, nextOffset, w, ch, s);
      LinkSpares(arena, low, nextOffset, w, ch, s);
      ghost var unlinked := arena;
      arena := WritePtr(arena, w.sliceEnd, s.head);
      forall other | Holds(old(arena), low, other) && Apart(other, ch)
        ensures Holds(arena, nextOffset, other) && Apart(other, ch')
      {
        HoldsPrefix(old(arena), low, unlinked, low, other);
      }
      r := Ok(SliceWriter(s.head, s.Ptr(), next));
    }

    /** Appends one byte: this chain gains exactly that byte, every chain apart from it
        stays as it is and stays apart. */
    method AppendByte(w: SliceWriter, value: byte, ghost ch: Chain) returns (r: Result<SliceWriter>, ghost ch': Chain)
      requires Valid() && Holds(arena, nextOffset, ch) && WriterAt(w, ch)
      modifies this
      ensures Valid() && |old(arena)| <= |arena| <= |old(arena)| + BLOCK
      ensures r.Error? ==> |old(arena)| + BLOCK >= TWO32 && ch' == ch && arena == old(arena) && nextOffset == old(nextOffset)
      ensures Holds(arena, nextOffset, ch') && ch'.slices[0] == ch.slices[0]
      ensures r.Ok? ==> ch'.content == ch.content + [value] && WriterAt(r.value, ch')
      ensures r.Ok? ==> payloadBytes == old(payloadBytes) + 1
      ensures Spares(old(arena), old(nextOffset), ch, arena, nextOffset, ch')
    {
      var w', grown := w, ch;
      if w.cur == w.sliceEnd {
        var res;
        res, grown := Grow(w, ch);
        if res.Error? {
          return res, ch;
        }
        w' := res.value;
      } else {
        WriterInside(arena, nextOffset, w, ch);
      }
      WriteKeeps(arena, nextOffset, w', grown, value);
      WriteSpares(arena, nextOffset, w', grown, value);
      ch' := Chain(grown.slices, grown.content + [value]);
      SparesTwice(old(arena), old(nextOffset), ch, arena, nextOffset, grown, arena[w'.cur := value], nextOffset, ch');
      arena := arena[w'.cur := value];
      payloadBytes := payloadBytes + 1;
      r := Ok(w'.(cur := w'.cur + 1));
    }
  }

  lemma {:induction false} WriterInside(arena: seq<byte>, limit: nat, w: SliceWriter, ch: Chain)
    requires Holds(arena, limit, ch) && WriterAt(w, ch)
    ensures w.cur <= w.sliceEnd
  {
    TailFillBounds(arena, ch.slices, ch.content);
  }

  lemma {:induction false} TailFillStep(slices: seq<Slice>, n: int)
    ensures TailFill(slices, n + 1) == TailFill(slices, n) + 1
    decreases |slices|
  {
    if |slices| > 1 {
      TailFillStep(slices[1..], n - slices[0].cap);
    }
  }

  /** A slice linked behind full ones starts empty. */
  lemma {:induction false} TailFillGrown(slices: seq<Slice>, s: Slice, n: int)
    requires slices != []
    ensures TailFill(slices + [s], n) == TailFill(slices, n) - slices[|slices| - 1].cap
    decreases |slices|
  {
    var all := slices + [s];
    if |slices| == 1 {
      assert all[1..] == [s];
    } else {
      assert all[1..] == slices[1..] + [s];
      TailFillGrown(slices[1..], s, n - slices[0].cap);
    }
  }

  // ----- the reader

  /** A cursor at `cur` in the first of the slices `rest`, which hold `left` from that
      slice's start; it is slice `number` of its chain. */
  ghost predicate Sits(arena: seq<byte>, rest: seq<Slice>, left: seq<byte>, number: nat, cur: nat, sliceEnd: nat, level: nat) {
    && rest != [] && Stores(arena, rest, left) && Ascending(rest) && OnSchedule(rest, number)
    && rest[0].head <= cur <= sliceEnd == rest[0].Ptr() && level == LevelOf(number)
  }

  ghost function UnreadFrom(rest: seq<Slice>, left: seq<byte>, cur: nat): seq<byte>
    requires rest != [] && rest[0].head <= cur
  {
    var j := cur - rest[0].head;
    if j <= |left| then left[j..] else []
  }

  /** The payload bytes of the slices, written or not. */
  function Caps(slices: seq<Slice>): nat {
    if slices == [] then 0 else slices[0].cap + Caps(slices[1..])
  }

  lemma {:induction false} ContentWithin(arena: seq<byte>, slices: seq<Slice>, content: seq<byte>)
    requires Stores(arena, slices, content)
    ensures |content| <= Caps(slices)
    ensures |content| == Caps(slices) <==> TailFill(slices, |content|) == slices[|slices| - 1].cap
    decreases |slices|
  {
    if |slices| == 1 {
      assert slices[1..] == [];
    } else {
      ContentWithin(arena, slices[1..], content[slices[0].cap..]);
    }
  }

  /** The payload bytes not yet passed, written or not. */
  ghost function RoomFrom(rest: seq<Slice>, cur: nat): int
    requires rest != []
  {
    Caps(rest) - (cur - rest[0].head)
  }

  lemma {:induction false} RoomLeft(arena: seq<byte>, rest: seq<Slice>, left: seq<byte>, number: nat, cur: nat, sliceEnd: nat, level: nat)
    requires Sits(arena, rest, left, number, cur, sliceEnd, level)
    ensures |UnreadFrom(rest, left, cur)| <= RoomFrom(rest, cur)
    ensures RoomFrom(rest, cur) > 0 <==> cur < sliceEnd || |rest| > 1
  {
    ContentWithin(arena, rest, left);
    if |rest| > 1 {
      assert rest[1].cap == Cap(number + 1) && rest[1..][0] == rest[1];
    } else {
      assert rest[1..] == [];
    }
  }

  /** A forward cursor over one chain. `rest` are the slices from the current one on and
      `left` the content from the current slice's start. */
  class Cursor {
    const pool: CompactPostingPool
    var cur: nat
    var sliceEnd: nat
    var level: nat
    var budget: nat
    ghost var number: nat
    ghost var rest: seq<Slice>
    ghost var left: seq<byte>

    ghost predicate Valid()
      reads this, pool
    {
      Sits(pool.arena, rest, left, number, cur, sliceEnd, level)
    }

    /** The content not yet yielded. */
    ghost function Unread(): seq<byte>
      requires rest != [] && rest[0].head <= cur
      reads this
    {
      UnreadFrom(rest, left, cur)
    }

    /** The payload bytes ahead, written or not. */
    ghost function Room(): int
      requires rest != []
      reads this
    {
      RoomFrom(rest, cur)
    }

    constructor (pool: CompactPostingPool, head: nat, budget: nat, ghost ch: Chain)
      requires Holds(pool.arena, pool.nextOffset, ch) && head == ch.slices[0].head
      ensures Valid() && Unread() == ch.content && Room() == Caps(ch.slices) && this.pool == pool && this.budget == budget
      ensures cur == head && sliceEnd == head + SliceSize(0)
    {
      this.pool, this.cur, this.level, this.budget := pool, head, 0, budget;
      this.sliceEnd := head + SliceSize(0);
      this.number, this.rest, this.left := 0, ch.slices, ch.content;
    }

    /** Whether another byte will be yielded: within the budget, another slice follows
        or payload room is left in this one, written or not. */
    method HasNext() returns (more: bool)
      requires Valid()
      ensures more <==> budget > 0 && (cur < sliceEnd || |rest| > 1)
      ensures Room() >= 0 && (more <==> budget > 0 && Room() > 0)
      ensures Unread() != [] ==> (more <==> budget > 0)
    {
      RoomLeft(pool.arena, rest, left, number, cur, sliceEnd, level);
      if budget == 0 {
        return false;
      }
      LinkValue();
      if cur == sliceEnd {
        return ReadPtr(pool.arena, sliceEnd) != 0;
      }
      more := true;
    }

    lemma {:induction false} LinkValue()
      requires Valid()
      ensures sliceEnd + PTR <= |pool.arena|
      ensures ReadPtr(pool.arena, sliceEnd) == if |rest| > 1 then rest[1].head else 0
      ensures |rest| > 1 ==> rest[1].head > 0
    {
      var r, a, e := Region(pool.arena, rest[0]), pool.arena, rest[0].cap;
      assert r[e] == a[sliceEnd] && r[e + 1] == a[sliceEnd + 1];
      assert r[e + 2] == a[sliceEnd + 2] && r[e + 3] == a[sliceEnd + 3];
    }

    /** Moves from the end of a slice to the start of the next one. */
    method FollowLink(nextHead: nat)
      requires Valid() && cur == sliceEnd && |rest| > 1 && nextHead == rest[1].head
      modifies this
      ensures Valid() && Unread() == old(Unread()) && Room() == old(Room()) && cur < sliceEnd && budget == old(budget)
    {
      StepSlice(pool.arena, rest, left, number, level);
      level := NextLevel(level);
      cur := nextHead;
      sliceEnd := nextHead + SliceSize(level);
      number, left, rest := number + 1, left[rest[0].cap..], rest[1..];
    }

    /** Reads the byte under the cursor, inside a slice. */
    method ReadHere() returns (v: byte)
      requires Valid() && cur < sliceEnd && budget > 0
      modifies this
      ensures Valid() && budget == old(budget) - 1 && cur == old(cur) + 1 && sliceEnd == old(sliceEnd)
      ensures old(Unread()) != [] ==> v == old(Unread())[0] && Unread() == old(Unread())[1..]
      ensures old(Unread()) == [] ==> Unread() == []
      ensures Room() == old(Room()) - 1
    {
      FirstByte(pool.arena, rest, left, cur);
      v := pool.arena[cur];
      cur := cur + 1;
      budget := budget - 1;
    }

    /** Yields the content in order while there is any and the budget lasts; after that
        a 0 at the tail's end, or one unwritten payload byte. */
    method Next() returns (v: byte)
      requires Valid()
      modifies this
      ensures Valid()
      ensures old(budget) == 0 ==> v == 0 && budget == 0 && Unread() == old(Unread())
      ensures old(budget) > 0 && old(Unread()) != [] ==>
                v == old(Unread())[0] && Unread() == old(Unread())[1..] && budget == old(budget) - 1
      ensures old(budget) > 0 && old(Unread()) == [] ==> Unread() == []
      ensures old(budget) > 0 && old(cur) < old(sliceEnd) ==> cur == old(cur) + 1 && sliceEnd == old(sliceEnd)
      ensures old(budget) > 0 && old(Room()) > 0 ==> Room() == old(Room()) - 1 && budget == old(budget) - 1
    {
      if budget == 0 {
        return 0;
      }
      RoomLeft(pool.arena, rest, left, number, cur, sliceEnd, level);
      LinkValue();
      if cur == sliceEnd {
        var nextHead := ReadPtr(pool.arena, sliceEnd);
        if nextHead == 0 {
          budget := 0;
          return 0;
        }
        FollowLink(nextHead);
      }
      v := ReadHere();
    }
  }

  lemma {:induction false} StepSlice(arena: seq<byte>, rest: seq<Slice>, left: seq<byte>, number: nat, level: nat)
    requires |rest| > 1 && Sits(arena, rest, left, number, rest[0].Ptr(), rest[0].Ptr(), level)
    ensures |left| >= rest[0].cap
    ensures UnreadFrom(rest, left, rest[0].Ptr()) == left[rest[0].cap..]
    ensures var next := NextLevel(level);
            next < LEVELS && Sits(arena, rest[1..], left[rest[0].cap..], number + 1,
                                  rest[1].head, rest[1].head + SliceSize(next), next)
  {
    assert forall j :: 0 <= j < |rest[1..]| ==> rest[1..][j] == rest[j + 1];
    assert rest[1].cap == Cap(number + 1);
  }

  lemma {:induction false} FirstByte(arena: seq<byte>, rest: seq<Slice>, left: seq<byte>, cur: nat)
    requires rest != [] && Stores(arena, rest, left) && rest[0].head <= cur < rest[0].Ptr()
    ensures cur < |arena|
    ensures cur - rest[0].head < |left| ==> arena[cur] == left[cur - rest[0].head]
  {
    var j, r := cur - rest[0].head, Region(arena, rest[0]);
    assert r[j] == arena[cur];
    if j < |left| {
      if |rest| == 1 {
        assert r[..|left|][j] == left[j];
      } else {
        assert r[..rest[0].cap][j] == left[..rest[0].cap][j];
      }
    }
  }

  /** What a drain has yielded, against what is unread. */
  ghost predicate Draining(content: seq<byte>, out: seq<byte>, unread: seq<byte>) {
    if |out| <= |content| then out + unread == content else content <= out && unread == []
  }

  lemma {:induction false} DrainStep(content: seq<byte>, out: seq<byte>, unread: seq<byte>, v: byte, unread': seq<byte>)
    requires Draining(content, out, unread)
    requires if unread == [] then unread' == [] else v == unread[0] && unread' == unread[1..]
    ensures Draining(content, out + [v], unread')
  {
    if unread != [] {
      assert unread == [v] + unread';
    }
  }

  /** A chain reads back exactly: any budget at or above the length yields the content. */
  method ReadBack(pool: CompactPostingPool, head: nat, budget: nat, n: nat, ghost ch: Chain) returns (out: seq<byte>)
    requires Holds(pool.arena, pool.nextOffset, ch) && head == ch.slices[0].head
    requires n == |ch.content| <= budget
    ensures out == ch.content
  {
    var c := new Cursor(pool, head, budget, ch);
    out := [];
    while |out| < n
      invariant c.Valid() && fresh(c) && c.pool == pool && |out| + c.budget == budget
      invariant |out| <= n && Draining(ch.content, out, c.Unread())
      decreases n - |out|
    {
      ghost var unread := c.Unread();
      assert out + unread == ch.content;
      var v := c.Next();
      DrainStep(ch.content, out, unread, v, c.Unread());
      out := out + [v];
    }
  }

  /** A drain stopped by its budget or by the end of the last slice. */
  lemma {:induction false} DrainStops(arena: seq<byte>, slices: seq<Slice>, content: seq<byte>, budget: nat, out: seq<byte>, unread: seq<byte>)
    requires Stores(arena, slices, content) && Draining(content, out, unread) && |out| == Min(budget, Caps(slices))
    ensures out <= content || content <= out
    ensures out == content <==>
              budget == |content| || (budget > |content| && TailFill(slices, |content|) == slices[|slices| - 1].cap)
  {
    ContentWithin(arena, slices, content);
  }

  /** Reading while HasNext says there is more yields the budget's worth of payload, written
      or not. That is the content exactly when the budget is the length, or is larger and the
      chain's last slice is full. */
  method DrainWhile(pool: CompactPostingPool, head: nat, budget: nat, ghost ch: Chain) returns (out: seq<byte>)
    requires Holds(pool.arena, pool.nextOffset, ch) && head == ch.slices[0].head
    ensures |out| == Min(budget, Caps(ch.slices)) && (out <= ch.content || ch.content <= out)
    ensures out == ch.content <==>
              budget == |ch.content| || (budget > |ch.content| && TailFill(ch.slices, |ch.content|) == ch.slices[|ch.slices| - 1].cap)
  {
    var c := new Cursor(pool, head, budget, ch);
    out := [];
    var more := c.HasNext();
    while more
      invariant c.Valid() && fresh(c) && c.pool == pool && |out| + c.budget == budget && |out| + c.Room() == Caps(ch.slices)
      invariant c.Room() >= 0 && (more <==> c.budget > 0 && c.Room() > 0)
      invariant Draining(ch.content, out, c.Unread())
      decreases c.budget
    {
      ghost var unread := c.Unread();
      var v := c.Next();
      DrainStep(ch.content, out, unread, v, c.Unread());
      out := out + [v];
      more := c.HasNext();
    }
    DrainStops(pool.arena, ch.slices, ch.content, budget, out, c.Unread());
  }

  /** The header's claim that HasNext is false once the last byte is read, for any larger
      budget, fails whenever the last slice has room: here one byte in a slice of five. */
  method HasNextAfterLast() returns (more: bool)
    ensures more
  {
    var pool := new CompactPostingPool();
    var start, ch := pool.StartChain();
    assert |pool.arena| <= BLOCK;
    var w, ch' := pool.AppendByte(start.value, 7, ch);
    var c := new Cursor(pool, start.value.cur, 2, ch');
    var v := c.Next();
    assert v == 7 && c.Unread() == [];
    more := c.HasNext();
  }
}
