/** The two-level directory in front of a windowed posting, byte by byte: a checksummed
    header with one row per super-block, then the window rows of each super-block. */
module FrqPrelude {
  import opened Common
  import opened Varint
  import opened ByteStreams
  import opened Pieces
  import opened WindowRows
  import opened WindowDirectory
  import Crc32c

  const MAX_WINDOWS: nat := 0x100_0000

  datatype Table = Table(hasFreq: bool, hasPrx: bool, group: nat, windows: seq<WindowMeta>)

  // ----- the windows

  function PrevLast(ws: seq<WindowMeta>, w: nat): nat
    requires w <= |ws|
  {
    if w == 0 then 0 else ws[w - 1].lastDocid
  }

  predicate Follows(ws: seq<WindowMeta>, w: nat)
    requires w < |ws|
  {
    PrevLast(ws, w) <= ws[w].lastDocid
  }

  /** Last docids never step back. */
  ghost predicate InOrder(ws: seq<WindowMeta>) {
    forall w: nat {:trigger Follows(ws, w)} :: w < |ws| ==> Follows(ws, w)
  }

  ghost predicate Buildable(t: Table) {
    t.group >= 1 && |t.windows| <= MAX_WINDOWS && InOrder(t.windows)
  }

  ghost function RowAt(t: Table, w: nat): Bytes
    requires InOrder(t.windows) && w < |t.windows|
  {
    assert Follows(t.windows, w);
    RowBytes(t.windows[w], t.hasFreq, t.hasPrx, PrevLast(t.windows, w))
  }

  ghost function Rows(t: Table): (r: seq<Bytes>)
    requires InOrder(t.windows)
    ensures |r| == |t.windows| && forall w: nat {:trigger r[w]} :: w < |r| ==> r[w] == RowAt(t, w)
  {
    seq(|t.windows|, w requires 0 <= w < |t.windows| => RowAt(t, w))
  }

  ghost function RowsIn(t: Table, lo: nat, hi: nat): Bytes
    requires InOrder(t.windows) && lo <= hi <= |t.windows|
  {
    Join(Rows(t), lo, hi)
  }

  lemma {:induction false} RowsSnoc(t: Table, lo: nat, w: nat)
    requires InOrder(t.windows) && lo <= w < |t.windows|
    ensures RowsIn(t, lo, lo) == [] && RowsIn(t, lo, w + 1) == RowsIn(t, lo, w) + RowAt(t, w)
  {
    var rows := Rows(t);
    JoinSplit(rows, lo, w, w + 1);
    assert rows[w] + [] == rows[w];
  }

  lemma {:induction false} RowsCons(t: Table, w: nat, hi: nat)
    requires InOrder(t.windows) && w < hi <= |t.windows|
    ensures RowsIn(t, w, hi) == RowAt(t, w) + RowsIn(t, w + 1, hi)
  {
  }

  // ----- super-blocks

  /** The number of super-blocks: one per `g` windows, the last possibly short. */
  function Groups(n: nat, g: nat): nat
    requires g >= 1
  {
    if n == 0 then 0 else if n <= g then 1 else 1 + Groups(n - g, g)
  }

  function CeilDiv(n: nat, g: nat): nat
    requires g >= 1
  {
    (n + g - 1) / g
  }

  lemma {:induction false} GroupsIsCeil(n: nat, g: nat)
    requires g >= 1
    ensures CeilDiv(n, g) == Groups(n, g) <= n
  {
    var k := Groups(n, g);
    GroupsCover(n, g);
    if k > 0 {
      GroupStarts(n, g, k - 1);
      Grows(1, g, k - 1);
    }
    Quotient(n + g - 1, g, k);
  }

  lemma {:induction false} GroupStarts(n: nat, g: nat, s: nat)
    requires g >= 1 && s < Groups(n, g)
    ensures FirstWindow(s, g) < n && FirstWindow(s + 1, g) == FirstWindow(s, g) + g
  {
    NextSuper(s, g);
    if s > 0 {
      NextSuper(s - 1, g);
      GroupStarts(n - g, g, s - 1);
    }
  }

  lemma {:induction false} GroupsCover(n: nat, g: nat)
    requires g >= 1
    ensures FirstWindow(Groups(n, g), g) >= n
  {
    if n > g {
      GroupsCover(n - g, g);
      NextSuper(Groups(n - g, g), g);
    }
  }

  /** It is the first group that starts past the end. */
  lemma {:induction false} GroupsIs(n: nat, g: nat, k: nat)
    requires g >= 1 && FirstWindow(k, g) >= n && (k > 0 ==> FirstWindow(k - 1, g) < n)
    ensures Groups(n, g) == k
  {
    var m := Groups(n, g);
    GroupsCover(n, g);
    if k > 0 {
      MulOrder(k - 1, m, g);
    }
    if m > 0 {
      GroupStarts(n, g, m - 1);
      MulOrder(m - 1, k, g);
    }
  }

  lemma {:induction false} Quotient(x: nat, g: nat, k: nat)
    requires g >= 1 && k * g <= x < k * g + g
    ensures x / g == k
  {
    var q := x / g;
    assert x == g * q + x % g;
    assert (k + 1) * g == k * g + g && (q + 1) * g == q * g + g;
    MulOrder(q, k + 1, g);
    MulOrder(k, q + 1, g);
  }

  lemma {:induction false} MulOrder(a: nat, b: nat, g: nat)
    requires a * g < b * g
    ensures a < b
  {
    if a >= b {
      Grows(b, a, g);
    }
  }

  lemma {:induction false} Grows(a: nat, b: nat, g: nat)
    requires a <= b
    ensures a * g <= b * g
  {
  }

  function BlockEnd(s: nat, g: nat, n: nat): nat {
    Min(FirstWindow(s, g) + g, n)
  }

  ghost function BlockOf(t: Table, s: nat): Bytes
    requires Buildable(t) && s < Groups(|t.windows|, t.group)
  {
    GroupStarts(|t.windows|, t.group, s);
    RowsIn(t, FirstWindow(s, t.group), BlockEnd(s, t.group, |t.windows|))
  }

  ghost function Blocks(t: Table): (r: seq<Bytes>)
    requires Buildable(t)
    ensures |r| == Groups(|t.windows|, t.group) && forall s: nat {:trigger r[s]} :: s < |r| ==> r[s] == BlockOf(t, s)
  {
    seq(Groups(|t.windows|, t.group), s requires 0 <= s < Groups(|t.windows|, t.group) => BlockOf(t, s))
  }

  /** The last docid of super-block `s`. */
  function SuperLast(t: Table, s: nat): nat
    requires t.group >= 1 && s < Groups(|t.windows|, t.group)
  {
    GroupStarts(|t.windows|, t.group, s);
    t.windows[BlockEnd(s, t.group, |t.windows|) - 1].lastDocid
  }

  function SuperBefore(t: Table, s: nat): nat
    requires t.group >= 1 && s <= Groups(|t.windows|, t.group)
  {
    if s == 0 then 0 else SuperLast(t, s - 1)
  }

  lemma {:induction false} LastsClimb(ws: seq<WindowMeta>, i: nat, j: nat)
    requires InOrder(ws) && i <= j < |ws|
    ensures ws[i].lastDocid <= ws[j].lastDocid
    decreases j - i
  {
    if i < j {
      LastsClimb(ws, i, j - 1);
      assert Follows(ws, j);
    }
  }

  /** A super-block starts right after the last window of the one before. */
  lemma {:induction false} SuperStart(t: Table, s: nat)
    requires Buildable(t) && s < Groups(|t.windows|, t.group)
    ensures FirstWindow(s, t.group) < |t.windows| && SuperBefore(t, s) == PrevLast(t.windows, FirstWindow(s, t.group)) <= SuperLast(t, s)
  {
    var n, g := |t.windows|, t.group;
    GroupStarts(n, g, s);
    if s > 0 {
      GroupStarts(n, g, s - 1);
      LastsClimb(t.windows, FirstWindow(s, g) - 1, BlockEnd(s, g, n) - 1);
    }
  }

  ghost function RegionUpTo(t: Table, s: nat): Bytes
    requires Buildable(t) && s <= Groups(|t.windows|, t.group)
  {
    Join(Blocks(t), 0, s)
  }

  lemma {:induction false} RegionSnoc(t: Table, s: nat)
    requires Buildable(t) && s < Groups(|t.windows|, t.group)
    ensures RegionUpTo(t, s + 1) == RegionUpTo(t, s) + BlockOf(t, s)
  {
    JoinSnoc(Blocks(t), s);
  }

  function PutDirRow(delta: nat, off: nat, len: nat): Bytes {
    Encode(delta) + (Encode(off) + Encode(len))
  }

  /** Last docid, offset and length of a super-block. */
  datatype DirEntry = DirEntry(last: nat, off: nat, len: nat)

  function PutEntry(e: DirEntry, before: nat): Bytes
    requires before <= e.last
  {
    PutDirRow(e.last - before, e.off, e.len)
  }

  ghost function EntryOf(t: Table, s: nat): DirEntry
    requires Buildable(t) && s < Groups(|t.windows|, t.group)
  {
    DirEntry(SuperLast(t, s), |RegionUpTo(t, s)|, |BlockOf(t, s)|)
  }

  ghost function DirRow(t: Table, s: nat): Bytes
    requires Buildable(t) && s < Groups(|t.windows|, t.group)
  {
    SuperStart(t, s);
    PutEntry(EntryOf(t, s), SuperBefore(t, s))
  }

  ghost function DirRows(t: Table): (r: seq<Bytes>)
    requires Buildable(t)
    ensures |r| == Groups(|t.windows|, t.group) && forall s: nat {:trigger r[s]} :: s < |r| ==> r[s] == DirRow(t, s)
  {
    seq(Groups(|t.windows|, t.group), s requires 0 <= s < Groups(|t.windows|, t.group) => DirRow(t, s))
  }

  ghost function DirIn(t: Table, lo: nat, hi: nat): Bytes
    requires Buildable(t) && lo <= hi <= Groups(|t.windows|, t.group)
  {
    Join(DirRows(t), lo, hi)
  }

  lemma {:induction false} DirSnoc(t: Table, s: nat)
    requires Buildable(t) && s < Groups(|t.windows|, t.group)
    ensures DirIn(t, 0, s + 1) == DirIn(t, 0, s) + DirRow(t, s)
  {
    JoinSnoc(DirRows(t), s);
  }

  // ----- the bytes

  function Flags(hasFreq: bool, hasPrx: bool): byte {
    (if hasFreq then 1 else 0) + (if hasPrx then 2 else 0)
  }

  function HeaderBytes(hasFreq: bool, hasPrx: bool, n: nat, group: nat, supers: nat, dirLen: nat): Bytes {
    [Flags(hasFreq, hasPrx)] + (Encode(n) + (Encode(group) + (Encode(supers) + Encode(dirLen))))
  }

  function Sealed(covered: Bytes): Bytes {
    covered + Fixed32(Crc32c.Digest(covered))
  }

  ghost function DirBytes(t: Table): Bytes
    requires Buildable(t)
  {
    DirIn(t, 0, Groups(|t.windows|, t.group))
  }

  ghost function RegionBytesOf(t: Table): Bytes
    requires Buildable(t)
  {
    RegionUpTo(t, Groups(|t.windows|, t.group))
  }

  ghost function HeadOf(t: Table): Bytes
    requires Buildable(t)
  {
    HeaderBytes(t.hasFreq, t.hasPrx, |t.windows|, t.group, Groups(|t.windows|, t.group), |DirBytes(t)|)
  }

  /** The byte form of the directory. */
  ghost function PreludeBytes(t: Table): Bytes
    requires Buildable(t)
  {
    Sealed(HeadOf(t) + DirBytes(t)) + RegionBytesOf(t)
  }

  // ----- writing

  method Validate(t: Table) returns (ok: bool)
    ensures ok <==> Buildable(t)
  {
    if t.group == 0 || |t.windows| > MAX_WINDOWS {
      return false;
    }
    var w := 1;
    while w < |t.windows|
      invariant w >= 1
      invariant forall i: nat {:trigger Follows(t.windows, i)} :: i < w && i < |t.windows| ==> Follows(t.windows, i)
    {
      if t.windows[w].lastDocid < t.windows[w - 1].lastDocid {
        assert !Follows(t.windows, w);
        return false;
      }
      w := w + 1;
    }
    ok := true;
  }

  method EncodeBlock(t: Table, start: nat, end: nat, prev: nat) returns (block: Bytes, last: nat)
    requires InOrder(t.windows) && start < end <= |t.windows| && prev == PrevLast(t.windows, start)
    ensures block == RowsIn(t, start, end) && last == t.windows[end - 1].lastDocid
  {
    block, last := [], prev;
    RowsSnoc(t, start, start);
    for w := start to end
      invariant block == RowsIn(t, start, w) && last == PrevLast(t.windows, w)
    {
      assert Follows(t.windows, w);
      RowsSnoc(t, start, w);
      block, last := block + RowBytes(t.windows[w], t.hasFreq, t.hasPrx, last), t.windows[w].lastDocid;
    }
  }

  datatype SuperBlock = SuperBlock(bytes: Bytes, last: nat)

  ghost predicate SuperIs(t: Table, b: SuperBlock, s: nat) {
    Buildable(t) && s < Groups(|t.windows|, t.group) && b == SuperBlock(BlockOf(t, s), SuperLast(t, s))
  }

  ghost predicate SupersAre(t: Table, bs: seq<SuperBlock>) {
    forall s: nat {:trigger SuperIs(t, bs[s], s)} :: s < |bs| ==> SuperIs(t, bs[s], s)
  }

  /** Window rows in groups, the running last docid chained across them. */
  method EncodeSuperBlocks(t: Table) returns (bs: seq<SuperBlock>)
    requires Buildable(t)
    ensures |bs| == Groups(|t.windows|, t.group) && SupersAre(t, bs)
  {
    bs := [];
    var start, prev := 0, 0;
    var n := |t.windows|;
    while start < n
      invariant start == FirstWindow(|bs|, t.group) && SupersAre(t, bs)
      invariant |bs| > 0 ==> FirstWindow(|bs| - 1, t.group) < n
      invariant start < n ==> prev == PrevLast(t.windows, start)
    {
      ghost var s := |bs|;
      var end := Min(start + t.group, n);
      var block, last := EncodeBlock(t, start, end, prev);
      NextSuper(s, t.group);
      SuperBuilt(t, s, SuperBlock(block, last));
      SupersSnoc(t, bs, SuperBlock(block, last));
      bs := bs + [SuperBlock(block, last)];
      prev := last;
      start := start + t.group;
    }
    GroupsIs(n, t.group, |bs|);
  }

  lemma {:induction false} StartsInside(n: nat, g: nat, s: nat)
    requires g >= 1 && FirstWindow(s, g) < n
    ensures s < Groups(n, g)
  {
    GroupsCover(n, g);
    MulOrder(s, Groups(n, g), g);
  }

  lemma {:induction false} SuperBuilt(t: Table, s: nat, b: SuperBlock)
    requires Buildable(t) && FirstWindow(s, t.group) < |t.windows|
    requires var end := BlockEnd(s, t.group, |t.windows|); b == SuperBlock(RowsIn(t, FirstWindow(s, t.group), end), t.windows[end - 1].lastDocid)
    ensures SuperIs(t, b, s)
  {
    StartsInside(|t.windows|, t.group, s);
  }

  lemma {:induction false} SupersSnoc(t: Table, bs: seq<SuperBlock>, b: SuperBlock)
    requires SupersAre(t, bs) && SuperIs(t, b, |bs|)
    ensures SupersAre(t, bs + [b])
  {
    var more := bs + [b];
    forall s: nat | s < |more| ensures SuperIs(t, more[s], s) {
      if s < |bs| {
        assert SuperIs(t, bs[s], s);
      }
    }
  }

  /** One row per super-block: last docid, offset and length of its window rows. */
  method EncodeDir(t: Table, bs: seq<SuperBlock>) returns (dir: Bytes, region: Bytes)
    requires Buildable(t) && |bs| == Groups(|t.windows|, t.group) && SupersAre(t, bs)
    ensures dir == DirBytes(t) && region == RegionBytesOf(t)
  {
    dir, region := [], [];
    var prev := 0;
    for s := 0 to |bs|
      invariant dir == DirIn(t, 0, s) && region == RegionUpTo(t, s) && prev == SuperBefore(t, s)
    {
      assert SuperIs(t, bs[s], s);
      SuperStart(t, s);
      DirSnoc(t, s);
      RegionSnoc(t, s);
      dir := dir + PutEntry(DirEntry(bs[s].last, |region|, |bs[s].bytes|), prev);
      region, prev := region + bs[s].bytes, bs[s].last;
    }
  }

  /** Refused exactly when the grouping is zero, there are too many windows, or last docids
      step back. */
  method BuildPrelude(t: Table) returns (r: Result<Bytes>)
    ensures r.Ok? <==> Buildable(t)
    ensures r.Ok? ==> r.value == PreludeBytes(t)
  {
    var ok := Validate(t);
    if !ok {
      return Error(InvalidArgument("frq_prelude: bad windows"));
    }
    var bs := EncodeSuperBlocks(t);
    var dir, region := EncodeDir(t, bs);
    var covered := HeaderBytes(t.hasFreq, t.hasPrx, |t.windows|, t.group, |bs|, |dir|) + dir;
    r := Ok(Sealed(covered) + region);
  }
}
