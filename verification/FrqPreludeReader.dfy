/** Opening a window directory: header, checksum, super-block rows, window rows, and the
    check that the regions tile their blocks. */
module FrqPreludeReader {
  import opened Common
  import opened Varint
  import opened ByteStreams
  import opened Pieces
  import opened WindowRows
  import opened WindowDirectory
  import opened FrqPrelude
  import Crc32c

  /** A directory as the reader keeps it. */
  datatype Prelude = Prelude(hasFreq: bool, hasPrx: bool, group: nat, superLasts: seq<nat>, windows: seq<WindowMeta>, ddLen: nat, freqLen: nat)

  // ----- header

  datatype Header = Header(hasFreq: bool, hasPrx: bool, n: nat, group: nat, supers: nat, dirLen: nat)

  predicate HeaderFits(h: Header) {
    h.n <= MAX_WINDOWS && h.supers <= MAX_WINDOWS && 1 <= h.group < TWO64 && h.dirLen < TWO64 && h.supers == Groups(h.n, h.group)
  }

  ghost predicate HeaderAt(src: Bytes, h: Header, rest: Bytes) {
    src == HeaderBytes(h.hasFreq, h.hasPrx, h.n, h.group, h.supers, h.dirLen) + rest
  }

  datatype HeaderCounts = HeaderCounts(n: nat, group: nat, supers: nat, dirLen: nat)

  method GetCounts(src: Bytes, ghost c: HeaderCounts, ghost rest: Bytes, ghost good: bool) returns (r: Result<Read<HeaderCounts>>)
    requires good ==> c.n < TWO64 && c.group < TWO64 && c.supers < TWO64 && c.dirLen < TWO64
    requires good ==> src == (Encode(c.n) + (Encode(c.group) + (Encode(c.supers) + Encode(c.dirLen)))) + rest
    ensures r.Ok? ==> |r.value.rest| <= |src|
    ensures good ==> r == Ok(Read(c, rest))
  {
    if good {
      var x, y, z := Encode(c.group), Encode(c.supers), Encode(c.dirLen);
      Nest4(Encode(c.n), x, y, z, rest);
      VarintFirst(c.n, x + (y + (z + rest)));
      VarintFirst(c.group, y + (z + rest));
      VarintFirst(c.supers, z + rest);
      VarintFirst(c.dirLen, rest);
    }
    var n := GetVarint64(src);
    if n.Error? {
      return Error(n.status);
    }
    var group := GetVarint64(n.value.rest);
    if group.Error? {
      return Error(group.status);
    }
    var supers := GetVarint64(group.value.rest);
    if supers.Error? {
      return Error(supers.status);
    }
    var dirLen := GetVarint64(supers.value.rest);
    if dirLen.Error? {
      return Error(dirLen.status);
    }
    r := Ok(Read(HeaderCounts(n.value.value, group.value.value, supers.value.value, dirLen.value.value), dirLen.value.rest));
  }

  method ParseHeader(src: Bytes, ghost h: Header, ghost rest: Bytes, ghost good: bool) returns (r: Result<Read<Header>>)
    requires good ==> HeaderFits(h) && HeaderAt(src, h, rest)
    ensures r.Ok? ==> r.value.value.group >= 1 && |r.value.rest| <= |src| && r.value.value.supers == Groups(r.value.value.n, r.value.value.group)
    ensures good ==> r == Ok(Read(h, rest))
  {
    ghost var counts := Encode(h.n) + (Encode(h.group) + (Encode(h.supers) + Encode(h.dirLen)));
    if good {
      Cat2([Flags(h.hasFreq, h.hasPrx)], counts, rest);
      U8First(Flags(h.hasFreq, h.hasPrx), counts + rest);
    }
    var flags := GetU8(src);
    if flags.Error? {
      return Error(flags.status);
    }
    var c := GetCounts(flags.value.rest, HeaderCounts(h.n, h.group, h.supers, h.dirLen), rest, good);
    if c.Error? {
      return Error(c.status);
    }
    var v := c.value.value;
    if v.n > MAX_WINDOWS || v.supers > MAX_WINDOWS {
      return Error(Corruption("frq_prelude: window count exceeds sane cap"));
    }
    if v.group == 0 {
      return Error(Corruption("frq_prelude: group_size is zero"));
    }
    GroupsIsCeil(v.n, v.group);
    if v.supers != CeilDiv(v.n, v.group) {
      return Error(Corruption("frq_prelude: n_super inconsistent with N/G"));
    }
    var b := flags.value.value;
    r := Ok(Read(Header(b % 2 == 1, b / 2 % 2 == 1, v.n, v.group, v.supers, v.dirLen), c.value.rest));
  }

  // ----- checksum

  lemma {:induction false} SealCuts(covered: Bytes, region: Bytes)
    ensures var all, k := Sealed(covered) + region, |covered|;
            && |all| >= k + 4 && all[..k] == covered && all[k + 4..] == region
            && GetFixed32(all[k..k + 4]) == Ok(Read(Crc32c.Digest(covered), []))
  {
    var crc := Fixed32(Crc32c.Digest(covered));
    var all, k := Sealed(covered) + region, |covered|;
    Crc32c.DigestFits(covered);
    Fixed32First(Crc32c.Digest(covered), []);
    assert all == covered + (crc + region);
    assert all[..k] == covered && all[k..] == crc + region;
    assert all[k..k + 4] == crc && crc + [] == crc;
    assert all[k + 4..] == region;
  }

  /** What follows the checksummed part. */
  method VerifyCovered(prelude: Bytes, covered: nat, ghost cov: Bytes, ghost region: Bytes, ghost good: bool) returns (r: Result<Bytes>)
    requires good ==> prelude == Sealed(cov) + region && covered == |cov|
    ensures r.Ok? ==> covered + 4 <= |prelude|
    ensures good ==> r == Ok(region)
  {
    if good {
      SealCuts(cov, region);
    }
    if covered + 4 > |prelude| {
      return Error(Corruption("frq_prelude: buffer too short for crc region"));
    }
    var stored := GetFixed32(prelude[covered..covered + 4]);
    if stored.Error? {
      return Error(stored.status);
    }
    if Crc32c.Digest(prelude[..covered]) != stored.value.value {
      return Error(Corruption("frq_prelude: crc32c mismatch"));
    }
    r := Ok(prelude[covered + 4..]);
  }

  // ----- super-block rows

  /** The directory fits 64-bit offsets and 32-bit docids. */
  ghost predicate Sized(t: Table) {
    && Buildable(t) && t.group < TWO32
    && RowsGood(t)
    && (forall s: nat {:trigger SuperGood(t, s)} :: s < Supers(t) ==> SuperGood(t, s))
  }

  ghost predicate RowsGood(t: Table) {
    InOrder(t.windows) && forall w: nat {:trigger RowGood(t, w)} :: w < |t.windows| ==> RowGood(t, w)
  }

  ghost predicate SuperGood(t: Table, s: nat)
    requires Buildable(t) && s < Supers(t)
  {
    |RegionUpTo(t, s)| + |BlockOf(t, s)| == |RegionUpTo(t, s + 1)| < TWO64 && SuperBefore(t, s) <= SuperLast(t, s) < TWO32
  }

  ghost predicate RowGood(t: Table, w: nat)
    requires w < |t.windows|
  {
    RowFits(t.windows[w], t.hasFreq, t.hasPrx) && t.windows[w].winBase == PrevLast(t.windows, w)
  }

  function Supers(t: Table): nat
    requires t.group >= 1
  {
    Groups(|t.windows|, t.group)
  }

  lemma {:induction false} RegionFits(t: Table, s: nat)
    requires Buildable(t) && |RegionBytesOf(t)| < TWO64 && s < Supers(t)
    requires forall w: nat {:trigger RowGood(t, w)} :: w < |t.windows| ==> RowGood(t, w)
    ensures SuperGood(t, s)
  {
    SuperStart(t, s);
    RegionSnoc(t, s);
    JoinSplit(Blocks(t), 0, s + 1, Supers(t));
    GroupStarts(|t.windows|, t.group, s);
    assert RowGood(t, BlockEnd(s, t.group, |t.windows|) - 1);
  }

  /** Rows of the right widths and fewer than 2^64 bytes in all. */
  lemma {:induction false} SizedBySize(t: Table)
    requires Buildable(t) && t.group < TWO32 && |PreludeBytes(t)| < TWO64
    requires forall w: nat {:trigger RowGood(t, w)} :: w < |t.windows| ==> RowGood(t, w)
    ensures Sized(t) && |DirBytes(t)| < TWO64
  {
    forall s: nat | s < Supers(t) ensures SuperGood(t, s) {
      RegionFits(t, s);
    }
  }

  method GetDirRow(src: Bytes, ghost delta: nat, ghost off: nat, ghost len: nat, ghost rest: Bytes, ghost good: bool) returns (r: Result<Read<DirEntry>>)
    requires good ==> delta < TWO64 && off < TWO64 && len < TWO64 && src == PutDirRow(delta, off, len) + rest
    ensures good ==> r == Ok(Read(DirEntry(delta, off, len), rest))
  {
    if good {
      Nest3(Encode(delta), Encode(off), Encode(len), rest);
      VarintFirst(delta, Encode(off) + (Encode(len) + rest));
      VarintFirst(off, Encode(len) + rest);
      VarintFirst(len, rest);
    }
    var d := GetVarint64(src);
    if d.Error? {
      return Error(d.status);
    }
    var o := GetVarint64(d.value.rest);
    if o.Error? {
      return Error(o.status);
    }
    var l := GetVarint64(o.value.rest);
    if l.Error? {
      return Error(l.status);
    }
    r := Ok(Read(DirEntry(d.value.value, o.value.value, l.value.value), l.value.rest));
  }

  function LastBefore(es: seq<DirEntry>, s: nat): nat
    requires s <= |es|
  {
    if s == 0 then 0 else es[s - 1].last
  }

  /** Where the next block starts. */
  function NextOff(es: seq<DirEntry>, s: nat): nat
    requires s <= |es|
  {
    if s == 0 then 0 else es[s - 1].off + es[s - 1].len
  }

  /** Piece `s` is the row of entry `s`, and the entry starts where the one before ended. */
  ghost predicate EntryIn(ps: seq<Bytes>, es: seq<DirEntry>, s: nat) {
    && s < |ps| && s < |es| && LastBefore(es, s) <= es[s].last < TWO64 && es[s].off == NextOff(es, s) < TWO64 && es[s].len < TWO64
    && ps[s] == PutEntry(es[s], LastBefore(es, s))
  }

  ghost predicate EntriesIn(ps: seq<Bytes>, es: seq<DirEntry>) {
    |ps| == |es| && forall s: nat {:trigger EntryIn(ps, es, s)} :: s < |es| ==> EntryIn(ps, es, s)
  }

  datatype DirState = DirState(src: Bytes, rows: seq<DirEntry>, prev: nat, nextOff: nat)

  ghost predicate DirAt(ps: seq<Bytes>, es: seq<DirEntry>, st: DirState, s: nat) {
    EntriesIn(ps, es) && s <= |es| && st == DirState(Join(ps, s, |ps|), es[..s], LastBefore(es, s), NextOff(es, s))
  }

  /** One row: the last docid must not overflow and the block must start where the previous
      one ended. */
  method NextDirRow(st: DirState, ghost ps: seq<Bytes>, ghost es: seq<DirEntry>, ghost s: nat, ghost good: bool) returns (r: Result<DirState>)
    requires good ==> DirAt(ps, es, st, s) && s < |es|
    ensures good ==> r.Ok? && DirAt(ps, es, r.value, s + 1)
  {
    ghost var delta: nat, off: nat, len: nat, rest: Bytes := 0, 0, 0, [];
    if good {
      assert EntryIn(ps, es, s);
      delta, off, len, rest := es[s].last - LastBefore(es, s), es[s].off, es[s].len, Join(ps, s + 1, |ps|);
    }
    var row := GetDirRow(st.src, delta, off, len, rest, good);
    if row.Error? {
      return Error(row.status);
    }
    var e := row.value.value;
    if st.prev + e.last >= TWO64 || e.off != st.nextOff {
      return Error(Corruption("frq_prelude: super-block dir inconsistent"));
    }
    var last := st.prev + e.last;
    r := Ok(DirState(row.value.rest, st.rows + [DirEntry(last, e.off, e.len)], last, st.nextOff + e.len));
  }

  method DecodeDir(dir: Bytes, supers: nat, ghost ps: seq<Bytes>, ghost es: seq<DirEntry>, ghost good: bool) returns (r: Result<DirState>)
    requires good ==> EntriesIn(ps, es) && dir == Join(ps, 0, |ps|) && supers == |es|
    ensures good ==> r.Ok? && r.value.rows == es && r.value.nextOff == NextOff(es, |es|)
  {
    var st := DirState(dir, [], 0, 0);
    for s := 0 to supers
      invariant good ==> DirAt(ps, es, st, s)
    {
      var next := NextDirRow(st, ps, es, s, good);
      if next.Error? {
        return Error(next.status);
      }
      st := next.value;
    }
    assert good ==> es[..|es|] == es;
    if st.src != [] {
      return Error(Corruption("frq_prelude: super-block dir has trailing bytes"));
    }
    r := Ok(st);
  }

  /** The entries a table's directory holds. */
  ghost function Entries(t: Table): (r: seq<DirEntry>)
    requires Buildable(t)
    ensures |r| == Supers(t) && forall s: nat {:trigger r[s]} :: s < |r| ==> r[s] == EntryOf(t, s)
  {
    seq(Supers(t), s requires 0 <= s < Supers(t) => EntryOf(t, s))
  }

  lemma {:induction false} EntriesChain(t: Table, s: nat)
    requires Sized(t) && s <= Supers(t)
    ensures LastBefore(Entries(t), s) == SuperBefore(t, s) && NextOff(Entries(t), s) == |RegionUpTo(t, s)|
  {
    if s > 0 {
      assert SuperGood(t, s - 1);
    }
  }

  lemma {:induction false} EntryFields(t: Table, s: nat)
    requires Sized(t) && s < Supers(t)
    ensures var e := EntryOf(t, s);
            && SuperBefore(t, s) <= e.last < TWO32 && e.off + e.len < TWO64
            && DirRow(t, s) == PutEntry(e, SuperBefore(t, s))
  {
    assert SuperGood(t, s);
  }

  lemma {:induction false} EntryFrom(ps: seq<Bytes>, es: seq<DirEntry>, s: nat, before: nat, e: DirEntry)
    requires s < |ps| && s < |es| && es[s] == e && LastBefore(es, s) == before && NextOff(es, s) == e.off
    requires before <= e.last < TWO32 && e.off + e.len < TWO64 && ps[s] == PutEntry(e, before)
    ensures EntryIn(ps, es, s)
  {
  }

  lemma {:induction false} EntryCoded(t: Table, s: nat)
    requires Sized(t) && s < Supers(t)
    ensures EntryIn(DirRows(t), Entries(t), s)
  {
    var ps, es, before, e, row := DirRows(t), Entries(t), SuperBefore(t, s), EntryOf(t, s), DirRow(t, s);
    assert ps[s] == row && es[s] == e;
    EntriesChain(t, s);
    EntryFields(t, s);
    EntryFrom(ps, es, s, before, e);
  }

  lemma {:induction false} EntriesCoded(t: Table)
    requires Sized(t)
    ensures EntriesIn(DirRows(t), Entries(t))
  {
    var ps, es := DirRows(t), Entries(t);
    forall s: nat | s < |es| ensures EntryIn(ps, es, s) {
      EntryCoded(t, s);
    }
  }

  // ----- window rows

  datatype RowState = RowState(src: Bytes, at: nat, ws: seq<WindowMeta>)

  /** Rows `lo` up to `w` are read, those up to `hi` remain. */
  ghost predicate RowsAt(t: Table, st: RowState, lo: nat, w: nat, hi: nat) {
    && InOrder(t.windows) && lo <= w <= hi <= |t.windows|
    && st.src == RowsIn(t, w, hi) && st.at == PrevLast(t.windows, w) && st.ws == t.windows[lo..w]
  }

  lemma {:induction false} RowsEnd(t: Table, st: RowState, lo: nat, hi: nat)
    requires RowsAt(t, st, lo, hi, hi)
    ensures st.src == [] && st.at == PrevLast(t.windows, hi) && st.ws == t.windows[lo..hi]
  {
  }

  method NextWindow(st: RowState, h: Header, ghost t: Table, ghost lo: nat, ghost w: nat, ghost hi: nat, ghost good: bool) returns (r: Result<RowState>)
    requires good ==> RowsGood(t) && RowsAt(t, st, lo, w, hi) && w < hi && h.hasFreq == t.hasFreq && h.hasPrx == t.hasPrx
    ensures r.Ok? ==> |r.value.ws| == |st.ws| + 1
    ensures good ==> r.Ok? && RowsAt(t, r.value, lo, w + 1, hi)
  {
    ghost var m, rest: Bytes := WindowMeta(0, 0, 0, NoPlace(), NoPlace(), 0, 0, 0, 0), [];
    if good {
      m, rest := t.windows[w], RowsIn(t, w + 1, hi);
      NextRow(t, w, hi);
    }
    var row := DecodeRow(st.src, h.hasFreq, h.hasPrx, st.at, m, rest, good);
    if row.Error? {
      return Error(row.status);
    }
    r := Ok(RowState(row.value.rest, row.value.value.lastDocid, st.ws + [row.value.value]));
  }

  /** A super-block's rows, chained from the last docid before them. */
  method DecodeBlock(block: Bytes, h: Header, count: nat, last: nat, prev: nat, ghost t: Table, ghost lo: nat, ghost good: bool)
    returns (r: Result<seq<WindowMeta>>)
    requires good ==> RowsGood(t) && h.hasFreq == t.hasFreq && h.hasPrx == t.hasPrx && RowsAt(t, RowState(block, prev, []), lo, lo, lo + count)
    requires good ==> last == PrevLast(t.windows, lo + count)
    ensures r.Ok? ==> |r.value| == count
    ensures good ==> r == Ok(t.windows[lo..lo + count])
  {
    var st := RowState(block, prev, []);
    ghost var w, hi := lo, lo + count;
    for i := 0 to count
      invariant |st.ws| == i && w == lo + i && (good ==> RowsAt(t, st, lo, w, hi))
    {
      var next := NextWindow(st, h, t, lo, w, hi, good);
      if next.Error? {
        return Error(next.status);
      }
      st := next.value;
      w := w + 1;
    }
    if good {
      RowsEnd(t, st, lo, hi);
    }
    if st.src != [] {
      return Error(Corruption("frq_prelude: window block has trailing bytes"));
    }
    if st.at != last {
      return Error(Corruption("frq_prelude: window block last docid mismatch"));
    }
    r := Ok(st.ws);
  }

  lemma {:induction false} NextRow(t: Table, w: nat, hi: nat)
    requires RowsGood(t) && w < hi <= |t.windows|
    ensures var m := t.windows[w];
            && RowFits(m, t.hasFreq, t.hasPrx) && m.winBase == PrevLast(t.windows, w) <= m.lastDocid
            && RowsIn(t, w, hi) == RowBytes(m, t.hasFreq, t.hasPrx, m.winBase) + RowsIn(t, w + 1, hi)
  {
    assert RowGood(t, w) && Follows(t.windows, w);
    RowsCons(t, w, hi);
  }

  lemma {:induction false} BlockSpan(t: Table, s: nat)
    requires t.group >= 1 && s < Supers(t)
    ensures var lo, hi := FirstWindow(s, t.group), BlockEnd(s, t.group, |t.windows|);
            && lo < hi <= |t.windows| && hi - lo == Min(t.group, |t.windows| - lo)
            && SuperLast(t, s) == PrevLast(t.windows, hi) && Upto(t, s) == lo && Upto(t, s + 1) == hi
  {
    GroupStarts(|t.windows|, t.group, s);
  }

  lemma {:induction false} BlockSlice(t: Table, s: nat)
    requires Buildable(t) && s < Supers(t)
    ensures var off, len, all := |RegionUpTo(t, s)|, |BlockOf(t, s)|, RegionBytesOf(t);
            off + len <= |all| && all[off..off + len] == BlockOf(t, s)
  {
    RegionSnoc(t, s);
    JoinSplit(Blocks(t), 0, s + 1, Supers(t));
    CutMiddle(RegionUpTo(t, s), BlockOf(t, s), Join(Blocks(t), s + 1, Supers(t)));
  }

  lemma {:induction false} CutMiddle(a: Bytes, b: Bytes, c: Bytes)
    ensures ((a + b) + c)[|a|..|a| + |b|] == b
  {
  }

  /** Window rows read before super-block `s`. */
  function Upto(t: Table, s: nat): nat
    requires t.group >= 1
  {
    Min(FirstWindow(s, t.group), |t.windows|)
  }

  /** The entry cuts the rows `lo` up to `hi`, one group, out of the region. */
  ghost predicate BlockIn(t: Table, region: Bytes, e: DirEntry, lo: nat, hi: nat) {
    && lo <= hi <= |t.windows| && hi - lo == Min(t.group, |t.windows| - lo) && InOrder(t.windows)
    && e.off + e.len <= |region| && region[e.off..e.off + e.len] == RowsIn(t, lo, hi) && e.last == PrevLast(t.windows, hi)
  }

  ghost predicate SuperIn(t: Table, region: Bytes, es: seq<DirEntry>, s: nat) {
    t.group >= 1 && s < |es| && BlockIn(t, region, es[s], Upto(t, s), Upto(t, s + 1))
  }

  ghost predicate SupersIn(t: Table, region: Bytes, es: seq<DirEntry>) {
    forall s: nat {:trigger SuperIn(t, region, es, s)} :: s < |es| ==> SuperIn(t, region, es, s)
  }

  lemma {:induction false} EntriesCut(t: Table)
    requires Buildable(t)
    ensures SupersIn(t, RegionBytesOf(t), Entries(t)) && Upto(t, Supers(t)) == |t.windows| && Upto(t, 0) == 0
  {
    var region, es := RegionBytesOf(t), Entries(t);
    forall s: nat | s < |es| ensures SuperIn(t, region, es, s) {
      BlockSpan(t, s);
      BlockSlice(t, s);
    }
    GroupsCover(|t.windows|, t.group);
  }

  /** What the header of a table says. */
  ghost predicate HeaderOf(h: Header, t: Table) {
    h.hasFreq == t.hasFreq && h.hasPrx == t.hasPrx && h.n == |t.windows| && h.group == t.group
  }

  /** One super-block's rows, cut out of the region by its directory row. */
  method NextBlock(region: Bytes, h: Header, e: DirEntry, ws: seq<WindowMeta>, prev: nat, ghost t: Table, ghost hi: nat, ghost good: bool)
    returns (r: Result<seq<WindowMeta>>)
    requires |ws| <= h.n
    requires good ==> Sized(t) && HeaderOf(h, t) && BlockIn(t, region, e, |ws|, hi) && ws == t.windows[..|ws|] && prev == PrevLast(t.windows, |ws|)
    ensures r.Ok? ==> |ws| <= |r.value| <= h.n
    ensures good ==> r == Ok(t.windows[..hi])
  {
    if e.off + e.len > |region| {
      return Error(Corruption("frq_prelude: window block out of region"));
    }
    var more := DecodeBlock(region[e.off..e.off + e.len], h, Min(h.group, h.n - |ws|), e.last, prev, t, |ws|, good);
    if more.Error? {
      return Error(more.status);
    }
    assert good ==> t.windows[..|ws|] + t.windows[|ws|..hi] == t.windows[..hi];
    r := Ok(ws + more.value);
  }

  method DecodeBlocks(region: Bytes, h: Header, rows: seq<DirEntry>, ghost t: Table, ghost good: bool) returns (r: Result<seq<WindowMeta>>)
    requires good ==> Sized(t) && HeaderOf(h, t) && SupersIn(t, region, rows) && Upto(t, |rows|) == |t.windows| && Upto(t, 0) == 0
    ensures good ==> r == Ok(t.windows)
  {
    var ws: seq<WindowMeta>, prev := [], 0;
    for s := 0 to |rows|
      invariant |ws| <= h.n
      invariant good ==> ws == t.windows[..Upto(t, s)] && prev == PrevLast(t.windows, Upto(t, s))
    {
      assert good ==> SuperIn(t, region, rows, s);
      var next := NextBlock(region, h, rows[s], ws, prev, t, if good then Upto(t, s + 1) else 0, good);
      if next.Error? {
        return Error(next.status);
      }
      ws, prev := next.value, rows[s].last;
    }
    assert good ==> t.windows[..|t.windows|] == t.windows;
    if |ws| != h.n {
      return Error(Corruption("frq_prelude: decoded window count mismatch"));
    }
    r := Ok(ws);
  }

  // ----- region layout

  /** Bytes of the first `k` docid regions. */
  function DdSum(ws: seq<WindowMeta>, k: nat): nat
    requires k <= |ws|
  {
    if k == 0 then 0 else DdSum(ws, k - 1) + ws[k - 1].dd.diskLen
  }

  function FreqSum(ws: seq<WindowMeta>, k: nat): nat
    requires k <= |ws|
  {
    if k == 0 then 0 else FreqSum(ws, k - 1) + ws[k - 1].freq.diskLen
  }

  /** Window `w` starts where the one before ended, in both blocks. */
  ghost predicate TiledRow(ws: seq<WindowMeta>, hasFreq: bool, w: nat)
    requires w < |ws|
  {
    && ws[w].dd.off == DdSum(ws, w) && DdSum(ws, w + 1) < TWO64 && (ws[w].dd.zstd || ws[w].dd.diskLen <= ws[w].dd.uncompLen)
    && (hasFreq ==> ws[w].freq.off == FreqSum(ws, w) && FreqSum(ws, w + 1) < TWO64)
  }

  ghost predicate Tiled(ws: seq<WindowMeta>, hasFreq: bool) {
    forall w: nat {:trigger TiledRow(ws, hasFreq, w)} :: w < |ws| ==> TiledRow(ws, hasFreq, w)
  }

  datatype Extent = Extent(dd: nat, freq: nat)

  /** Accepted exactly when the regions tile their blocks. */
  method ValidateLayout(ws: seq<WindowMeta>, hasFreq: bool) returns (r: Result<Extent>)
    ensures r.Ok? <==> Tiled(ws, hasFreq)
    ensures r.Ok? ==> r.value.dd == DdSum(ws, |ws|) && r.value.freq == if hasFreq then FreqSum(ws, |ws|) else 0
  {
    var dd, freq := 0, 0;
    for w := 0 to |ws|
      invariant dd == DdSum(ws, w) && freq == if hasFreq then FreqSum(ws, w) else 0
      invariant forall i: nat {:trigger TiledRow(ws, hasFreq, i)} :: i < w ==> TiledRow(ws, hasFreq, i)
    {
      var m := ws[w];
      ghost var tiled := TiledRow(ws, hasFreq, w);
      if m.dd.off != dd {
        return Error(Corruption("frq_prelude: dd region not contiguous"));
      }
      if m.dd.diskLen > m.dd.uncompLen && !m.dd.zstd {
        return Error(Corruption("frq_prelude: raw dd region length inconsistent"));
      }
      if dd + m.dd.diskLen >= TWO64 {
        return Error(Corruption("frq_prelude: dd block length overflow"));
      }
      dd := dd + m.dd.diskLen;
      if hasFreq {
        if m.freq.off != freq {
          return Error(Corruption("frq_prelude: freq region not contiguous"));
        }
        if freq + m.freq.diskLen >= TWO64 {
          return Error(Corruption("frq_prelude: freq block length overflow"));
        }
        freq := freq + m.freq.diskLen;
      }
    }
    r := Ok(Extent(dd, freq));
  }

  // ----- opening

  ghost function SuperLasts(t: Table): (r: seq<nat>)
    requires t.group >= 1
    ensures |r| == Supers(t) && forall s: nat {:trigger r[s]} :: s < |r| ==> r[s] == SuperLast(t, s)
  {
    seq(Supers(t), s requires 0 <= s < Supers(t) => SuperLast(t, s))
  }

  /** The directory a table opens to. */
  ghost function Opened(t: Table): Prelude
    requires Buildable(t)
  {
    Prelude(t.hasFreq, t.hasPrx, t.group, SuperLasts(t), t.windows, DdSum(t.windows, |t.windows|), if t.hasFreq then FreqSum(t.windows, |t.windows|) else 0)
  }

  /** What the bytes of a table must satisfy for a reader to accept them. */
  ghost predicate Openable(t: Table) {
    Sized(t) && |DirBytes(t)| < TWO64 && Tiled(t.windows, t.hasFreq)
  }

  ghost function HeaderFor(t: Table): Header
    requires Buildable(t)
  {
    Header(t.hasFreq, t.hasPrx, |t.windows|, t.group, Supers(t), |DirBytes(t)|)
  }

  lemma {:induction false} SealedSplits(head: Bytes, dir: Bytes, crc: Bytes, region: Bytes)
    ensures ((head + dir) + crc) + region == head + (dir + (crc + region))
  {
  }

  ghost function HeadBytes(h: Header): Bytes {
    HeaderBytes(h.hasFreq, h.hasPrx, h.n, h.group, h.supers, h.dirLen)
  }

  datatype Parts = Parts(header: Header, dir: Bytes, region: Bytes)

  ghost predicate PartsOf(prelude: Bytes, p: Parts) {
    HeaderFits(p.header) && p.header.dirLen == |p.dir| && prelude == Sealed(HeadBytes(p.header) + p.dir) + p.region
  }

  /** The header and the directory bytes behind it, checked. */
  method OpenHead(prelude: Bytes, ghost p: Parts, ghost good: bool) returns (r: Result<Parts>)
    requires good ==> PartsOf(prelude, p)
    ensures r.Ok? ==> r.value.header.group >= 1
    ensures good ==> r == Ok(p)
  {
    ghost var head, rest := HeadBytes(p.header), p.dir + (Fixed32(Crc32c.Digest(HeadBytes(p.header) + p.dir)) + p.region);
    if good {
      SealedSplits(head, p.dir, Fixed32(Crc32c.Digest(head + p.dir)), p.region);
      HeadThenDir(head, p.dir, rest, prelude);
    }
    var h := ParseHeader(prelude, p.header, rest, good);
    if h.Error? {
      return Error(h.status);
    }
    var end := |prelude| - |h.value.rest|;
    var region := VerifyCovered(prelude, end + h.value.value.dirLen, head + p.dir, p.region, good);
    if region.Error? {
      return Error(region.status);
    }
    r := Ok(Parts(h.value.value, prelude[end..end + h.value.value.dirLen], region.value));
  }

  lemma {:induction false} HeadThenDir(head: Bytes, dir: Bytes, rest: Bytes, all: Bytes)
    requires all == head + rest && dir <= rest
    ensures |head| + |dir| <= |all| && all[|head|..|head| + |dir|] == dir && |all| - |rest| == |head|
  {
  }

  function LastsOf(rows: seq<DirEntry>): (r: seq<nat>)
    ensures |r| == |rows| && forall s: nat {:trigger r[s]} :: s < |r| ==> r[s] == rows[s].last
  {
    seq(|rows|, s requires 0 <= s < |rows| => rows[s].last)
  }

  /** How a table's bytes are laid out. */
  ghost predicate LaidOut(t: Table, p: Parts, ps: seq<Bytes>, es: seq<DirEntry>) {
    && HeaderOf(p.header, t) && 1 <= p.header.group < TWO32 && p.header.supers == |es|
    && EntriesIn(ps, es) && p.dir == Join(ps, 0, |ps|) && NextOff(es, |es|) == |p.region|
    && SupersIn(t, p.region, es) && Upto(t, |es|) == |t.windows| && Upto(t, 0) == 0
  }

  method OpenParts(prelude: Bytes, ghost t: Table, ghost p: Parts, ghost ps: seq<Bytes>, ghost es: seq<DirEntry>, ghost good: bool)
    returns (r: Result<Prelude>)
    requires good ==> Sized(t) && Tiled(t.windows, t.hasFreq) && PartsOf(prelude, p) && LaidOut(t, p, ps, es)
    ensures good ==> r == Ok(Prelude(t.hasFreq, t.hasPrx, t.group, LastsOf(es), t.windows,
                                     DdSum(t.windows, |t.windows|), if t.hasFreq then FreqSum(t.windows, |t.windows|) else 0))
  {
    var parts := OpenHead(prelude, p, good);
    if parts.Error? {
      return Error(parts.status);
    }
    var h := parts.value.header;
    var dir := DecodeDir(parts.value.dir, h.supers, ps, es, good);
    if dir.Error? {
      return Error(dir.status);
    }
    if dir.value.nextOff > |parts.value.region| {
      return Error(Corruption("frq_prelude: window region past buffer"));
    }
    var region := parts.value.region[..dir.value.nextOff];
    assert good ==> region == p.region;
    var ws := DecodeBlocks(region, h, dir.value.rows, t, good);
    if ws.Error? {
      return Error(ws.status);
    }
    var ext := ValidateLayout(ws.value, h.hasFreq);
    if ext.Error? {
      return Error(ext.status);
    }
    r := Ok(Prelude(h.hasFreq, h.hasPrx, h.group % TWO32, LastsOf(dir.value.rows), ws.value, ext.value.dd, ext.value.freq));
  }

  ghost function PartsFor(t: Table): Parts
    requires Buildable(t)
  {
    Parts(HeaderFor(t), DirBytes(t), RegionBytesOf(t))
  }

  lemma {:induction false} TableParts(t: Table)
    requires Openable(t)
    ensures PartsOf(PreludeBytes(t), PartsFor(t))
  {
    GroupsIsCeil(|t.windows|, t.group);
  }

  lemma {:induction false} TableLaidOut(t: Table)
    requires Openable(t)
    ensures LaidOut(t, PartsFor(t), DirRows(t), Entries(t))
  {
    EntriesCoded(t);
    EntriesCut(t);
    EntriesChain(t, Supers(t));
  }

  lemma {:induction false} LastsAreSupers(t: Table)
    requires Buildable(t)
    ensures LastsOf(Entries(t)) == SuperLasts(t)
  {
    var a, b, es := LastsOf(Entries(t)), SuperLasts(t), Entries(t);
    forall s: nat | s < |a| ensures a[s] == b[s] {
      assert es[s] == EntryOf(t, s);
    }
  }

  /** Reads back the directory that was written. */
  method Open(prelude: Bytes, ghost t: Table, ghost good: bool) returns (r: Result<Prelude>)
    requires good ==> Openable(t) && prelude == PreludeBytes(t)
    ensures good ==> r == Ok(Opened(t))
  {
    ghost var p: Parts, ps: seq<Bytes>, es: seq<DirEntry> := Parts(Header(false, false, 0, 1, 0, 0), [], []), [], [];
    if good {
      TableParts(t);
      TableLaidOut(t);
      LastsAreSupers(t);
      p, ps, es := PartsFor(t), DirRows(t), Entries(t);
    }
    r := OpenParts(prelude, t, p, ps, es, good);
  }

  /** The opened directory is one the two-level search is correct on. */
  lemma {:induction false} OpenedSearchable(t: Table)
    requires Buildable(t)
    ensures WindowDirectory.Valid(DirectoryOf(Opened(t)))
  {
    var d := DirectoryOf(Opened(t));
    forall i, j | 0 <= i < j < |d.lasts| ensures d.lasts[i] <= d.lasts[j] {
      LastsClimb(t.windows, i, j);
    }
    forall s: nat | s < |d.superLasts| ensures SuperRow(d, s) {
      BlockSpan(t, s);
    }
    forall i, j | 0 <= i < j < |d.superLasts| ensures d.superLasts[i] <= d.superLasts[j] {
      BlockSpan(t, i);
      BlockSpan(t, j);
      Grows(i + 1, j, t.group);
      NextSuper(i, t.group);
      LastsClimb(t.windows, BlockEnd(i, t.group, |t.windows|) - 1, BlockEnd(j, t.group, |t.windows|) - 1);
    }
    GroupsCover(|t.windows|, t.group);
  }

  function DirectoryOf(p: Prelude): Directory {
    Directory(LastDocids(p.windows), p.group, p.superLasts)
  }

  function LastDocids(ws: seq<WindowMeta>): (r: seq<nat>)
    ensures |r| == |ws| && forall w: nat {:trigger r[w]} :: w < |ws| ==> r[w] == ws[w].lastDocid
  {
    seq(|ws|, w requires 0 <= w < |ws| => ws[w].lastDocid)
  }
}
