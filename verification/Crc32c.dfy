/** CRC-32C (section 12.1 of RFC 3720): the slice-by-8 tables and loop against the
    bit-at-a-time reflected definition. A word is its 32 bits, least significant first. */
module Crc32c {
  import opened Common
  import opened BitStrings

  type Word = w: seq<bool> | |w| == 32 witness seq(32, _ => false)

  function Xor(a: Word, b: Word): (r: Word)
    ensures forall i :: 0 <= i < 32 ==> r[i] == (a[i] != b[i])
  {
    seq(32, i requires 0 <= i < 32 => a[i] != b[i])
  }

  function Shr(c: Word, k: nat): (r: Word)
    requires k <= 32
    ensures forall i :: 0 <= i < 32 ==> r[i] == (i + k < 32 && c[i + k])
  {
    c[k..] + Zeros(k)
  }

  /** The word whose low byte is `b`. */
  function LowByte(b: seq<bool>): (r: Word)
    requires |b| == 8
    ensures forall i :: 0 <= i < 32 ==> r[i] == (i < 8 && b[i])
  {
    b + Zeros(24)
  }

  lemma {:induction false} XorAssoc(a: Word, b: Word, c: Word)
    ensures Xor(Xor(a, b), c) == Xor(a, Xor(b, c))
  {
  }

  // ----- the definition

  /** The reflected Castagnoli polynomial. */
  function Poly(): Word {
    seq(32, i requires 0 <= i < 32 => 0x82F63B78 / Pow2(i) % 2 == 1)
  }

  /** One bit. */
  function Step(c: Word): Word {
    if c[0] then Xor(Poly(), Shr(c, 1)) else Shr(c, 1)
  }

  function Steps(f: Word -> Word, c: Word, k: nat): Word
    decreases k, |c|
  {
    if k == 0 then c else Steps(f, f(c), k - 1)
  }

  function FeedByte(f: Word -> Word, c: Word, b: byte): Word {
    Steps(f, Xor(c, LowByte(Bits(b as nat, 8))), 8)
  }

  function Feed(f: Word -> Word, c: Word, data: Bytes): Word
    decreases |data|
  {
    if data == [] then c else FeedByte(f, Feed(f, c, data[..|data| - 1]), data[|data| - 1])
  }

  function Not(c: Word): (r: Word)
    ensures forall i :: 0 <= i < 32 ==> r[i] == !c[i]
  {
    seq(32, i requires 0 <= i < 32 => !c[i])
  }

  /** The checksum continued from `crc`. */
  function Extended(crc: Word, data: Bytes): Word {
    Not(Feed(Step, Not(crc), data))
  }

  /** The checksum of a byte string, as a number. */
  function Digest(data: Bytes): (n: nat)
    ensures n < Pow2(32)
  {
    Val(Extended(Zeros(32), data))
  }

  // ----- linearity

  lemma {:induction false} StepXor(a: Word, b: Word)
    ensures Step(Xor(a, b)) == Xor(Step(a), Step(b))
  {
    var x := Xor(a, b);
    assert Shr(x, 1) == Xor(Shr(a, 1), Shr(b, 1));
    assert x[0] == (a[0] != b[0]);
    var l, r := Step(x), Xor(Step(a), Step(b));
    assert forall i :: 0 <= i < 32 ==> l[i] == r[i];
  }

  /** All the proof needs of a step: it is linear, and a zero bit just falls out. */
  ghost predicate Register(f: Word -> Word) {
    && (forall a: Word, b: Word :: f(Xor(a, b)) == Xor(f(a), f(b)))
    && (forall x: Word :: !x[0] ==> f(x) == Shr(x, 1))
  }

  lemma {:induction false} StepIsRegister()
    ensures Register(Step)
  {
    forall a: Word, b: Word ensures Step(Xor(a, b)) == Xor(Step(a), Step(b)) {
      StepXor(a, b);
    }
  }

  lemma {:induction false} StepsXor(f: Word -> Word, a: Word, b: Word, k: nat)
    requires Register(f)
    ensures Steps(f, Xor(a, b), k) == Xor(Steps(f, a, k), Steps(f, b, k))
    decreases k
  {
    if k > 0 {
      assert f(Xor(a, b)) == Xor(f(a), f(b));
      StepsXor(f, f(a), f(b), k - 1);
    }
  }

  lemma {:induction false} StepsAdd(f: Word -> Word, c: Word, k: nat, m: nat)
    ensures Steps(f, c, k + m) == Steps(f, Steps(f, c, k), m)
    decreases k
  {
    if k > 0 {
      StepsAdd(f, f(c), k - 1, m);
    }
  }

  /** Zero low bits fall out unchanged. */
  lemma {:induction false} StepsShift(f: Word -> Word, x: Word, k: nat)
    requires Register(f)
    requires k <= 32 && forall i :: 0 <= i < k ==> !x[i]
    ensures Steps(f, x, k) == Shr(x, k)
    decreases k
  {
    if k == 0 {
      assert Shr(x, 0) == x;
    } else {
      var y := Shr(x, 1);
      assert f(x) == y;
      StepsShift(f, y, k - 1);
      assert Shr(y, k - 1) == Shr(x, k);
    }
  }

  /** A byte-table lookup and a shift do eight steps. */
  lemma {:induction false} ByteAhead(f: Word -> Word, c: Word)
    requires Register(f)
    ensures Steps(f, c, 8) == Xor(Steps(f, LowByte(c[..8]), 8), Shr(c, 8))
  {
    var low: Word, high: Word := LowByte(c[..8]), Zeros(8) + c[8..];
    assert c == Xor(low, high);
    StepsXor(f, low, high, 8);
    StepsShift(f, high, 8);
    assert Shr(high, 8) == Shr(c, 8);
  }

  // ----- the tables

  /** Entry `i` of column `s` is byte `i` followed by `s` zero bytes. */
  ghost predicate EntryIs(f: Word -> Word, t: seq<Word>, s: nat, i: nat)
    requires i < |t|
  {
    t[i] == Steps(f, LowByte(Bits(i, 8)), 8 * (s + 1))
  }

  ghost predicate Column(f: Word -> Word, t: seq<Word>, s: nat) {
    |t| == 256 && forall i: nat {:trigger EntryIs(f, t, s, i)} :: i < 256 ==> EntryIs(f, t, s, i)
  }

  ghost predicate Tables(f: Word -> Word, t: seq<seq<Word>>) {
    |t| == 8 && forall s {:trigger Column(f, t[s], s)} :: 0 <= s < 8 ==> Column(f, t[s], s)
  }

  /** Looking up a byte's entry. */
  lemma {:induction false} Lookup(f: Word -> Word, t: seq<Word>, s: nat, b: seq<bool>)
    requires Column(f, t, s) && |b| == 8
    ensures Val(b) < 256 && t[Val(b)] == Steps(f, LowByte(b), 8 * (s + 1))
  {
    Pow8();
    BitsOfVal(b);
    assert EntryIs(f, t, s, Val(b));
  }

  lemma {:induction false} ColumnSnoc(f: Word -> Word, t: seq<Word>, s: nat, w: Word)
    requires forall i: nat {:trigger EntryIs(f, t, s, i)} :: i < |t| ==> EntryIs(f, t, s, i)
    requires w == Steps(f, LowByte(Bits(|t|, 8)), 8 * (s + 1))
    ensures forall i: nat {:trigger EntryIs(f, t + [w], s, i)} :: i < |t + [w]| ==> EntryIs(f, t + [w], s, i)
  {
    forall i: nat | i < |t + [w]| ensures EntryIs(f, t + [w], s, i) {
      assert i < |t| ==> EntryIs(f, t, s, i);
    }
  }

  method EightSteps(f: Word -> Word, start: Word) returns (c: Word)
    ensures c == Steps(f, start, 8)
  {
    c := start;
    for k := 0 to 8
      invariant Steps(f, c, 8 - k) == Steps(f, start, 8)
    {
      c := f(c);
    }
  }

  method ByteColumn(f: Word -> Word) returns (t: seq<Word>)
    ensures Column(f, t, 0)
  {
    t := [];
    while |t| < 256
      invariant |t| <= 256 && forall i: nat {:trigger EntryIs(f, t, 0, i)} :: i < |t| ==> EntryIs(f, t, 0, i)
    {
      var c := EightSteps(f, LowByte(Bits(|t|, 8)));
      ColumnSnoc(f, t, 0, c);
      t := t + [c];
    }
  }

  lemma {:induction false} NextEntry(f: Word -> Word, byte0: seq<Word>, prev: seq<Word>, s: nat, i: nat)
    requires Register(f) && Column(f, byte0, 0) && Column(f, prev, s) && i < 256
    ensures var c := prev[i];
            Val(c[..8]) < 256 && Xor(byte0[Val(c[..8])], Shr(c, 8)) == Steps(f, LowByte(Bits(i, 8)), 8 * (s + 2))
  {
    var c := prev[i];
    assert EntryIs(f, prev, s, i);
    Lookup(f, byte0, 0, c[..8]);
    ByteAhead(f, c);
    StepsAdd(f, LowByte(Bits(i, 8)), 8 * (s + 1), 8);
  }

  /** Each later column feeds one more zero byte. */
  method NextColumn(ghost f: Word -> Word, byte0: seq<Word>, prev: seq<Word>, ghost s: nat) returns (t: seq<Word>)
    requires Register(f)
    requires Column(f, byte0, 0) && Column(f, prev, s)
    ensures Column(f, t, s + 1)
  {
    t := [];
    while |t| < 256
      invariant |t| <= 256 && forall i: nat {:trigger EntryIs(f, t, s + 1, i)} :: i < |t| ==> EntryIs(f, t, s + 1, i)
    {
      var c := prev[|t|];
      NextEntry(f, byte0, prev, s, |t|);
      var w := Xor(byte0[Val(c[..8])], Shr(c, 8));
      ColumnSnoc(f, t, s + 1, w);
      t := t + [w];
    }
  }

  method MakeSlice8Table(f: Word -> Word) returns (t: seq<seq<Word>>)
    requires Register(f)
    ensures Tables(f, t)
  {
    var byte0 := ByteColumn(f);
    t := [byte0];
    for s := 1 to 8
      invariant |t| == s && t[0] == byte0
      invariant forall k {:trigger Column(f, t[k], k)} :: 0 <= k < s ==> Column(f, t[k], k)
    {
      assert Column(f, t[0], 0) && Column(f, t[s - 1], s - 1);
      var next := NextColumn(f, byte0, t[s - 1], s - 1);
      ghost var was := t;
      t := t + [next];
      forall k | 0 <= k < s + 1 ensures Column(f, t[k], k) {
        assert k < s ==> Column(f, was[k], k);
      }
    }
  }

  // ----- eight bytes at once

  /** Up to four bytes side by side, little-endian. */
  function Packed(data: Bytes): (r: Word)
    requires |data| <= 4
  {
    PackedBits(data) + Zeros(32 - 8 * |data|)
  }

  function PackedBits(data: Bytes): (r: seq<bool>)
    ensures |r| == 8 * |data|
  {
    if data == [] then [] else PackedBits(data[..|data| - 1]) + Bits(data[|data| - 1] as nat, 8)
  }

  function ByteOf(x: Word, j: nat): (b: seq<bool>)
    requires j < 4
    ensures |b| == 8
  {
    x[8 * j..8 * j + 8]
  }

  /** Byte `j` of the word on its own. */
  function Lane(x: Word, j: nat): (r: Word)
    requires j < 4
    ensures forall i :: 0 <= i < 32 ==> r[i] == (8 * j <= i < 8 * j + 8 && x[i])
  {
    seq(32, i requires 0 <= i < 32 => 8 * j <= i < 8 * j + 8 && x[i])
  }

  /** A byte placed 8j bits up waits j bytes longer. */
  lemma {:induction false} LaneSteps(f: Word -> Word, x: Word, j: nat, k: nat)
    requires Register(f)
    requires j < 4
    ensures Steps(f, Lane(x, j), 8 * j + k) == Steps(f, LowByte(ByteOf(x, j)), k)
  {
    var p := Lane(x, j);
    StepsAdd(f, p, 8 * j, k);
    StepsShift(f, p, 8 * j);
    assert Shr(p, 8 * j) == LowByte(ByteOf(x, j));
  }

  lemma {:induction false} FourLanes(x: Word)
    ensures x == Xor(Xor(Xor(Lane(x, 0), Lane(x, 1)), Lane(x, 2)), Lane(x, 3))
  {
  }

  lemma {:induction false} StepsXor4(f: Word -> Word, a: Word, b: Word, c: Word, d: Word, n: nat)
    requires Register(f)
    ensures Steps(f, Xor(Xor(Xor(a, b), c), d), n) == Xor(Xor(Xor(Steps(f, a, n), Steps(f, b, n)), Steps(f, c, n)), Steps(f, d, n))
  {
    StepsXor(f, Xor(Xor(a, b), c), d, n);
    StepsXor(f, Xor(a, b), c, n);
    StepsXor(f, a, b, n);
  }

  /** Stepping a word is stepping its bytes. */
  lemma {:induction false} StepsByLane(f: Word -> Word, x: Word, s: nat)
    requires Register(f)
    ensures Steps(f, x, 8 * (s + 4)) ==
            Xor(Xor(Xor(Steps(f, LowByte(ByteOf(x, 0)), 8 * (s + 4)), Steps(f, LowByte(ByteOf(x, 1)), 8 * (s + 3))),
                    Steps(f, LowByte(ByteOf(x, 2)), 8 * (s + 2))), Steps(f, LowByte(ByteOf(x, 3)), 8 * (s + 1)))
  {
    FourLanes(x);
    StepsXor4(f, Lane(x, 0), Lane(x, 1), Lane(x, 2), Lane(x, 3), 8 * (s + 4));
    LaneWaits(f, x, 0, 8 * (s + 4), 8 * (s + 4));
    LaneWaits(f, x, 1, 8 * (s + 4), 8 * (s + 3));
    LaneWaits(f, x, 2, 8 * (s + 4), 8 * (s + 2));
    LaneWaits(f, x, 3, 8 * (s + 4), 8 * (s + 1));
  }

  lemma {:induction false} LaneWaits(f: Word -> Word, x: Word, j: nat, n: nat, k: nat)
    requires Register(f)
    requires j < 4 && n == 8 * j + k
    ensures Steps(f, Lane(x, j), n) == Steps(f, LowByte(ByteOf(x, j)), k)
  {
    LaneSteps(f, x, j, k);
  }

  /** The last byte of a packed word sits in its own lane above the others. */
  lemma {:induction false} PackedLast(data: Bytes)
    requires 0 < |data| <= 4
    ensures var n, w := |data| - 1, Packed(data);
            w == Xor(Packed(data[..n]), Lane(w, n)) && ByteOf(Lane(w, n), n) == Bits(data[n] as nat, 8)
            && Lane(Lane(w, n), n) == Lane(w, n)
  {
    var n, w := |data| - 1, Packed(data);
    var init, last := Packed(data[..n]), Bits(data[n] as nat, 8);
    assert forall i :: 8 * n <= i < 8 * n + 8 ==> w[i] == last[i - 8 * n] && !init[i];
    assert forall i :: 0 <= i < 8 * n ==> w[i] == init[i];
    assert forall i :: 8 * n + 8 <= i < 32 ==> !w[i] && !init[i];
    assert ByteOf(Lane(w, n), n) == last;
    assert Lane(Lane(w, n), n) == Lane(w, n);
    assert w == Xor(init, Lane(w, n));
  }

  /** Feeding a byte after n others is placing it in lane n first. */
  lemma {:induction false} FeedPlaced(f: Word -> Word, low: Word, place: Word, n: nat, b: byte)
    requires Register(f)
    requires n < 4 && Lane(place, n) == place && ByteOf(place, n) == Bits(b as nat, 8)
    ensures FeedByte(f, Steps(f, low, 8 * n), b) == Steps(f, Xor(low, place), 8 * (n + 1))
  {
    PlacedFalls(f, place, n);
    StepsXor(f, low, place, 8 * n);
    StepsAdd(f, Xor(low, place), 8 * n, 8);
  }

  lemma {:induction false} PlacedFalls(f: Word -> Word, place: Word, n: nat)
    requires Register(f)
    requires n < 4 && Lane(place, n) == place
    ensures Steps(f, place, 8 * n) == LowByte(ByteOf(place, n))
  {
    LaneSteps(f, place, n, 0);
  }

  /** Feeding up to four bytes is one xor and that many steps. */
  lemma {:induction false} FeedPacked(f: Word -> Word, c: Word, data: Bytes)
    requires Register(f)
    requires |data| <= 4
    ensures Feed(f, c, data) == Steps(f, Xor(c, Packed(data)), 8 * |data|)
    decreases |data|
  {
    if data == [] {
      assert Xor(c, Packed(data)) == c;
    } else {
      var n := |data| - 1;
      var init := data[..n];
      FeedPacked(f, c, init);
      PackedLast(data);
      FeedPlaced(f, Xor(c, Packed(init)), Lane(Packed(data), n), n, data[n]);
      XorAssoc(c, Packed(init), Lane(Packed(data), n));
    }
  }

  lemma {:induction false} FeedConcat(f: Word -> Word, c: Word, a: Bytes, b: Bytes)
    ensures Feed(f, c, a + b) == Feed(f, Feed(f, c, a), b)
    decreases |b|
  {
    if b == [] {
      assert a + b == a;
    } else {
      assert (a + b)[..|a + b| - 1] == a + b[..|b| - 1];
      FeedConcat(f, c, a, b[..|b| - 1]);
    }
  }

  /** The eight lookups of one iteration feed eight bytes. */
  lemma {:induction false} FeedEight(f: Word -> Word, c: Word, lo: Bytes, hi: Bytes)
    requires Register(f)
    requires |lo| == 4 && |hi| == 4
    ensures Feed(f, c, lo + hi) == Xor(Steps(f, Xor(c, Packed(lo)), 64), Steps(f, Packed(hi), 32))
  {
    FeedConcat(f, c, lo, hi);
    FeedPacked(f, c, lo);
    FeedPacked(f, Feed(f, c, lo), hi);
    var x := Xor(c, Packed(lo));
    StepsXor(f, Steps(f, x, 32), Packed(hi), 32);
    StepsAdd(f, x, 32, 32);
  }

  /** Entry of column `s` for byte `j` of the word. */
  method LaneEntry(ghost f: Word -> Word, t: seq<seq<Word>>, s: nat, x: Word, j: nat) returns (w: Word)
    requires Register(f)
    requires Tables(f, t) && s < 8 && j < 4
    ensures w == Steps(f, LowByte(ByteOf(x, j)), 8 * (s + 1))
  {
    assert Column(f, t[s], s);
    Lookup(f, t[s], s, ByteOf(x, j));
    w := t[s][Val(ByteOf(x, j))];
  }

  method FoldLanes(ghost f: Word -> Word, t: seq<seq<Word>>, x: Word, base: nat) returns (r: Word)
    requires Register(f)
    requires Tables(f, t) && base <= 4
    ensures r == Steps(f, x, 8 * (base + 4))
  {
    var w0 := LaneEntry(f, t, base + 3, x, 0);
    var w1 := LaneEntry(f, t, base + 2, x, 1);
    var w2 := LaneEntry(f, t, base + 1, x, 2);
    var w3 := LaneEntry(f, t, base, x, 3);
    StepsByLane(f, x, base);
    r := Xor(Xor(Xor(w0, w1), w2), w3);
  }

  method EightAtOnce(ghost f: Word -> Word, t: seq<seq<Word>>, crc: Word, lo: Bytes, hi: Bytes) returns (r: Word)
    requires Register(f)
    requires Tables(f, t) && |lo| == 4 && |hi| == 4
    ensures r == Feed(f, crc, lo + hi)
  {
    FeedEight(f, crc, lo, hi);
    var a := FoldLanes(f, t, Xor(crc, Packed(lo)), 4);
    var b := FoldLanes(f, t, Packed(hi), 0);
    r := Xor(a, b);
  }

  method OneByte(ghost f: Word -> Word, t: seq<seq<Word>>, crc: Word, b: byte) returns (r: Word)
    requires Register(f)
    requires Tables(f, t)
    ensures r == FeedByte(f, crc, b)
  {
    var x := Xor(crc, LowByte(Bits(b as nat, 8)));
    assert Column(f, t[0], 0);
    Lookup(f, t[0], 0, x[..8]);
    ByteAhead(f, x);
    assert Shr(x, 8) == Shr(crc, 8);
    r := Xor(t[0][Val(x[..8])], Shr(crc, 8));
  }

  method Slice8(ghost f: Word -> Word, t: seq<seq<Word>>, start: Word, data: Bytes) returns (crc: Word)
    requires Register(f)
    requires Tables(f, t)
    ensures crc == Feed(f, start, data)
  {
    crc := start;
    var p: nat := 0;
    assert data[..0] == [];
    while |data| - p >= 8
      invariant p <= |data| && crc == Feed(f, start, data[..p])
    {
      var lo, hi := data[p..p + 4], data[p + 4..p + 8];
      assert data[..p + 8] == data[..p] + (lo + hi);
      FeedConcat(f, start, data[..p], lo + hi);
      crc := EightAtOnce(f, t, crc, lo, hi);
      p := p + 8;
    }
    while p < |data|
      invariant p <= |data| && crc == Feed(f, start, data[..p])
    {
      assert data[..p + 1][..p] == data[..p];
      crc := OneByte(f, t, crc, data[p]);
      p := p + 1;
    }
    assert data[..p] == data;
  }

  method Crc32cExtend(t: seq<seq<Word>>, crc: Word, data: Bytes) returns (r: Word)
    requires Tables(Step, t)
    ensures r == Extended(crc, data)
  {
    StepIsRegister();
    var c := Slice8(Step, t, Not(crc), data);
    r := Not(c);
  }

  /** Extending over a then b is one pass over both. */
  lemma {:induction false} ExtendConcat(crc: Word, a: Bytes, b: Bytes)
    ensures Extended(Extended(crc, a), b) == Extended(crc, a + b)
  {
    FeedConcat(Step, Not(crc), a, b);
    assert Not(Extended(crc, a)) == Feed(Step, Not(crc), a);
  }

  lemma {:induction false} DigestFits(data: Bytes)
    ensures Digest(data) < TWO32
  {
    PowSplit(16, 16);
    PowSplit(8, 8);
    Pow8();
  }
}
