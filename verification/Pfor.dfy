/** PFOR: an array of 32-bit values bit-packed at the width that minimizes the estimated
    size, with the values too wide for it kept in an exception table. */
module Pfor {
  import opened Common
  import opened BitStrings
  import opened Varint
  import opened ByteStreams

  // ----- widths

  function BitsFor(v: nat): nat {
    if v == 0 then 0 else 1 + BitsFor(v / 2)
  }

  method CountBits(v: nat) returns (b: nat)
    ensures b == BitsFor(v)
  {
    b := 0;
    var rest := v;
    while rest != 0
      invariant b + BitsFor(rest) == BitsFor(v)
      decreases rest
    {
      b, rest := b + 1, rest / 2;
    }
  }

  lemma {:induction false} FitsWidth(v: nat, w: nat)
    ensures BitsFor(v) <= w <==> v < Pow2(w)
  {
    if v != 0 && w != 0 {
      FitsWidth(v / 2, w - 1);
    }
  }

  lemma {:induction false} Pow32()
    ensures Pow2(32) == TWO32
  {
    PowSplit(16, 16);
    PowSplit(8, 8);
    Pow8();
  }

  ghost predicate Values(vs: seq<nat>) {
    forall i :: 0 <= i < |vs| ==> vs[i] < TWO32
  }

  /** How many of the first `n` values need more than `w` bits. */
  function Wide(vs: seq<nat>, w: nat, n: nat): nat
    requires n <= |vs|
  {
    if n == 0 then 0 else Wide(vs, w, n - 1) + if BitsFor(vs[n - 1]) > w then 1 else 0
  }

  /** The bit offset of value `i`. */
  function Off(w: nat, i: nat): nat {
    w * i
  }

  function PackedLen(w: nat, n: nat): nat {
    (Off(w, n) + 7) / 8
  }

  /** The estimated size: packed bytes plus six per exception. */
  function Cost(vs: seq<nat>, w: nat): nat {
    PackedLen(w, |vs|) + 6 * Wide(vs, w, |vs|)
  }

  lemma {:induction false} NoneWider(vs: seq<nat>, w: nat, n: nat)
    requires n <= |vs| && forall i :: 0 <= i < n ==> BitsFor(vs[i]) <= w
    ensures Wide(vs, w, n) == 0
  {
    if n > 0 {
      NoneWider(vs, w, n - 1);
    }
  }

  lemma {:induction false} PackedGrows(w: nat, w': nat, n: nat)
    requires w <= w'
    ensures PackedLen(w, n) <= PackedLen(w', n)
  {
    assert w' * n == w * n + (w' - w) * n;
    NonNegative(w' - w, n);
  }

  method MaxWidth(vs: seq<nat>) returns (m: nat)
    requires Values(vs)
    ensures m <= 32 && forall i :: 0 <= i < |vs| ==> BitsFor(vs[i]) <= m
  {
    m := 0;
    for i := 0 to |vs|
      invariant m <= 32 && forall j :: 0 <= j < i ==> BitsFor(vs[j]) <= m
    {
      var b := CountBits(vs[i]);
      Pow32();
      FitsWidth(vs[i], 32);
      if b > m {
        m := b;
      }
    }
  }

  method CountWide(vs: seq<nat>, w: nat) returns (n: nat)
    ensures n == Wide(vs, w, |vs|)
  {
    n := 0;
    for i := 0 to |vs|
      invariant n == Wide(vs, w, i)
    {
      var b := CountBits(vs[i]);
      if b > w {
        n := n + 1;
      }
    }
  }

  /** The narrowest width of least cost, among all widths 0 to 32. */
  method ChooseWidth(vs: seq<nat>) returns (best: nat)
    requires Values(vs)
    ensures best <= 32
    ensures forall w: nat {:trigger Cost(vs, w)} :: w <= 32 ==> Cost(vs, best) <= Cost(vs, w) && (w < best ==> Cost(vs, best) < Cost(vs, w))
  {
    var m := MaxWidth(vs);
    best := 0;
    var exc := CountWide(vs, 0);
    var bestCost := PackedLen(0, |vs|) + 6 * exc;
    for w := 1 to m + 1
      invariant best < w && bestCost == Cost(vs, best)
      invariant forall u: nat {:trigger Cost(vs, u)} :: u < w ==> Cost(vs, best) <= Cost(vs, u) && (u < best ==> Cost(vs, best) < Cost(vs, u))
    {
      exc := CountWide(vs, w);
      var cost := PackedLen(w, |vs|) + 6 * exc;
      if cost < bestCost {
        best, bestCost := w, cost;
      }
    }
    forall w: nat | m < w <= 32 ensures Cost(vs, best) <= Cost(vs, w) {
      NoneWider(vs, m, |vs|);
      NoneWider(vs, w, |vs|);
      PackedGrows(m, w, |vs|);
      assert Cost(vs, best) <= Cost(vs, m);
    }
  }

  // ----- packing

  lemma {:induction false} OffStep(w: nat, i: nat)
    ensures Off(w, i + 1) == Off(w, i) + w && Off(w, 0) == 0
  {
  }

  lemma {:induction false} OffMono(w: nat, i: nat, n: nat)
    requires i <= n
    ensures Off(w, i) <= Off(w, n)
    decreases n - i
  {
    if i < n {
      OffStep(w, i);
      OffMono(w, i + 1, n);
    }
  }

  /** The low `w` bits of the first `n` values, end to end. */
  function Stream(vs: seq<nat>, w: nat, n: nat): (r: seq<bool>)
    requires n <= |vs|
    ensures |r| == Off(w, n)
  {
    if n == 0 then [] else
      OffStep(w, n - 1);
      Stream(vs, w, n - 1) + Bits(vs[n - 1], w)
  }

  lemma {:induction false} FrontSlice(a: seq<bool>, b: seq<bool>, i: nat, j: nat)
    requires i <= j <= |a|
    ensures (a + b)[i..j] == a[i..j]
  {
  }

  lemma {:induction false} StreamAt(vs: seq<nat>, w: nat, n: nat, i: nat)
    requires i < n <= |vs|
    ensures Off(w, i) + w <= Off(w, n) && Stream(vs, w, n)[Off(w, i)..Off(w, i) + w] == Bits(vs[i], w)
    decreases n
  {
    OffStep(w, n - 1);
    if i < n - 1 {
      StreamAt(vs, w, n - 1, i);
      FrontSlice(Stream(vs, w, n - 1), Bits(vs[n - 1], w), Off(w, i), Off(w, i) + w);
    } else {
      BackSlice(Stream(vs, w, i), Bits(vs[i], w));
    }
  }

  lemma {:induction false} BackSlice(a: seq<bool>, b: seq<bool>)
    ensures (a + b)[|a|..|a| + |b|] == b
  {
  }

  lemma {:induction false} LowBits(v: nat, w: nat)
    ensures Bits(Mod(v, Pow2(w)), w) == Bits(v, w) && Mod(v, Pow2(w)) < Pow2(w)
  {
    var b := Bits(v, w);
    BitsOfVal(b);
    LowVal(v, w);
  }

  lemma {:induction false} LowVal(v: nat, w: nat)
    ensures Val(Bits(v, w)) == Mod(v, Pow2(w))
  {
    if w == 0 {
      assert v % 1 == 0;
    } else {
      LowVal(v / 2, w - 1);
      assert Bits(v, w)[1..] == Bits(v / 2, w - 1);
      var p, q := Pow2(w - 1), v / 2;
      assert q == p * Div(q, p) + Mod(q, p);
      Double(p, Div(q, p));
      DivRem(v, Div(q, p), v % 2 + 2 * Mod(q, p), 2 * p);
    }
  }

  /** Bytes written and bits pending together make the stream so far. */
  ghost predicate Writing(out: Bytes, acc: nat, filled: nat, bits: seq<bool>) {
    acc < Pow2(filled) && ByteBits(out) + Bits(acc, filled) == bits
  }

  lemma {:induction false} EmitByte(out: Bytes, acc: nat, filled: nat, bits: seq<bool>)
    requires filled >= 8 && Writing(out, acc, filled, bits)
    ensures Writing(out + [(acc % 256) as byte], acc / 256, filled - 8, bits)
  {
    Pow8();
    BitsCut(acc, 8, filled - 8);
    var b: byte := (acc % 256) as byte;
    assert (out + [b])[..|out|] == out;
    assert ByteBits(out) + (Bits(acc % 256, 8) + Bits(acc / 256, filled - 8)) == ByteBits(out) + Bits(acc % 256, 8) + Bits(acc / 256, filled - 8);
  }

  /** A value placed above the pending bits. */
  function Above(acc: nat, filled: nat, low: nat): nat {
    acc + Pow2(filled) * low
  }

  lemma {:induction false} AddValue(out: Bytes, acc: nat, filled: nat, v: nat, w: nat, bits: seq<bool>)
    requires Writing(out, acc, filled, bits)
    ensures Writing(out, Above(acc, filled, Mod(v, Pow2(w))), filled + w, bits + Bits(v, w))
  {
    LowBits(v, w);
    BitsJoin(acc, filled, Mod(v, Pow2(w)), w);
    JoinBits(ByteBits(out), Bits(acc, filled), Bits(v, w));
  }

  /** Writes whole bytes while there are any. */
  method Flush(out: Bytes, acc: nat, filled: nat, ghost bits: seq<bool>) returns (out': Bytes, acc': nat, filled': nat)
    requires Writing(out, acc, filled, bits)
    ensures filled' < 8 && Writing(out', acc', filled', bits)
  {
    out', acc', filled' := out, acc, filled;
    while filled' >= 8
      invariant Writing(out', acc', filled', bits)
      decreases filled'
    {
      EmitByte(out', acc', filled', bits);
      out', acc', filled' := out' + [(acc' % 256) as byte], acc' / 256, filled' - 8;
    }
  }

  /** Adds one value's low bits above the pending ones, then writes whole bytes. */
  method PackOne(out: Bytes, acc: nat, filled: nat, v: nat, w: nat, ghost bits: seq<bool>)
    returns (out': Bytes, acc': nat, filled': nat)
    requires filled < 8 && Writing(out, acc, filled, bits)
    ensures filled' < 8 && Writing(out', acc', filled', bits + Bits(v, w))
  {
    AddValue(out, acc, filled, v, w, bits);
    out', acc', filled' := Flush(out, Above(acc, filled, Mod(v, Pow2(w))), filled + w, bits + Bits(v, w));
  }

  lemma {:induction false} JoinBits(a: seq<bool>, b: seq<bool>, c: seq<bool>)
    ensures a + (b + c) == (a + b) + c
  {
  }

  /** Just enough bytes, beginning with the given bits. */
  ghost predicate Packs(bytes: Bytes, bits: seq<bool>) {
    |bytes| == (|bits| + 7) / 8 && bits <= ByteBits(bytes)
  }

  method Bitpack(vs: seq<nat>, w: nat) returns (bytes: Bytes)
    ensures Packs(bytes, Stream(vs, w, |vs|))
  {
    var out: Bytes, acc: nat, filled: nat := [], 0, 0;
    assert ByteBits(out) + Bits(acc, filled) == [];
    for i := 0 to |vs|
      invariant filled < 8 && Writing(out, acc, filled, Stream(vs, w, i))
    {
      out, acc, filled := PackOne(out, acc, filled, vs[i], w, Stream(vs, w, i));
    }
    bytes := out;
    if filled > 0 {
      LastByte(out, acc, filled, Stream(vs, w, |vs|));
      bytes := out + [acc as byte];
    }
  }

  lemma {:induction false} LastByte(out: Bytes, acc: nat, filled: nat, bits: seq<bool>)
    requires 0 < filled < 8 && Writing(out, acc, filled, bits)
    ensures acc < 256 && Packs(out + [acc as byte], bits)
  {
    BitsFront(acc, filled, 8);
    Pow8();
    var all: Bytes := out + [acc as byte];
    assert all[..|out|] == out;
    assert ByteBits(all) == ByteBits(out) + Bits(acc, 8);
    assert ByteBits(all)[..|bits|] == ByteBits(out) + Bits(acc, 8)[..filled];
  }

  // ----- unpacking

  /** The word read at a byte offset, at most eight bytes, fewer near the end. */
  function WordAt(buf: Bytes, at: nat): nat
    requires at <= |buf|
  {
    LoadLe(buf[at..if at + 8 <= |buf| then at + 8 else |buf|])
  }

  /** The byte-by-byte accumulation of the tail. */
  method TailWord(buf: Bytes, at: nat) returns (word: nat)
    requires at <= |buf|
    ensures word == WordAt(buf, at)
  {
    var end := if at + 8 <= |buf| then at + 8 else |buf|;
    word := 0;
    var b := end;
    while b > at
      invariant at <= b <= end && word == LoadLe(buf[b..end])
    {
      assert buf[b - 1..end][1..] == buf[b..end];
      b := b - 1;
      word := buf[b] as nat + 256 * word;
    }
  }

  /** Value `i`: shift the word by the bit offset within its first byte and mask. */
  function Extract(word: nat, bitOff: nat, w: nat): nat {
    Mod(Div(word, Pow2(bitOff % 8)), Pow2(w))
  }

  lemma {:induction false} ExtractBits(bits: seq<bool>, word: nat, sh: nat, w: nat)
    requires word == Val(bits) && sh + w <= |bits|
    ensures Mod(Div(word, Pow2(sh)), Pow2(w)) == Val(bits[sh..sh + w])
  {
    ValSplit(bits, sh);
    ValSplit(bits[sh..], w);
    assert bits[sh..][..w] == bits[sh..sh + w];
  }

  /** The word covers the value, on the fast path and at the tail alike. */
  lemma {:induction false} WordCovers(buf: Bytes, bits: seq<bool>, at: nat, sh: nat, w: nat)
    requires bits <= ByteBits(buf) && 8 * at + sh + w <= |bits| && sh < 8 && w <= 32
    ensures at <= |buf| && Mod(Div(WordAt(buf, at), Pow2(sh)), Pow2(w)) == Val(bits[8 * at + sh..8 * at + sh + w])
  {
    var end := if at + 8 <= |buf| then at + 8 else |buf|;
    LoadIsVal(buf[at..end]);
    ByteBitsSlice(buf, at, end);
    ExtractBits(ByteBits(buf)[8 * at..8 * end], WordAt(buf, at), sh, w);
    SameBits(ByteBits(buf), bits, 8 * at, 8 * end, sh, w);
  }

  lemma {:induction false} ExtractAt(buf: Bytes, bits: seq<bool>, bitOff: nat, w: nat)
    requires bits <= ByteBits(buf) && bitOff + w <= |bits| && w <= 32
    ensures bitOff / 8 <= |buf| && Extract(WordAt(buf, bitOff / 8), bitOff, w) == Val(bits[bitOff..bitOff + w])
  {
    assert bitOff == 8 * (bitOff / 8) + bitOff % 8;
    WordCovers(buf, bits, bitOff / 8, bitOff % 8, w);
  }

  lemma {:induction false} SameBits(all: seq<bool>, bits: seq<bool>, from: nat, to: nat, sh: nat, w: nat)
    requires bits <= all && from <= to <= |all| && from + sh + w <= to && from + sh + w <= |bits|
    ensures all[from..to][sh..sh + w] == bits[from + sh..from + sh + w]
  {
    var x, y := all[from..to][sh..sh + w], bits[from + sh..from + sh + w];
    assert forall k :: 0 <= k < w ==> x[k] == y[k];
  }

  /** A mask never keeps more than 32 bits. */
  function MaskWidth(w: nat): nat {
    if w >= 32 then 32 else w
  }

  /** One value from the buffer, by the single load when eight bytes remain. */
  method UnpackOne(buf: Bytes, bitOff: nat, w: nat) returns (v: nat)
    requires bitOff / 8 <= |buf|
    ensures v == Extract(WordAt(buf, bitOff / 8), bitOff, MaskWidth(w))
  {
    var at := bitOff / 8;
    var word;
    if at + 8 <= |buf| {
      word := LoadLe(buf[at..at + 8]);
    } else {
      word := TailWord(buf, at);
    }
    v := Extract(word, bitOff, MaskWidth(w));
  }

  /** The bytes at the front hold exactly these values at this width. */
  ghost predicate Front(src: Bytes, vs: seq<nat>, w: nat, packed: Bytes, rest: Bytes) {
    && w <= 32 && src == packed + rest && Packs(packed, Stream(vs, w, |vs|))
    && forall i :: 0 <= i < |vs| ==> vs[i] < Pow2(w)
  }

  lemma {:induction false} UnpackedIs(packed: Bytes, vs: seq<nat>, w: nat, i: nat)
    requires w <= 32 && i < |vs| && vs[i] < Pow2(w) && Packs(packed, Stream(vs, w, |vs|))
    ensures Off(w, i) / 8 <= |packed| && Extract(WordAt(packed, Off(w, i) / 8), Off(w, i), w) == vs[i]
  {
    StreamAt(vs, w, |vs|, i);
    ValueAt(packed, Stream(vs, w, |vs|), Off(w, i), w, vs[i]);
  }

  lemma {:induction false} ValueAt(packed: Bytes, bits: seq<bool>, bitOff: nat, w: nat, v: nat)
    requires w <= 32 && v < Pow2(w) && bits <= ByteBits(packed) && bitOff + w <= |bits| && bits[bitOff..bitOff + w] == Bits(v, w)
    ensures bitOff / 8 <= |packed| && Extract(WordAt(packed, bitOff / 8), bitOff, w) == v
  {
    ExtractAt(packed, bits, bitOff, w);
    ValOfBits(v, w);
  }

  method Bitunpack(src: Bytes, n: nat, w: nat, ghost vs: seq<nat>, ghost packed: Bytes, ghost rest: Bytes, ghost good: bool)
    returns (r: Result<Read<seq<nat>>>)
    requires good ==> n == |vs| && Front(src, vs, w, packed, rest)
    ensures good ==> r == Ok(Read(vs, rest))
    ensures r.Ok? ==> |r.value.value| == n
  {
    if w == 0 {
      if good {
        ZeroWidth(src, vs, packed, rest);
      }
      return Ok(Read(seq(n, _ => 0), src));
    }
    if good {
      BytesFirst(packed, rest);
    }
    var buf := GetBytes(src, PackedLen(w, n));
    if buf.Error? {
      return Error(buf.status);
    }
    var out := [];
    for i := 0 to n
      invariant |out| == i && (good ==> out == vs[..i])
    {
      OffMono(w, i, n);
      if good {
        UnpackedIs(packed, vs, w, i);
      }
      var v := UnpackOne(buf.value.value, Off(w, i), w);
      out := out + [v];
    }
    assert good ==> vs[..n] == vs;
    r := Ok(Read(out, buf.value.rest));
  }

  lemma {:induction false} ZeroWidth(src: Bytes, vs: seq<nat>, packed: Bytes, rest: Bytes)
    requires Front(src, vs, 0, packed, rest)
    ensures vs == seq(|vs|, _ => 0) && src == rest
  {
    assert Off(0, |vs|) == 0;
    assert packed == [] && [] + rest == rest;
    var zeros := seq(|vs|, _ => 0);
    assert forall i :: 0 <= i < |vs| ==> vs[i] == zeros[i];
  }

  // ----- exceptions

  datatype Exc = Exc(index: nat, value: nat)

  predicate IsWide(v: nat, w: nat) {
    BitsFor(v) > w
  }

  /** The exceptions among the first `n` values. */
  function ExcOf(vs: seq<nat>, w: nat, n: nat): seq<Exc>
    requires n <= |vs|
  {
    if n == 0 then [] else ExcOf(vs, w, n - 1) + if IsWide(vs[n - 1], w) then [Exc(n - 1, vs[n - 1])] else []
  }

  /** Exceptions give way to a zero placeholder. */
  function LowOf(vs: seq<nat>, w: nat): (r: seq<nat>)
    ensures |r| == |vs| && forall i :: 0 <= i < |vs| ==> r[i] == if IsWide(vs[i], w) then 0 else vs[i]
  {
    seq(|vs|, i requires 0 <= i < |vs| => if IsWide(vs[i], w) then 0 else vs[i])
  }

  /** The exceptions from `i` on, each index relative to the one before. */
  function PutExc(exc: seq<Exc>, i: nat): Bytes
    requires i <= |exc| && Rising(exc)
    decreases |exc| - i
  {
    if i == |exc| then [] else Encode(exc[i].index - PrevIndex(exc, i)) + (Encode(exc[i].value) + PutExc(exc, i + 1))
  }

  function PrevIndex(exc: seq<Exc>, i: nat): nat
    requires i <= |exc|
  {
    if i == 0 then 0 else exc[i - 1].index
  }

  predicate Rising(exc: seq<Exc>) {
    forall i, j :: 0 <= i < j < |exc| ==> exc[i].index < exc[j].index
  }

  /** Where exception `i` sits; past the end there is none. */
  function NextAt(exc: seq<Exc>, i: nat, n: nat): nat
    requires i <= |exc|
  {
    if i < |exc| then exc[i].index else n
  }

  /** What the exception list says of the values. */
  ghost predicate ExcGood(exc: seq<Exc>, vs: seq<nat>, w: nat, n: nat) {
    && n <= |vs| && Rising(exc)
    && (forall i :: 0 <= i < |exc| ==> exc[i].index < n && exc[i].value == vs[exc[i].index])
    && (forall j :: 0 <= j < n && IsWide(vs[j], w) ==> Listed(exc, j))
  }

  ghost predicate Listed(exc: seq<Exc>, j: nat) {
    exists i :: 0 <= i < |exc| && exc[i].index == j
  }

  lemma {:induction false} ExcOfGood(vs: seq<nat>, w: nat, n: nat)
    requires n <= |vs|
    ensures ExcGood(ExcOf(vs, w, n), vs, w, n)
  {
    if n > 0 {
      ExcOfGood(vs, w, n - 1);
      var was, exc := ExcOf(vs, w, n - 1), ExcOf(vs, w, n);
      forall j | 0 <= j < n && IsWide(vs[j], w) ensures Listed(exc, j) {
        if j < n - 1 {
          assert Listed(was, j);
          var i :| 0 <= i < |was| && was[i].index == j;
          assert exc[i].index == j;
        } else {
          assert exc[|was|].index == j;
        }
      }
    }
  }

  /** The values up to `p`, placeholders from there on. */
  function Patched(vs: seq<nat>, w: nat, p: nat): (r: seq<nat>)
    ensures |r| == |vs| && forall j :: 0 <= j < |vs| ==> r[j] == if j < p || !IsWide(vs[j], w) then vs[j] else 0
  {
    seq(|vs|, j requires 0 <= j < |vs| => if j < p || !IsWide(vs[j], w) then vs[j] else 0)
  }

  /** Patching exception `i` settles everything up to the next one. */
  lemma {:induction false} PatchStep(exc: seq<Exc>, vs: seq<nat>, w: nat, i: nat)
    requires ExcGood(exc, vs, w, |vs|) && i < |exc|
    ensures exc[i].index < |vs|
    ensures Patched(vs, w, exc[i].index)[exc[i].index := exc[i].value] == Patched(vs, w, NextAt(exc, i + 1, |vs|))
  {
    var p, q := exc[i].index, NextAt(exc, i + 1, |vs|);
    forall j | p < j < q ensures !IsWide(vs[j], w) {
      if IsWide(vs[j], w) {
        assert Listed(exc, j);
        var k :| 0 <= k < |exc| && exc[k].index == j;
        Between(exc, i, k);
      }
    }
  }

  lemma {:induction false} Between(exc: seq<Exc>, i: nat, k: nat)
    requires Rising(exc) && i < |exc| && k < |exc| && exc[i].index < exc[k].index
    ensures i < k && (i + 1 < |exc| ==> exc[i + 1].index <= exc[k].index)
  {
  }

  lemma {:induction false} PatchStart(exc: seq<Exc>, vs: seq<nat>, w: nat)
    requires ExcGood(exc, vs, w, |vs|)
    ensures LowOf(vs, w) == Patched(vs, w, NextAt(exc, 0, |vs|))
  {
    var p := NextAt(exc, 0, |vs|);
    forall j | 0 <= j < p && j < |vs| ensures !IsWide(vs[j], w) {
      assert !Listed(exc, j);
    }
  }

  // ----- the codec

  /** No width is cheaper. */
  ghost predicate Cheapest(vs: seq<nat>, w: nat) {
    forall u: nat {:trigger Cost(vs, u)} :: u <= 32 ==> Cost(vs, w) <= Cost(vs, u)
  }

  /** The byte form of an array: width, exception count, packed values, exceptions. */
  ghost predicate Codes(bytes: Bytes, vs: seq<nat>, w: nat, packed: Bytes) {
    var exc := ExcOf(vs, w, |vs|);
    && w <= 32 && Cheapest(vs, w) && Rising(exc) && Packs(packed, Stream(LowOf(vs, w), w, |vs|))
    && bytes == [w as byte] + (Encode(|exc|) + (packed + PutExc(exc, 0)))
  }

  ghost predicate IsCode(bytes: Bytes, vs: seq<nat>) {
    exists w: nat, packed: Bytes :: Codes(bytes, vs, w, packed)
  }

  method SplitExceptions(vs: seq<nat>, w: nat) returns (exc: seq<Exc>, low: seq<nat>)
    ensures exc == ExcOf(vs, w, |vs|) && low == LowOf(vs, w)
  {
    exc, low := [], [];
    for i := 0 to |vs|
      invariant exc == ExcOf(vs, w, i) && |low| == i
      invariant forall j :: 0 <= j < i ==> low[j] == if IsWide(vs[j], w) then 0 else vs[j]
    {
      var b := CountBits(vs[i]);
      if b > w {
        exc, low := exc + [Exc(i, vs[i])], low + [0];
      } else {
        low := low + [vs[i]];
      }
    }
    assert low == LowOf(vs, w);
  }

  lemma {:induction false} PutNext(exc: seq<Exc>, i: nat, bytes: Bytes)
    requires Rising(exc) && i < |exc|
    ensures PrevIndex(exc, i) <= exc[i].index
    ensures bytes + PutExc(exc, i) == bytes + Encode(exc[i].index - PrevIndex(exc, i)) + Encode(exc[i].value) + PutExc(exc, i + 1)
  {
    assert i > 0 ==> exc[i - 1].index < exc[i].index;
    JoinBytes(bytes, Encode(exc[i].index - PrevIndex(exc, i)), Encode(exc[i].value), PutExc(exc, i + 1));
  }

  method PutExceptions(exc: seq<Exc>) returns (bytes: Bytes)
    requires Rising(exc)
    ensures bytes == PutExc(exc, 0)
  {
    bytes := [];
    var prev := 0;
    for i := 0 to |exc|
      invariant prev == PrevIndex(exc, i) && bytes + PutExc(exc, i) == PutExc(exc, 0)
    {
      PutNext(exc, i, bytes);
      bytes := bytes + Encode(exc[i].index - prev) + Encode(exc[i].value);
      prev := exc[i].index;
    }
    assert bytes + [] == bytes;
  }

  lemma {:induction false} JoinBytes(a: Bytes, b: Bytes, c: Bytes, d: Bytes)
    ensures a + (b + (c + d)) == (a + b + c) + d
  {
  }

  method PforEncode(vs: seq<nat>) returns (bytes: Bytes)
    requires Values(vs)
    ensures IsCode(bytes, vs)
  {
    var w := ChooseWidth(vs);
    var exc, low := SplitExceptions(vs, w);
    ExcOfGood(vs, w, |vs|);
    var packed := Bitpack(low, w);
    var tail := PutExceptions(exc);
    bytes := [w as byte] + (Encode(|exc|) + (packed + tail));
    assert Codes(bytes, vs, w, packed);
  }

  /** Where patching stands before exception `i`. */
  ghost predicate PatchAt(exc: seq<Exc>, vs: seq<nat>, w: nat, i: nat, rest: Bytes, st: Patching) {
    && i <= |exc| && Rising(exc)
    && st.src == PutExc(exc, i) + rest && st.idx == PrevIndex(exc, i) && st.out == Patched(vs, w, NextAt(exc, i, |vs|))
  }

  datatype Patching = Patching(src: Bytes, idx: nat, out: seq<nat>)

  datatype Pair = Pair(delta: nat, value: nat)

  /** One exception: its index is relative to the one before and must be in range. */
  function Apply(st: Patching, p: Pair, rest: Bytes): (r: Result<Patching>)
    ensures r.Ok? ==> |r.value.out| == |st.out|
  {
    var idx := (st.idx + p.delta) % TWO32;
    if idx >= |st.out| then Error(Corruption("pfor exception index out of range"))
    else Ok(Patching(rest, idx, st.out[idx := p.value]))
  }

  /** The next exception's bytes. */
  lemma {:induction false} PairNext(exc: seq<Exc>, i: nat, rest: Bytes)
    requires Rising(exc) && i < |exc|
    ensures PrevIndex(exc, i) <= exc[i].index
    ensures PairAt(PutExc(exc, i) + rest, exc[i].index - PrevIndex(exc, i), exc[i].value, PutExc(exc, i + 1) + rest)
  {
    assert i > 0 ==> exc[i - 1].index < exc[i].index;
    var d, v, tail := Encode(exc[i].index - PrevIndex(exc, i)), Encode(exc[i].value), PutExc(exc, i + 1);
    assert (d + (v + tail)) + rest == d + (v + (tail + rest));
  }

  lemma {:induction false} Applied(st: Patching, at: nat, value: nat, rest: Bytes)
    requires st.idx <= at < |st.out| < TWO32
    ensures Apply(st, Pair(at - st.idx, value), rest) == Ok(Patching(rest, at, st.out[at := value]))
  {
  }

  /** Applying the next exception leads to the state before the one after it. */
  lemma {:induction false} PatchMoves(exc: seq<Exc>, vs: seq<nat>, w: nat, i: nat, rest: Bytes, st: Patching)
    requires ExcGood(exc, vs, w, |vs|) && |vs| < TWO32 && i < |exc| && PatchAt(exc, vs, w, i, rest, st)
    ensures st.idx <= exc[i].index < |vs|
    ensures var next := Apply(st, Pair(exc[i].index - st.idx, exc[i].value), PutExc(exc, i + 1) + rest);
            next.Ok? && PatchAt(exc, vs, w, i + 1, rest, next.value)
  {
    assert i > 0 ==> exc[i - 1].index < exc[i].index;
    PatchStep(exc, vs, w, i);
    Applied(st, exc[i].index, exc[i].value, PutExc(exc, i + 1) + rest);
  }

  ghost predicate PairAt(src: Bytes, d: nat, v: nat, rest: Bytes) {
    src == Encode(d) + (Encode(v) + rest)
  }

  method GetPair(src: Bytes, ghost d: nat, ghost v: nat, ghost rest: Bytes, ghost good: bool) returns (r: Result<Read<Pair>>)
    requires good ==> d < TWO32 && v < TWO32 && PairAt(src, d, v, rest)
    ensures good ==> r == Ok(Read(Pair(d, v), rest))
  {
    if good {
      VarintFirst(d, Encode(v) + rest);
      VarintFirst(v, rest);
    }
    var delta := GetVarint32(src);
    if delta.Error? {
      return Error(delta.status);
    }
    var value := GetVarint32(delta.value.rest);
    if value.Error? {
      return Error(value.status);
    }
    r := Ok(Read(Pair(delta.value.value, value.value.value), value.value.rest));
  }

  lemma {:induction false} ExcSmall(exc: seq<Exc>, vs: seq<nat>, w: nat, i: nat)
    requires ExcGood(exc, vs, w, |vs|) && Values(vs) && i < |exc|
    ensures exc[i].index < |vs| && exc[i].value < TWO32
  {
  }

  lemma {:induction false} PairAtState(exc: seq<Exc>, vs: seq<nat>, w: nat, i: nat, rest: Bytes, st: Patching)
    requires i < |exc| && PatchAt(exc, vs, w, i, rest, st)
    ensures st.idx <= exc[i].index && PairAt(st.src, exc[i].index - st.idx, exc[i].value, PutExc(exc, i + 1) + rest)
  {
    PairNext(exc, i, rest);
  }

  /** The next exception: its fields in the bytes, and the state after it. */
  lemma {:induction false} NextPatch(exc: seq<Exc>, vs: seq<nat>, w: nat, i: nat, rest: Bytes, st: Patching) returns (p: Pair, after: Bytes, next: Patching)
    requires ExcGood(exc, vs, w, |vs|) && Values(vs) && |vs| < TWO32 && i < |exc| && PatchAt(exc, vs, w, i, rest, st)
    ensures p.delta < TWO32 && p.value < TWO32 && PairAt(st.src, p.delta, p.value, after)
    ensures Apply(st, p, after) == Ok(next) && PatchAt(exc, vs, w, i + 1, rest, next)
  {
    ExcSmall(exc, vs, w, i);
    PairAtState(exc, vs, w, i, rest, st);
    PatchMoves(exc, vs, w, i, rest, st);
    p, after := Pair(exc[i].index - st.idx, exc[i].value), PutExc(exc, i + 1) + rest;
    next := Apply(st, p, after).value;
  }

  method PatchOne(st: Patching, ghost exc: seq<Exc>, ghost vs: seq<nat>, ghost w: nat, ghost i: nat, ghost rest: Bytes, ghost good: bool)
    returns (r: Result<Patching>)
    requires good ==> ExcGood(exc, vs, w, |vs|) && Values(vs) && |vs| < TWO32 && i < |exc| && PatchAt(exc, vs, w, i, rest, st)
    ensures r.Ok? ==> |r.value.out| == |st.out|
    ensures good ==> r.Ok? && PatchAt(exc, vs, w, i + 1, rest, r.value)
  {
    ghost var want, after: Bytes, next := Pair(0, 0), [], st;
    if good {
      want, after, next := NextPatch(exc, vs, w, i, rest, st);
    }
    var p := GetPair(st.src, want.delta, want.value, after, good);
    if p.Error? {
      return Error(p.status);
    }
    r := Apply(st, p.value.value, p.value.rest);
  }

  /** Applies the exception table to the unpacked values. */
  method Patch(src: Bytes, low: seq<nat>, nExc: nat, ghost vs: seq<nat>, ghost w: nat, ghost rest: Bytes, ghost good: bool)
    returns (r: Result<Read<seq<nat>>>)
    requires good ==> Values(vs) && |vs| < TWO32 && low == LowOf(vs, w)
    requires good ==> var exc := ExcOf(vs, w, |vs|); nExc == |exc| && Rising(exc) && src == PutExc(exc, 0) + rest
    ensures good ==> r == Ok(Read(vs, rest))
    ensures r.Ok? ==> |r.value.value| == |low|
  {
    var st := Patching(src, 0, low);
    ghost var exc := if good then ExcOf(vs, w, |vs|) else [];
    if good {
      ExcOfGood(vs, w, |vs|);
      PatchStart(exc, vs, w);
    }
    for i := 0 to nExc
      invariant |st.out| == |low| && (good ==> PatchAt(exc, vs, w, i, rest, st))
    {
      var next := PatchOne(st, exc, vs, w, i, rest, good);
      if next.Error? {
        return Error(next.status);
      }
      st := next.value;
    }
    if good {
      assert Patched(vs, w, |vs|) == vs && [] + rest == rest;
    }
    r := Ok(Read(st.out, st.src));
  }

  /** Reads `n` values back; exactly the encoded bytes are consumed. */
  method PforDecode(src: Bytes, n: nat, ghost vs: seq<nat>, ghost bytes: Bytes, ghost rest: Bytes) returns (r: Result<Read<seq<nat>>>)
    ensures Values(vs) && n == |vs| < TWO32 && src == bytes + rest && IsCode(bytes, vs) ==> r == Ok(Read(vs, rest))
    ensures r.Ok? ==> |r.value.value| == n
  {
    ghost var good := Values(vs) && n == |vs| < TWO32 && src == bytes + rest && IsCode(bytes, vs);
    ghost var gw: nat, packed: Bytes := 0, [];
    if good {
      gw, packed :| Codes(bytes, vs, gw, packed);
      HeadFields(bytes, vs, gw, packed, rest);
    }
    var w := GetU8(src);
    if w.Error? {
      return Error(w.status);
    }
    var nExc := GetVarint32(w.value.rest);
    if nExc.Error? {
      return Error(nExc.status);
    }
    var low := Bitunpack(nExc.value.rest, n, w.value.value as nat, LowOf(vs, gw), packed,
                         if good then TailOf(vs, gw) + rest else [], good);
    if low.Error? {
      return Error(low.status);
    }
    r := Patch(low.value.rest, low.value.value, nExc.value.value, vs, gw, rest, good);
  }

  ghost function TailOf(vs: seq<nat>, w: nat): Bytes {
    ExcOfGood(vs, w, |vs|);
    PutExc(ExcOf(vs, w, |vs|), 0)
  }

  /** The fields of an encoded array, in reading order. */
  lemma {:induction false} HeadFields(bytes: Bytes, vs: seq<nat>, w: nat, packed: Bytes, rest: Bytes)
    requires Codes(bytes, vs, w, packed) && |vs| < TWO32
    ensures var exc := ExcOf(vs, w, |vs|);
            var body := packed + (TailOf(vs, w) + rest);
            && GetU8(bytes + rest) == Ok(Read(w as byte, Encode(|exc|) + body))
            && GetVarint32(Encode(|exc|) + body) == Ok(Read(|exc|, body))
            && Front(body, LowOf(vs, w), w, packed, TailOf(vs, w) + rest)
  {
    var exc := ExcOf(vs, w, |vs|);
    ExcOfGood(vs, w, |vs|);
    ExcCount(vs, w, |vs|);
    HeadFirst(w as byte, |exc|, packed, TailOf(vs, w), rest);
    LowFits(vs, w);
  }

  lemma {:induction false} HeadFirst(w: byte, n: nat, packed: Bytes, tail: Bytes, rest: Bytes)
    requires n < TWO32
    ensures var body := packed + (tail + rest);
            && GetU8([w] + (Encode(n) + (packed + tail)) + rest) == Ok(Read(w, Encode(n) + body))
            && GetVarint32(Encode(n) + body) == Ok(Read(n, body))
  {
    var body := packed + (tail + rest);
    assert [w] + (Encode(n) + (packed + tail)) + rest == [w] + (Encode(n) + body);
    U8First(w, Encode(n) + body);
    VarintFirst(n, body);
  }

  lemma {:induction false} ExcCount(vs: seq<nat>, w: nat, n: nat)
    requires n <= |vs|
    ensures |ExcOf(vs, w, n)| == Wide(vs, w, n) <= n
  {
    if n > 0 {
      ExcCount(vs, w, n - 1);
    }
  }

  lemma {:induction false} LowFits(vs: seq<nat>, w: nat)
    ensures forall i :: 0 <= i < |vs| ==> LowOf(vs, w)[i] < Pow2(w)
  {
    forall i | 0 <= i < |vs| ensures LowOf(vs, w)[i] < Pow2(w) {
      FitsWidth(vs[i], w);
    }
  }
}
