/** A term's tokens as a tagged varint stream in one arena chain, and back. */
module TermChain {
  import opened Common
  import opened Varint
  import opened PostingPool
  import opened Postings
  import opened FlatPostings

  const SLIM_DF: nat := 512
  const STREAM_TOKENS: nat := 65536

  ghost predicate Fits(t: Tok) {
    t.docid < TWO32 && t.pos < TWO32
  }

  ghost predicate AllFit(ts: seq<Tok>) {
    forall i :: 0 <= i < |ts| ==> Fits(ts[i])
  }

  /** The current document of a term, as the accumulator tracks it. */
  datatype Head = Head(started: bool, docid: nat)

  const FRESH: Head := Head(false, 0)

  predicate NewDoc(h: Head, t: Tok) {
    !h.started || h.docid != t.docid
  }

  function Tagged(h: Head, t: Tok, hasPos: bool): nat {
    (if hasPos then 2 * t.pos else 0) + (if NewDoc(h, t) then 1 else 0)
  }

  /** The signed step from the previous document, 0 before the first. */
  function Delta(h: Head, t: Tok): int {
    t.docid - (if h.started then h.docid else 0)
  }

  function EncodeTok(h: Head, t: Tok, hasPos: bool): seq<byte> {
    Encode(Tagged(h, t, hasPos)) + (if NewDoc(h, t) then Encode(Zigzag(Delta(h, t))) else [])
  }

  /** The head after `ts`. */
  function HeadAfter(h: Head, ts: seq<Tok>): Head {
    if ts == [] then h else Head(true, ts[|ts| - 1].docid)
  }

  function EncodeFrom(h: Head, ts: seq<Tok>, hasPos: bool): seq<byte>
    decreases |ts|
  {
    if ts == [] then [] else EncodeTok(h, ts[0], hasPos) + EncodeFrom(Head(true, ts[0].docid), ts[1..], hasPos)
  }

  lemma {:induction false} EncodeSnoc(h: Head, ts: seq<Tok>, t: Tok, hasPos: bool)
    ensures EncodeFrom(h, ts + [t], hasPos) == EncodeFrom(h, ts, hasPos) + EncodeTok(HeadAfter(h, ts), t, hasPos)
    decreases |ts|
  {
    if ts == [] {
      assert ts + [t] == [t];
    } else {
      assert (ts + [t])[1..] == ts[1..] + [t];
      EncodeSnoc(Head(true, ts[0].docid), ts[1..], t, hasPos);
    }
  }

  lemma {:induction false} TokenFits(h: Head, t: Tok, hasPos: bool)
    requires Fits(t) && h.docid < TWO32
    ensures Tagged(h, t, hasPos) < TWO64 && Zigzag(Delta(h, t)) < TWO64
    ensures |EncodeTok(h, t, hasPos)| <= 20
  {
    EncodedLength(Tagged(h, t, hasPos), 10);
    EncodedLength(Zigzag(Delta(h, t)), 10);
  }

  lemma {:induction false} TakeSnoc<T>(s: seq<T>, i: nat)
    requires i < |s|
    ensures s[..i + 1] == s[..i] + [s[i]]
  {
  }

  // ----- writing

  /** Appends bytes one by one; only this chain changes. */
  method PutBytes(pool: CompactPostingPool, w: SliceWriter, bytes: seq<byte>, ghost ch: Chain)
    returns (w': SliceWriter, ghost ch': Chain)
    requires pool.Valid() && Holds(pool.arena, pool.nextOffset, ch) && WriterAt(w, ch)
    requires |pool.arena| + |bytes| * BLOCK < TWO32
    modifies pool
    ensures pool.Valid() && Holds(pool.arena, pool.nextOffset, ch') && WriterAt(w', ch')
    ensures ch'.content == ch.content + bytes && ch'.slices[0] == ch.slices[0]
    ensures |pool.arena| <= |old(pool.arena)| + |bytes| * BLOCK
    ensures Spares(old(pool.arena), old(pool.nextOffset), ch, pool.arena, pool.nextOffset, ch')
  {
    w', ch' := w, ch;
    for i := 0 to |bytes|
      invariant pool.Valid() && Holds(pool.arena, pool.nextOffset, ch') && WriterAt(w', ch')
      invariant ch'.content == ch.content + bytes[..i] && ch'.slices[0] == ch.slices[0]
      invariant |pool.arena| <= |old(pool.arena)| + i * BLOCK
      invariant Spares(old(pool.arena), old(pool.nextOffset), ch, pool.arena, pool.nextOffset, ch')
    {
      ghost var arena, limit, mid := pool.arena, pool.nextOffset, ch';
      var r;
      r, ch' := pool.AppendByte(w', bytes[i], ch');
      SparesTwice(old(pool.arena), old(pool.nextOffset), ch, arena, limit, mid, pool.arena, pool.nextOffset, ch');
      TakeSnoc(bytes, i);
      w' := r.value;
    }
    assert bytes[..|bytes|] == bytes;
  }

  // ----- reading

  /** The decoder's accumulation of one byte, and the value still to come. */
  function AddDigit(acc: nat, b: byte, scale: nat): nat {
    acc + b as nat % 128 * scale
  }

  ghost function Pending(acc: nat, scale: nat, rest: nat): nat {
    acc + scale * rest
  }

  lemma {:induction false} DigitStep(acc: nat, scale: nat, rest: nat)
    requires rest >= 128
    ensures Pending(AddDigit(acc, Encode(rest)[0], scale), scale * 128, rest / 128) == Pending(acc, scale, rest)
  {
    assert Encode(rest)[0] as nat % 128 == rest % 128;
    SplitDigit(rest, scale);
  }

  lemma {:induction false} DigitLast(acc: nat, scale: nat, rest: nat)
    requires rest < 128
    ensures AddDigit(acc, Encode(rest)[0], scale) == Pending(acc, scale, rest)
  {
    assert Encode(rest)[0] as nat % 128 == rest;
  }

  /** Reads one varint off the chain. */
  method DecodeChainVarint(c: Cursor, ghost v: nat, ghost after: seq<byte>) returns (r: nat)
    requires c.Valid() && c.Unread() == Encode(v) + after && |Encode(v)| <= c.budget && v < TWO64
    modifies c
    ensures c.Valid() && c.Unread() == after && r == v
    ensures c.budget == old(c.budget) - |Encode(v)|
  {
    r := 0;
    var scale: nat := 1;
    ghost var rest: nat := v;
    var b := NextByte(c, Encode(rest), after);
    while b >= 128
      invariant c.Valid() && b == Encode(rest)[0] && c.Unread() == Encode(rest)[1..] + after
      invariant |Encode(rest)| - 1 <= c.budget == old(c.budget) - |Encode(v)| + |Encode(rest)| - 1
      invariant Pending(r, scale, rest) == v
      decreases rest
    {
      DigitStep(r, scale, rest);
      r := AddDigit(r, b, scale);
      assert Encode(rest)[1..] == Encode(rest / 128);
      rest, scale := rest / 128, scale * 128;
      b := NextByte(c, Encode(rest), after);
    }
    DigitLast(r, scale, rest);
    r := AddDigit(r, b, scale);
    assert Encode(rest)[1..] + after == after;
  }

  /** The next byte of a known prefix of the unread content. */
  method NextByte(c: Cursor, ghost known: seq<byte>, ghost after: seq<byte>) returns (b: byte)
    requires c.Valid() && c.budget > 0 && known != [] && c.Unread() == known + after
    modifies c
    ensures c.Valid() && c.budget == old(c.budget) - 1 && b == known[0] && c.Unread() == known[1..] + after
  {
    b := c.Next();
    assert (known + after)[1..] == known[1..] + after;
  }

  /** One tagged token: its tag and, behind a new document, the signed step. */
  method DecodeTok(c: Cursor, ghost h: Head, ghost t: Tok, hasPos: bool, ghost after: seq<byte>)
    returns (tagged: nat, step: int)
    requires c.Valid() && c.Unread() == EncodeTok(h, t, hasPos) + after && |EncodeTok(h, t, hasPos)| <= c.budget
    requires Fits(t) && h.docid < TWO32
    modifies c
    ensures c.Valid() && c.Unread() == after && c.budget == old(c.budget) - |EncodeTok(h, t, hasPos)|
    ensures tagged == Tagged(h, t, hasPos) && (NewDoc(h, t) ==> step == Delta(h, t))
    ensures tagged % 2 == 1 <==> NewDoc(h, t)
    ensures hasPos ==> tagged / 2 == t.pos
  {
    TokenFits(h, t, hasPos);
    ghost var z := Encode(Zigzag(Delta(h, t)));
    assert EncodeTok(h, t, hasPos) + after == Encode(Tagged(h, t, hasPos)) + ((if NewDoc(h, t) then z else []) + after);
    tagged := DecodeChainVarint(c, Tagged(h, t, hasPos), (if NewDoc(h, t) then z else []) + after);
    step := 0;
    if tagged % 2 == 1 {
      var zz := DecodeChainVarint(c, Zigzag(Delta(h, t)), after);
      ZigzagRoundTrip(Delta(h, t));
      step := Unzigzag(zz);
    }
  }

  /** What is left of the chain when `i` tokens are read. */
  ghost predicate AtToken(c: Cursor, ts: seq<Tok>, i: nat, hasPos: bool)
    requires i <= |ts|
    reads c, c.pool
  {
    && c.Valid()
    && c.Unread() == EncodeFrom(HeadAfter(FRESH, ts[..i]), ts[i..], hasPos)
    && |c.Unread()| <= c.budget
  }

  lemma {:induction false} SplitToken(ts: seq<Tok>, i: nat, hasPos: bool)
    requires i < |ts| && AllFit(ts)
    ensures var h := HeadAfter(FRESH, ts[..i]);
            && h.docid < TWO32
            && EncodeFrom(h, ts[i..], hasPos)
               == EncodeTok(h, ts[i], hasPos) + EncodeFrom(HeadAfter(FRESH, ts[..i + 1]), ts[i + 1..], hasPos)
  {
    assert ts[i..][0] == ts[i] && ts[i..][1..] == ts[i + 1..];
    assert ts[..i + 1][i] == ts[i];
  }

  /** Reads token `i`; the next call reads the one after. */
  method NextTok(c: Cursor, ghost ts: seq<Tok>, ghost i: nat, hasPos: bool) returns (tagged: nat, step: int)
    requires i < |ts| && AllFit(ts) && AtToken(c, ts, i, hasPos)
    modifies c
    ensures AtToken(c, ts, i + 1, hasPos)
    ensures tagged % 2 == 1 <==> NewDoc(HeadAfter(FRESH, ts[..i]), ts[i])
    ensures tagged % 2 == 1 ==> step == Delta(HeadAfter(FRESH, ts[..i]), ts[i])
    ensures hasPos ==> tagged / 2 == ts[i].pos
  {
    SplitToken(ts, i, hasPos);
    tagged, step := DecodeTok(c, HeadAfter(FRESH, ts[..i]), ts[i], hasPos,
                              EncodeFrom(HeadAfter(FRESH, ts[..i + 1]), ts[i + 1..], hasPos));
  }

  /** Counting the decoded token `t` into the arrays is grouping token `i`. */
  lemma {:induction false} CountToken(ts: seq<Tok>, i: nat, f: Flat, t: Tok, newDoc: bool, hasPos: bool)
    requires i < |ts| && f == FlatOf(Groups(ts[..i]), hasPos)
    requires newDoc == NewDoc(HeadAfter(FRESH, ts[..i]), ts[i])
    requires t.docid == ts[i].docid && (hasPos ==> t.pos == ts[i].pos)
    ensures newDoc || f.freqs != []
    ensures PushFlat(f, t, newDoc, hasPos) == FlatOf(Groups(ts[..i + 1]), hasPos)
    ensures HeadAfter(FRESH, ts[..i + 1]).docid == ts[i].docid
  {
    var g := Groups(ts[..i]);
    if i > 0 {
      GroupsLast(ts[..i]);
    }
    assert ts[..i + 1][..i] == ts[..i] && ts[..i + 1][i] == ts[i];
    PushFlatIsPush(g, ts[i], hasPos);
    assert PushFlat(f, t, newDoc, hasPos) == PushFlat(f, ts[i], newDoc, hasPos);
  }

  /** The chain decodes to the groups of its tokens. */
  method DecodeChain(c: Cursor, ntok: nat, hasPos: bool, ghost ts: seq<Tok>) returns (f: Flat)
    requires AllFit(ts) && ntok == |ts| && AtToken(c, ts, 0, hasPos)
    modifies c
    ensures f == FlatOf(Groups(ts), hasPos)
  {
    f := Flat([], [], []);
    var prev := 0;
    assert ts[..0] == [];
    for i := 0 to ntok
      invariant AtToken(c, ts, i, hasPos)
      invariant f == FlatOf(Groups(ts[..i]), hasPos) && prev == HeadAfter(FRESH, ts[..i]).docid
    {
      ghost var was := f;
      var tagged, step := NextTok(c, ts, i, hasPos);
      if tagged % 2 == 1 {
        prev := prev + step;
      }
      CountToken(ts, i, was, Tok(prev, tagged / 2), tagged % 2 == 1, hasPos);
      f := PushFlat(f, Tok(prev, tagged / 2), tagged % 2 == 1, hasPos);
    }
    assert ts[..ntok] == ts;
  }

  /** The positions of some tokens. */
  function PosOf(ts: seq<Tok>): (r: seq<nat>)
    ensures |r| == |ts| && forall i :: 0 <= i < |ts| ==> r[i] == ts[i].pos
  {
    seq(|ts|, i requires 0 <= i < |ts| => ts[i].pos)
  }

  /** The streamed source: the next `count` positions, skipping the docid steps. */
  method PullPositions(c: Cursor, count: nat, ghost ts: seq<Tok>, ghost i: nat) returns (dst: seq<nat>)
    requires AllFit(ts) && i + count <= |ts| && AtToken(c, ts, i, true)
    modifies c
    ensures AtToken(c, ts, i + count, true) && dst == PosOf(ts[i..i + count])
  {
    dst := [];
    ghost var j := i;
    for k := 0 to count
      invariant j == i + k && AtToken(c, ts, j, true) && dst == PosOf(ts[i..j])
    {
      var tagged, step := NextTok(c, ts, j, true);
      PosSnoc(ts, i, j);
      dst, j := dst + [tagged / 2], j + 1;
    }
  }

  lemma {:induction false} PosSnoc(ts: seq<Tok>, i: nat, j: nat)
    requires i <= j < |ts|
    ensures PosOf(ts[i..j + 1]) == PosOf(ts[i..j]) + [ts[j].pos]
  {
  }

  lemma {:induction false} JoinPositions(ts: seq<Tok>, i: nat, n: nat)
    requires i + n <= |ts|
    ensures PosOf(ts[..i]) + PosOf(ts[i..i + n]) == PosOf(ts[..i + n])
  {
  }

  function Sum(sizes: seq<nat>): nat {
    if sizes == [] then 0 else sizes[0] + Sum(sizes[1..])
  }

  /** Pulling in any pieces that add up yields what the flat array would hold. */
  method PullAll(c: Cursor, sizes: seq<nat>, ghost ts: seq<Tok>) returns (out: seq<nat>)
    requires AllFit(ts) && Sum(sizes) == |ts| && AtToken(c, ts, 0, true)
    modifies c
    ensures out == AllPositions(Groups(ts))
  {
    out := [];
    ghost var done: nat := 0;
    for k := 0 to |sizes|
      invariant done + Sum(sizes[k..]) == |ts| && AtToken(c, ts, done, true) && out == PosOf(ts[..done])
    {
      assert sizes[k..][0] == sizes[k] && sizes[k..][1..] == sizes[k + 1..];
      var piece := PullPositions(c, sizes[k], ts, done);
      JoinPositions(ts, done, sizes[k]);
      out := out + piece;
      done := done + sizes[k];
    }
    assert ts[..done] == ts;
    GroupsFlatten(ts);
  }

  lemma {:induction false} PosOfSnoc(ts: seq<Tok>)
    requires ts != []
    ensures PosOf(ts) == PosOf(ts[..|ts| - 1]) + [ts[|ts| - 1].pos]
  {
  }

  lemma {:induction false} GroupsFlatten(ts: seq<Tok>)
    ensures AllPositions(Groups(ts)) == PosOf(ts)
  {
    if ts != [] {
      var init, t := ts[..|ts| - 1], ts[|ts| - 1];
      GroupsFlatten(init);
      PushPositions(Groups(init), t);
      PosOfSnoc(ts);
    }
  }
}
