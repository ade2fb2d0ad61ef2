/** The accumulator: tokens go to per-term chains in one arena; at any token the buffer
    may spill to a sorted run. */
module SpimiBuffer {
  import opened Common
  import opened Varint
  import opened PostingPool
  import opened Postings
  import opened FlatPostings
  import opened TermChain
  import opened TermOrder
  import opened SpimiSpec
  import RunMerge

  /** The hard arena stop: 3.5 GiB, below the 32-bit offsets. */
  const ARENA_CAP: nat := 0xE000_0000

  /** The most one token adds to the arena: twenty bytes and a chain's first slice, each in a new
      block at worst. */
  const TOKEN_ROOM: nat := 21 * BLOCK

  /** One live term's accumulator. */
  datatype Term = Term(head: nat, w: SliceWriter, ntok: nat, curDocid: nat, sorted: bool)

  /** The accumulator and its chain record exactly the tokens `ts`. */
  ghost predicate Records(t: Term, ch: Chain, ts: seq<Tok>, hasPos: bool) {
    && ts != [] && AllFit(ts)
    && WriterAt(t.w, ch) && t.head == ch.slices[0].head
    && ch.content == EncodeFrom(FRESH, ts, hasPos)
    && t.ntok == |ts| && t.curDocid == ts[|ts| - 1].docid && (t.sorted <==> NonDecreasing(ts))
  }

  ghost predicate TermGood(arena: seq<byte>, limit: nat, t: Term, ch: Chain, ts: seq<Tok>, hasPos: bool) {
    Holds(arena, limit, ch) && Records(t, ch, ts, hasPos)
  }

  /** If `id` is live, it holds its tokens of the current fill. */
  ghost predicate Live(arena: seq<byte>, limit: nat, terms: map<nat, Term>, chains: map<nat, Chain>,
                       fill: seq<Token>, hasPos: bool, id: nat) {
    id in terms && id in chains ==> TermGood(arena, limit, terms[id], chains[id], TokensOf(fill, id), hasPos)
  }

  ghost predicate PairApart(chains: map<nat, Chain>, a: nat, b: nat) {
    a in chains && b in chains && a != b ==> Apart(chains[a], chains[b])
  }

  /** Every live term holds its tokens of the current fill, in chains apart. */
  ghost predicate BufferGood(arena: seq<byte>, limit: nat, terms: map<nat, Term>, chains: map<nat, Chain>,
                             fill: seq<Token>, hasPos: bool) {
    && terms.Keys == Active(fill) && chains.Keys == terms.Keys
    && (forall id {:trigger Live(arena, limit, terms, chains, fill, hasPos, id)} ::
          Live(arena, limit, terms, chains, fill, hasPos, id))
    && (forall a, b {:trigger PairApart(chains, a, b)} :: PairApart(chains, a, b))
  }

  // ----- one token

  lemma {:induction false} NonDecreasingSnoc(ts: seq<Tok>, t: Tok)
    ensures NonDecreasing(ts + [t]) <==> NonDecreasing(ts) && (ts == [] || ts[|ts| - 1].docid <= t.docid)
  {
    var all := ts + [t];
    if NonDecreasing(all) && ts != [] {
      assert all[|ts| - 1] == ts[|ts| - 1] && all[|ts|] == t;
      assert forall i :: 0 <= i < |ts| ==> all[i] == ts[i];
    }
  }

  /** The accumulator of `ts` with one more token. */
  lemma {:induction false} TermExtended(arena: seq<byte>, limit: nat, t': Term, ch': Chain, ts: seq<Tok>, tok: Tok, hasPos: bool)
    requires ts != [] && AllFit(ts) && Fits(tok)
    requires Holds(arena, limit, ch') && WriterAt(t'.w, ch') && t'.head == ch'.slices[0].head
    requires ch'.content == EncodeFrom(FRESH, ts, hasPos) + EncodeTok(Head(true, ts[|ts| - 1].docid), tok, hasPos)
    requires t'.ntok == |ts| + 1 && t'.curDocid == tok.docid
    requires t'.sorted <==> NonDecreasing(ts) && ts[|ts| - 1].docid <= tok.docid
    ensures TermGood(arena, limit, t', ch', ts + [tok], hasPos)
  {
    EncodeSnoc(FRESH, ts, tok, hasPos);
    NonDecreasingSnoc(ts, tok);
  }

  /** Appends one token's bytes to a live term. */
  method PutToken(pool: CompactPostingPool, t: Term, tok: Tok, hasPos: bool, ghost ch: Chain, ghost ts: seq<Tok>)
    returns (t': Term, ghost ch': Chain)
    requires pool.Valid() && TermGood(pool.arena, pool.nextOffset, t, ch, ts, hasPos) && Fits(tok)
    requires |pool.arena| < ARENA_CAP
    modifies pool
    ensures pool.Valid() && TermGood(pool.arena, pool.nextOffset, t', ch', ts + [tok], hasPos)
    ensures Spares(old(pool.arena), old(pool.nextOffset), ch, pool.arena, pool.nextOffset, ch')
    ensures |pool.arena| <= |old(pool.arena)| + TOKEN_ROOM
  {
    var head := Head(true, t.curDocid);
    assert Fits(ts[|ts| - 1]);
    TokenFits(head, tok, hasPos);
    var newDoc := t.curDocid != tok.docid;
    var bytes := Encode(Tagged(head, tok, hasPos)) + (if newDoc then Encode(Zigzag(tok.docid - t.curDocid)) else []);
    var w;
    w, ch' := PutBytes(pool, t.w, bytes, ch);
    t' := Term(t.head, w, t.ntok + 1, tok.docid, t.sorted && tok.docid >= t.curDocid);
    TermExtended(pool.arena, pool.nextOffset, t', ch', ts, tok, hasPos);
  }

  /** Starts a term's chain with its first token. */
  method FirstToken(pool: CompactPostingPool, tok: Tok, hasPos: bool) returns (t: Term, ghost ch: Chain)
    requires pool.Valid() && Fits(tok) && |pool.arena| < ARENA_CAP
    modifies pool
    ensures pool.Valid() && TermGood(pool.arena, pool.nextOffset, t, ch, [tok], hasPos)
    ensures forall other {:trigger Holds(old(pool.arena), old(pool.nextOffset), other)} ::
              Holds(old(pool.arena), old(pool.nextOffset), other) ==>
                Holds(pool.arena, pool.nextOffset, other) && Apart(other, ch)
    ensures |pool.arena| <= |old(pool.arena)| + TOKEN_ROOM
  {
    TokenFits(FRESH, tok, hasPos);
    var r, ch0 := pool.StartChain();
    ghost var arena, limit := pool.arena, pool.nextOffset;
    assert forall other {:trigger Holds(old(pool.arena), old(pool.nextOffset), other)} ::
        Holds(old(pool.arena), old(pool.nextOffset), other) ==> Holds(arena, limit, other) && Apart(other, ch0);
    var bytes := Encode(Tagged(FRESH, tok, hasPos)) + Encode(Zigzag(tok.docid));
    var w;
    w, ch := PutBytes(pool, r.value, bytes, ch0);
    t := Term(r.value.cur, w, 1, tok.docid, true);
    ghost var ts := [tok];
    assert ts[1..] == [];
    assert EncodeFrom(FRESH, ts, hasPos) == bytes;
  }

  // ----- decoding a term

  /** A term's postings. A long sorted term with enough documents leaves its positions
      in the chain and hands out a cursor instead; every other term is materialized. */
  method ToPostings(pool: CompactPostingPool, t: Term, hasPos: bool, allowStream: bool, ghost ch: Chain, ghost ts: seq<Tok>)
    returns (f: Flat, pump: Cursor?)
    requires TermGood(pool.arena, pool.nextOffset, t, ch, ts, hasPos)
    ensures pump == null ==> f == FlatOf(Drained(ts), hasPos)
    ensures pump != null ==>
              && allowStream && hasPos && |f.docids| >= SLIM_DF && fresh(pump) && pump.pool == pool
              && NonDecreasing(ts) && f == FlatOf(Groups(ts), false) && AtToken(pump, ts, 0, true)
    ensures pump != null <==> allowStream && hasPos && NonDecreasing(ts) && |ts| >= 65536 && |f.docids| >= 512
  {
    var candidate := allowStream && hasPos && t.sorted && t.ntok >= STREAM_TOKENS;
    var c := OpenChain(pool, t, hasPos, ch, ts);
    f := DecodeChain(c, t.ntok, hasPos, ts);
    pump := null;
    if candidate && |f.docids| >= SLIM_DF {
      pump := OpenChain(pool, t, hasPos, ch, ts);
      f := f.(positions := []);
      SameArrays(Groups(ts), hasPos);
    } else if !t.sorted {
      f := SortByDocid(f, hasPos, Groups(ts));
    }
  }

  /** A cursor at the chain's first token; the write offset is budget enough. */
  method OpenChain(pool: CompactPostingPool, t: Term, hasPos: bool, ghost ch: Chain, ghost ts: seq<Tok>) returns (c: Cursor)
    requires TermGood(pool.arena, pool.nextOffset, t, ch, ts, hasPos)
    ensures fresh(c) && c.pool == pool && AtToken(c, ts, 0, hasPos)
  {
    TailBoundsLength(pool.arena, ch.slices, ch.content);
    assert ts[..0] == [] && ts[0..] == ts;
    c := new Cursor(pool, t.head, t.w.cur, ch);
  }

  /** As many positions as the window's frequencies add up to. */
  method PullWindow(c: Cursor, freqs: seq<nat>, start: nat, end: nat, ghost ts: seq<Tok>, ghost done: nat) returns (piece: seq<nat>)
    requires AllFit(ts) && start <= end <= |freqs| && SumFreqs(freqs) == |ts|
    requires done == SumFreqs(freqs[..start]) <= |ts| && AtToken(c, ts, done, true)
    modifies c
    ensures done + |piece| == SumFreqs(freqs[..end]) <= |ts| && AtToken(c, ts, done + |piece|, true)
    ensures PosOf(ts[..done]) + piece == PosOf(ts[..done + |piece|])
  {
    var winPos := SumRange(freqs, start, end);
    WithinTotal(freqs, end);
    piece := PullPositions(c, winPos, ts, done);
    JoinPositions(ts, done, winPos);
  }

  /** The windowed writer's consumption: window by window it pulls as many positions as
      the window's frequencies add up to. Together that is the flat array. */
  method PullByWindows(c: Cursor, freqs: seq<nat>, unit: nat, ghost ts: seq<Tok>) returns (out: seq<nat>)
    requires AllFit(ts) && unit > 0 && AtToken(c, ts, 0, true) && SumFreqs(freqs) == |ts|
    modifies c
    ensures out == AllPositions(Groups(ts))
  {
    out := [];
    var start := 0;
    assert freqs[..0] == [] && ts[..0] == [];
    while start < |freqs|
      invariant 0 <= start <= |freqs| && |out| == SumFreqs(freqs[..start]) <= |ts|
      invariant AtToken(c, ts, |out|, true) && out == PosOf(ts[..|out|])
    {
      var end := if unit < |freqs| - start then start + unit else |freqs|;
      var piece := PullWindow(c, freqs, start, end, ts, |out|);
      out, start := out + piece, end;
    }
    assert freqs[..start] == freqs && ts[..|out|] == ts;
    GroupsFlatten(ts);
  }

  // ----- the buffer

  lemma {:induction false} TokensSnoc(fill: seq<Token>, t: Token, id: nat)
    ensures t.term == id ==> TokensOf(fill + [t], id) == TokensOf(fill, id) + [Tok(t.docid, t.pos)]
    ensures t.term != id ==> TokensOf(fill + [t], id) == TokensOf(fill, id)
    ensures Active(fill + [t]) == Active(fill) + {t.term}
  {
    assert (fill + [t])[..|fill|] == fill;
  }

  /** A term not touched by the token is as good as before. */
  lemma {:induction false} OtherStaysLive(
    arena: seq<byte>, limit: nat, arena': seq<byte>, limit': nat, terms: map<nat, Term>, chains: map<nat, Chain>,
    fill: seq<Token>, tok: Token, id: nat, hasPos: bool)
    requires Live(arena, limit, terms, chains, fill, hasPos, id) && id in terms && id in chains && id != tok.term
    requires Holds(arena', limit', chains[id])
    ensures TermGood(arena', limit', terms[id], chains[id], TokensOf(fill + [tok], id), hasPos)
  {
    TokensSnoc(fill, tok, id);
  }

  ghost predicate OthersSpared(arena: seq<byte>, limit: nat, chains: map<nat, Chain>, ch': Chain, own: nat) {
    forall id {:trigger Spared(arena, limit, chains, ch', id)} :: id != own ==> Spared(arena, limit, chains, ch', id)
  }

  lemma {:induction false} ChainsApart(arena: seq<byte>, limit: nat, chains: map<nat, Chain>, ch': Chain, own: nat, a: nat, b: nat)
    requires PairApart(chains, a, b) && OthersSpared(arena, limit, chains, ch', own)
    ensures PairApart(chains[own := ch'], a, b)
  {
    if a == own && b in chains && a != b {
      assert Spared(arena, limit, chains, ch', b);
      ApartSymmetric(chains[b], ch');
    } else if b == own && a in chains && a != b {
      assert Spared(arena, limit, chains, ch', a);
    }
  }

  /** Updating one term keeps the others as they are. */
  lemma {:induction false} KeysGrow(terms: map<nat, Term>, chains: map<nat, Chain>, id: nat, t: Term, ch: Chain)
    ensures terms[id := t].Keys == terms.Keys + {id} && chains[id := ch].Keys == chains.Keys + {id}
  {
  }

  lemma {:induction false} BufferUpdated(
    arena: seq<byte>, limit: nat, arena': seq<byte>, limit': nat, terms: map<nat, Term>, chains: map<nat, Chain>,
    fill: seq<Token>, tok: Token, t': Term, ch': Chain, hasPos: bool)
    requires BufferGood(arena, limit, terms, chains, fill, hasPos)
    requires TermGood(arena', limit', t', ch', TokensOf(fill + [tok], tok.term), hasPos)
    requires OthersSpared(arena', limit', chains, ch', tok.term)
    ensures BufferGood(arena', limit', terms[tok.term := t'], chains[tok.term := ch'], fill + [tok], hasPos)
  {
    var terms', chains' := terms[tok.term := t'], chains[tok.term := ch'];
    TokensSnoc(fill, tok, 0);
    KeysGrow(terms, chains, tok.term, t', ch');
    forall id ensures Live(arena', limit', terms', chains', fill + [tok], hasPos, id) {
      if id != tok.term && id in terms {
        assert Live(arena, limit, terms, chains, fill, hasPos, id) && Spared(arena', limit', chains, ch', id);
        OtherStaysLive(arena, limit, arena', limit', terms, chains, fill, tok, id, hasPos);
      }
    }
    forall a, b ensures PairApart(chains', a, b) {
      assert PairApart(chains, a, b);
      ChainsApart(arena', limit', chains, ch', tok.term, a, b);
    }
  }

  /** Takes one token into the accumulators. */
  method TakeToken(pool: CompactPostingPool, hasPos: bool, terms: map<nat, Term>, token: Token,
                   ghost chains: map<nat, Chain>, ghost fill: seq<Token>)
    returns (terms': map<nat, Term>, ghost chains': map<nat, Chain>)
    requires pool.Valid() && |pool.arena| < ARENA_CAP && Fits(Tok(token.docid, token.pos))
    requires BufferGood(pool.arena, pool.nextOffset, terms, chains, fill, hasPos)
    modifies pool
    ensures pool.Valid()
    ensures BufferGood(pool.arena, pool.nextOffset, terms', chains', fill + [token], hasPos)
    ensures terms'.Keys == terms.Keys + {token.term}
    ensures |pool.arena| <= |old(pool.arena)| + TOKEN_ROOM
  {
    var t: Term;
    ghost var ch: Chain;
    var tok, term := Tok(token.docid, token.pos), token.term;
    TokensSnoc(fill, token, term);
    ghost var arena, limit := pool.arena, pool.nextOffset;
    assert Live(arena, limit, terms, chains, fill, hasPos, term);
    if term in terms {
      t, ch := PutToken(pool, terms[term], tok, hasPos, chains[term], TokensOf(fill, term));
      forall id | id != term ensures Spared(pool.arena, pool.nextOffset, chains, ch, id) {
        assert Live(arena, limit, terms, chains, fill, hasPos, id) && PairApart(chains, id, term);
      }
    } else {
      assert TokensOf(fill, term) == [] && TokensOf(fill + [token], term) == [tok];
      t, ch := FirstToken(pool, tok, hasPos);
      forall id | id != term ensures Spared(pool.arena, pool.nextOffset, chains, ch, id) {
        assert Live(arena, limit, terms, chains, fill, hasPos, id);
      }
    }
    BufferUpdated(arena, limit, pool.arena, pool.nextOffset, terms, chains, fill, token, t, ch, hasPos);
    terms', chains' := terms[term := t], chains[term := ch];
  }

  /** If `id` is live, its chain is still stored and apart from `ch'`. */
  ghost predicate Spared(arena: seq<byte>, limit: nat, chains: map<nat, Chain>, ch': Chain, id: nat) {
    id in chains ==> Holds(arena, limit, chains[id]) && Apart(chains[id], ch')
  }

  lemma {:induction false} ApartSymmetric(a: Chain, b: Chain)
    requires Apart(a, b)
    ensures Apart(b, a)
  {
  }

  /** The touched ids are the live ones, each listed once. */
  ghost predicate TouchedGood(touched: seq<nat>, live: set<nat>, vocabSize: nat) {
    Distinct(touched) && SetOf(touched) == live && forall id :: id in touched ==> id < vocabSize
  }

  ghost predicate OrderGood(order: seq<nat>, rank: seq<nat>, vocabSize: nat) {
    TermOrder.Ranked(rank, order) && |rank| == vocabSize && forall id: nat :: id < vocabSize ==> id in order
  }

  lemma {:induction false} RunAdded(runs: seq<seq<Entry>>, fills: seq<seq<Token>>, order: seq<nat>, hasPos: bool,
                                    run: seq<Entry>, fill: seq<Token>)
    requires RunsGood(runs, fills, order, hasPos) && run == RunOf(order, fill, hasPos)
    ensures RunsGood(runs + [run], fills + [fill], order, hasPos)
  {
    forall k | 0 <= k < |runs + [run]| ensures RunIs(runs + [run], fills + [fill], order, hasPos, k) {
      if k < |runs| {
        assert RunIs(runs, fills, order, hasPos, k);
      }
    }
  }

  lemma {:induction false} EmptyBuffer(order: seq<nat>, rank: seq<nat>, vocabSize: nat, hasPos: bool)
    ensures BufferGood([], 0, map[], map[], [], hasPos) && TouchedGood([], {}, vocabSize)
    ensures RunsGood([], [], order, hasPos)
  {
    var terms: map<nat, Term>, chains: map<nat, Chain> := map[], map[];
    assert terms.Keys == {} && chains.Keys == {};
  }

  lemma {:induction false} NothingFed()
    ensures AllTokens([] + [[]]) == []
  {
    OneFill([], 0);
    var none: seq<seq<Token>> := [];
    assert none + [[]] == [[]];
  }

  lemma {:induction false} OrderFromTable(vocab: seq<Bytes>, order: seq<nat>, rank: seq<nat>)
    requires RankTable(vocab, order, rank)
    ensures OrderGood(order, rank, |vocab|)
  {
    forall id: nat | id < |vocab| ensures id in order {
      assert order[rank[id]] == id;
    }
  }

  function Touch(touched: seq<nat>, live: set<nat>, vocabSize: nat, id: nat): (r: seq<nat>)
    requires TouchedGood(touched, live, vocabSize) && id < vocabSize
    ensures TouchedGood(r, live + {id}, vocabSize)
  {
    assert id in live ==> live + {id} == live;
    assert SetOf(touched + [id]) == SetOf(touched) + {id};
    if id in live then touched else touched + [id]
  }

  class SpimiTermBuffer {
    const vocabSize: nat
    const hasPos: bool
    const order: seq<nat>
    const rank: seq<nat>
    const pool: CompactPostingPool
    var terms: map<nat, Term>
    var touched: seq<nat>
    var runs: seq<seq<Entry>>
    var failed: bool
    var drained: bool
    ghost var chains: map<nat, Chain>
    ghost var fills: seq<seq<Token>>
    ghost var fill: seq<Token>

    ghost predicate Valid()
      reads this, pool
    {
      Filled() && |pool.arena| < ARENA_CAP
    }

    /** Valid but for the arena stop, which the token just fed may have crossed. */
    ghost predicate Filled()
      reads this, pool
    {
      && pool.Valid()
      && BufferGood(pool.arena, pool.nextOffset, terms, chains, fill, hasPos)
      && TouchedGood(touched, terms.Keys, vocabSize)
      && OrderGood(order, rank, vocabSize)
      && RunsGood(runs, fills, order, hasPos)
    }

    /** Every token fed so far. */
    ghost function Fed(): seq<Token>
      reads this
    {
      AllTokens(fills + [fill])
    }

    constructor (vocab: seq<Bytes>, hasPos: bool)
      requires Distinct(vocab)
      ensures Valid() && fresh(pool) && Fed() == [] && this.hasPos == hasPos && vocabSize == |vocab|
      ensures RankTable(vocab, order, rank) && !failed && !drained && fills == [] && fill == [] && pool.arena == []
    {
      var o, r := BuildRanks(vocab);
      this.vocabSize, this.hasPos, this.order, this.rank := |vocab|, hasPos, o, r;
      this.pool := new CompactPostingPool();
      terms, touched, runs, failed, drained := map[], [], [], false, false;
      chains, fills, fill := map[], [], [];
      new;
      EmptyBuffer(order, rank, vocabSize, hasPos);
      OrderFromTable(vocab, order, rank);
      NothingFed();
    }

    /** Feeds one token; `overCap` is the memory gate's verdict after it. The token is
        recorded whether or not the buffer spills, and the arena never overflows. The buffer
        spills, the token included, when the gate is over its cap or the arena has reached its
        stop, and at no other token. After an out-of-range id the build is lost: the source
        latches the status and goes on filling without ever spilling, here later tokens are
        dropped; the drain fails either way. */
    method AddToken(term: nat, docid: nat, pos: nat, overCap: bool) returns (ghost stop: bool)
      requires Valid() && docid < TWO32 && pos < TWO32
      modifies this, pool
      ensures Valid()
      ensures old(failed) || term >= vocabSize ==> failed && Fed() == old(Fed())
      ensures !old(failed) && term < vocabSize ==> !failed && Fed() == old(Fed()) + [Token(term, docid, pos)]
      ensures !old(failed) && term < vocabSize && (overCap || stop) ==>
                fills == old(fills) + [old(fill) + [Token(term, docid, pos)]] && fill == [] && pool.arena == []
      ensures !old(failed) && term < vocabSize && !overCap && !stop ==>
                fills == old(fills) && fill == old(fill) + [Token(term, docid, pos)]
      ensures |pool.arena| <= |old(pool.arena)| + TOKEN_ROOM
      ensures stop ==> |old(pool.arena)| + TOKEN_ROOM >= ARENA_CAP
      ensures drained == old(drained)
    {
      stop := false;
      if failed || term >= vocabSize {
        failed := true;
        return;
      }
      stop := Accumulate(term, docid, pos, overCap);
      FedAfter(old(fills), old(fill), fills, fill, Token(term, docid, pos));
    }

    /** Records an accepted token and spills at the gate's verdict or the arena's stop. */
    method Accumulate(term: nat, docid: nat, pos: nat, overCap: bool) returns (ghost stop: bool)
      requires Valid() && term < vocabSize && docid < TWO32 && pos < TWO32
      modifies pool, `terms, `touched, `runs, `chains, `fills, `fill
      ensures Valid()
      ensures overCap || stop ==>
                fills == old(fills) + [old(fill) + [Token(term, docid, pos)]] && fill == [] && pool.arena == []
      ensures !overCap && !stop ==> fills == old(fills) && fill == old(fill) + [Token(term, docid, pos)]
      ensures |pool.arena| <= |old(pool.arena)| + TOKEN_ROOM
      ensures stop ==> |old(pool.arena)| + TOKEN_ROOM >= ARENA_CAP
    {
      Record(term, docid, pos);
      stop := |pool.arena| >= ARENA_CAP;
      if overCap || |pool.arena| >= ARENA_CAP {
        Spill();
      }
    }

    /** Puts a token into its term's chain. */
    method Record(term: nat, docid: nat, pos: nat)
      requires Valid() && term < vocabSize && docid < TWO32 && pos < TWO32
      modifies pool, `terms, `touched, `chains, `fill
      ensures Filled() && fill == old(fill) + [Token(term, docid, pos)]
      ensures |pool.arena| <= |old(pool.arena)| + TOKEN_ROOM
    {
      var token := Token(term, docid, pos);
      var touched' := Touch(touched, terms.Keys, vocabSize, term);
      var terms', chains' := TakeToken(pool, hasPos, terms, token, chains, fill);
      terms, touched, chains, fill := terms', touched', chains', fill + [token];
    }

    /** Writes the live terms as one sorted run and empties the buffer. */
    method Spill()
      requires Filled()
      modifies pool, `terms, `touched, `runs, `chains, `fills, `fill
      ensures Valid() && fills == old(fills) + [old(fill)] && fill == [] && Fed() == old(Fed())
      ensures pool.arena == []
    {
      var run := DrainSorted(false, 1);
      FedSpilled(fills, fill);
      RunAdded(runs, fills, order, hasPos, run, fill);
      EmptyBuffer(order, rank, vocabSize, hasPos);
      runs, fills := runs + [run], fills + [fill];
      terms, touched, chains, fill := map[], [], map[], [];
      pool.Reset();
    }

    /** The live terms in dictionary order. A streamed term is consumed on the spot, in
        windows of `unit` documents. */
    method DrainSorted(allowStream: bool, unit: nat) returns (run: seq<Entry>)
      requires Filled() && unit > 0
      ensures run == RunOf(order, fill, hasPos)
    {
      assert forall x :: x in touched ==> x in order;
      var ids := SortByRank(rank, touched, order);
      OneFill(fill, 0);
      FilterMembers(order, Active(fill));
      run := [];
      for i := 0 to |ids|
        invariant run == Entries(ids[..i], [fill], hasPos)
      {
        var id := ids[i];
        assert id in ids;
        OneFill(fill, id);
        assert Live(pool.arena, pool.nextOffset, terms, chains, fill, hasPos, id);
        var f := TakeTerm(pool, terms[id], hasPos, allowStream, unit, chains[id], TokensOf(fill, id));
        EntriesSnoc(ids, i, [fill], hasPos);
        run := run + [Entry(id, f)];
      }
      assert ids[..|ids|] == ids;
    }

    /** Emits every term once, in dictionary order. The first call yields the stream of
        the fills, whichever path it takes; a second call yields nothing. */
    method ForEachTermSorted(unit: nat) returns (r: Result<seq<Entry>>, ghost schedule: seq<seq<Token>>)
      requires Valid() && unit > 0
      modifies this, pool
      ensures Valid() && drained && failed == old(failed)
      ensures old(drained) || failed ==> r.Error?
      ensures !old(drained) && !failed ==>
                r == Ok(Stream(order, schedule, hasPos)) && SplitsInto(schedule, old(Fed()))
      ensures !old(drained) && !failed ==> schedule == Schedule(old(fills), old(fill))
      ensures r.Ok? && InOrderFeed(old(Fed())) ==> r.value == Stream(order, [old(Fed())], hasPos)
    {
      schedule := Schedule(fills, fill);
      if drained {
        return Error(Corruption("spimi: already drained (single-drain contract)")), schedule;
      }
      drained := true;
      if failed {
        return Error(Corruption("spimi: term_id out of vocab range")), schedule;
      }
      var out;
      if runs == [] {
        out := DrainSorted(true, unit);
        assert schedule == [fill];
      } else {
        TouchedIffFilled(terms, touched, fill, vocabSize);
        FedSettled(fills);
        if touched != [] {
          Spill();
        }
        assert schedule == fills;
        out := RunMerge.MergeRuns(runs, rank, hasPos, true, unit, order, fills);
      }
      r := Ok(out);
      if InOrderFeed(old(Fed())) {
        StreamAnySchedule(order, schedule, old(Fed()), hasPos);
      }
    }
  }

  lemma {:induction false} TouchedIffFilled(terms: map<nat, Term>, touched: seq<nat>, fill: seq<Token>, vocabSize: nat)
    requires TouchedGood(touched, terms.Keys, vocabSize) && terms.Keys == Active(fill)
    ensures touched == [] <==> fill == []
  {
    assert touched != [] ==> touched[0] in SetOf(touched);
    assert fill != [] ==> fill[|fill| - 1].term in Active(fill);
  }

  lemma {:induction false} FedSettled(fills: seq<seq<Token>>)
    ensures AllTokens(fills + [[]]) == AllTokens(fills)
  {
    assert (fills + [[]])[..|fills|] == fills;
  }

  /** One term's postings with its positions in place, streamed or not. */
  method TakeTerm(pool: CompactPostingPool, t: Term, hasPos: bool, allowStream: bool, unit: nat, ghost ch: Chain, ghost ts: seq<Tok>)
    returns (f: Flat)
    requires TermGood(pool.arena, pool.nextOffset, t, ch, ts, hasPos) && unit > 0
    ensures f == FlatOf(Drained(ts), hasPos)
  {
    var pump;
    f, pump := ToPostings(pool, t, hasPos, allowStream, ch, ts);
    if pump != null {
      SumIsTokens(Groups(ts));
      GroupsFlatten(ts);
      var positions := PullByWindows(pump, f.freqs, unit, ts);
      SameArrays(Groups(ts), true);
      f := f.(positions := positions);
    }
  }

  lemma {:induction false} EntriesSnoc(ids: seq<nat>, i: nat, fills: seq<seq<Token>>, hasPos: bool)
    requires i < |ids|
    ensures Entries(ids[..i + 1], fills, hasPos) == Entries(ids[..i], fills, hasPos) + [EntryOf(ids[i], fills, hasPos)]
  {
  }

  lemma {:induction false} FedSpilled(fills: seq<seq<Token>>, fill: seq<Token>)
    ensures AllTokens(fills + [fill] + [[]]) == AllTokens(fills + [fill])
  {
    var all := fills + [fill] + [[]];
    assert all[..|all| - 1] == fills + [fill];
  }

  /** One token more has been fed, spilled or not. */
  lemma {:induction false} FedAfter(fills: seq<seq<Token>>, fill: seq<Token>, fills': seq<seq<Token>>, fill': seq<Token>, t: Token)
    requires (fills' == fills && fill' == fill + [t]) || (fills' == fills + [fill + [t]] && fill' == [])
    ensures AllTokens(fills' + [fill']) == AllTokens(fills + [fill]) + [t]
  {
    FedSpilled(fills, fill + [t]);
    assert (fills + [fill + [t]])[..|fills|] == fills && (fills + [fill])[..|fills|] == fills;
  }
}
