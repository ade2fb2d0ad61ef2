/** Building an index from tokens and answering a phrase from its bytes. */
module IndexBuild {
  import opened Common
  import opened DocidSets
  import opened TermOrder
  import opened TermDict
  import opened FrqRegions
  import opened SpimiSpec
  import SpimiBuffer
  import opened WindowedLayout
  import opened SlimEntries
  import opened SegmentWriter
  import opened SegmentFits
  import opened SegmentReader
  import opened TokenPostings
  import opened EndToEnd
  import Dictionary
  import DB = DictBlocks
  import D = DictEntries
  import Q = PhraseQuery
  import Wildcard

  // ----- feeding

  ghost predicate AllInVocab(tokens: seq<Token>, vocabSize: nat) {
    forall t :: t in tokens ==> t.term < vocabSize
  }

  /** Docids and positions are 32-bit numbers. */
  ghost predicate Narrow(tokens: seq<Token>) {
    forall t :: t in tokens ==> t.docid < TWO32 && t.pos < TWO32
  }

  lemma {:induction false} NarrowAt(tokens: seq<Token>, i: nat)
    requires Narrow(tokens) && i < |tokens|
    ensures tokens[i].docid < TWO32 && tokens[i].pos < TWO32
    ensures tokens[..i + 1] == tokens[..i] + [tokens[i]]
  {
    assert tokens[i] in tokens;
  }

  /** Feeds every token, the memory gate deciding after each whether to spill, and drains. An
      id outside the vocabulary, and nothing else, loses the build. */
  method Accumulated(vocab: seq<Bytes>, tokens: seq<Token>, gates: seq<bool>, unit: nat)
    returns (r: Result<seq<SpimiSpec.Entry>>, ghost order: seq<nat>, ghost rank: seq<nat>, ghost cuts: seq<bool>)
    requires Distinct(vocab) && |gates| == |tokens| && unit > 0
    requires Narrow(tokens)
    ensures RankTable(vocab, order, rank)
    ensures r.Ok? <==> AllInVocab(tokens, |vocab|)
    ensures |cuts| == |tokens|
    ensures r.Ok? ==> r.value == Stream(order, Schedule(Closed(tokens, cuts), Open(tokens, cuts)), true)
    ensures r.Ok? ==> SplitsInto(Schedule(Closed(tokens, cuts), Open(tokens, cuts)), tokens)
    ensures r.Ok? ==> CutsFollow(tokens, cuts, gates)
    ensures r.Ok? && InOrderFeed(tokens) ==> r.value == Stream(order, [tokens], true)
  {
    var buf := new SpimiBuffer.SpimiTermBuffer(vocab, true);
    order, rank := buf.order, buf.rank;
    cuts := FeedAll(buf, tokens, gates);
    ghost var schedule;
    r, schedule := buf.ForEachTermSorted(unit);
  }

  method FeedAll(buf: SpimiBuffer.SpimiTermBuffer, tokens: seq<Token>, gates: seq<bool>) returns (ghost cuts: seq<bool>)
    requires FedBy(buf, [], [], gates) && |gates| == |tokens| && Narrow(tokens)
    modifies buf, buf.pool
    ensures |cuts| == |tokens| && FedBy(buf, tokens, cuts, gates)
  {
    cuts := [];
    assert tokens[..0] == [];
    for i := 0 to |tokens|
      invariant |cuts| == i && FedBy(buf, tokens[..i], cuts, gates)
    {
      NarrowAt(tokens, i);
      ghost var cut := FeedOne(buf, tokens[..i], cuts, gates, i, tokens[i]);
      cuts := cuts + [cut];
    }
    assert tokens[..|tokens|] == tokens;
  }

  ghost predicate CutSoFar(fills: seq<seq<Token>>, fill: seq<Token>, arena: nat, before: seq<Token>, cuts: seq<bool>, gates: seq<bool>)
    requires |cuts| == |before| <= |gates|
  {
    CutAt(fills, fill, arena, before, cuts) && CutsFollow(before, cuts, gates)
  }

  lemma {:induction false} CutSoFarNext(fills: seq<seq<Token>>, fill: seq<Token>, arena: nat, fills': seq<seq<Token>>, fill': seq<Token>,
                                        arena': nat, before: seq<Token>, cuts: seq<bool>, gates: seq<bool>, t: Token, cut: bool)
    requires |cuts| == |before| < |gates| && CutSoFar(fills, fill, arena, before, cuts, gates)
    requires Fills(fills, fill, arena, fills', fill', arena', t, cut)
    requires (gates[|cuts|] ==> cut) && (cut && !gates[|cuts|] ==> arena + SpimiBuffer.TOKEN_ROOM >= SpimiBuffer.ARENA_CAP)
    ensures CutSoFar(fills', fill', arena', before + [t], cuts + [cut], gates)
  {
    CutNext(fills, fill, arena, fills', fill', arena', before, cuts, t, cut);
    CutsGrow(before, cuts, gates, t, cut);
  }

  /** Every verdict is the gate's or that of an arena that may be full. */
  ghost predicate CutsFollow(tokens: seq<Token>, cuts: seq<bool>, gates: seq<bool>)
    requires |cuts| == |tokens| <= |gates|
  {
    forall i {:trigger CutFor(tokens, cuts, gates, i)} :: 0 <= i < |cuts| ==> CutFor(tokens, cuts, gates, i)
  }

  lemma {:induction false} CutsGrow(tokens: seq<Token>, cuts: seq<bool>, gates: seq<bool>, t: Token, cut: bool)
    requires |cuts| == |tokens| < |gates| && CutsFollow(tokens, cuts, gates)
    requires (gates[|cuts|] ==> cut) && (cut && !gates[|cuts|] ==> MayStop(|Open(tokens, cuts)|))
    ensures CutsFollow(tokens + [t], cuts + [cut], gates)
  {
    forall i | 0 <= i <= |cuts| ensures CutFor(tokens + [t], cuts + [cut], gates, i) {
      assert (cuts + [cut])[..i] == cuts[..i] && (tokens + [t])[..i] == tokens[..i];
      assert i < |cuts| ==> CutFor(tokens, cuts, gates, i);
      assert i == |cuts| ==> cuts[..i] == cuts && tokens[..i] == tokens;
    }
  }

  /** Token `i` ends its fill if the gate is over its cap, and otherwise only if the fill is so
      long that the arena may have reached its stop. */
  ghost predicate CutFor(tokens: seq<Token>, cuts: seq<bool>, gates: seq<bool>, i: nat)
    requires i < |cuts| == |tokens| <= |gates|
  {
    && (gates[i] ==> cuts[i])
    && (cuts[i] && !gates[i] ==> MayStop(|Open(tokens[..i], cuts[..i])|))
  }

  /** One token behind a fill of `n` may bring the arena to its stop. */
  predicate MayStop(n: nat) {
    Room(n + 1) >= SpimiBuffer.ARENA_CAP
  }

  /** The buffer after these tokens: all taken, or the build lost to an id out of range. */
  ghost predicate FedTo(buf: SpimiBuffer.SpimiTermBuffer, before: seq<Token>)
    reads buf, buf.pool
  {
    && buf.Valid() && !buf.drained && (buf.failed <==> !AllInVocab(before, buf.vocabSize))
    && (!buf.failed ==> buf.Fed() == before)
  }

  /** Fed with these tokens under these verdicts. */
  ghost predicate FedBy(buf: SpimiBuffer.SpimiTermBuffer, before: seq<Token>, cuts: seq<bool>, gates: seq<bool>)
    requires |cuts| == |before| <= |gates|
    reads buf, buf.pool
  {
    FedTo(buf, before) && (!buf.failed ==> CutSoFar(buf.fills, buf.fill, |buf.pool.arena|, before, cuts, gates))
  }

  /** The buffer's fills are those of the verdicts; the arena grew with the open one. */
  ghost predicate CutAt(fills: seq<seq<Token>>, fill: seq<Token>, arena: nat, before: seq<Token>, cuts: seq<bool>)
    requires |cuts| == |before|
  {
    fills == Closed(before, cuts) && fill == Open(before, cuts) && arena <= Room(|fill|)
  }

  /** The most the arena holds after `n` tokens. */
  function Room(n: nat): nat {
    n * SpimiBuffer.TOKEN_ROOM
  }

  lemma {:induction false} RoomNext(n: nat)
    ensures Room(n + 1) == Room(n) + SpimiBuffer.TOKEN_ROOM
  {
  }

  /** What one token does to the fills and the arena. */
  predicate Fills(fills: seq<seq<Token>>, fill: seq<Token>, arena: nat,
                  fills': seq<seq<Token>>, fill': seq<Token>, arena': nat, t: Token, cut: bool) {
    if cut then fills' == fills + [fill + [t]] && fill' == [] && arena' == 0
    else fills' == fills && fill' == fill + [t] && arena' <= arena + SpimiBuffer.TOKEN_ROOM
  }

  lemma {:induction false} CutNext(fills: seq<seq<Token>>, fill: seq<Token>, arena: nat, fills': seq<seq<Token>>, fill': seq<Token>,
                                   arena': nat, before: seq<Token>, cuts: seq<bool>, t: Token, cut: bool)
    requires |cuts| == |before| && CutAt(fills, fill, arena, before, cuts) && Fills(fills, fill, arena, fills', fill', arena', t, cut)
    ensures CutAt(fills', fill', arena', before + [t], cuts + [cut])
    ensures arena + SpimiBuffer.TOKEN_ROOM >= SpimiBuffer.ARENA_CAP ==> MayStop(|Open(before, cuts)|)
  {
    CutSnoc(before, cuts, t, cut);
    RoomNext(|fill|);
  }

  /** Feeds one token; the gate's verdict and the arena's stop say whether it ends the fill. */
  method FeedOne(buf: SpimiBuffer.SpimiTermBuffer, ghost before: seq<Token>, ghost cuts: seq<bool>, gates: seq<bool>, i: nat, t: Token)
    returns (ghost cut: bool)
    requires |cuts| == |before| == i < |gates| && FedBy(buf, before, cuts, gates) && t.docid < TWO32 && t.pos < TWO32
    modifies buf, buf.pool
    ensures FedBy(buf, before + [t], cuts + [cut], gates)
  {
    ghost var fills, fill, arena := buf.fills, buf.fill, |buf.pool.arena|;
    cut := FeedGated(buf, before, t, gates[i]);
    if !buf.failed {
      CutSoFarNext(fills, fill, arena, buf.fills, buf.fill, |buf.pool.arena|, before, cuts, gates, t, cut);
    }
  }

  method FeedGated(buf: SpimiBuffer.SpimiTermBuffer, ghost before: seq<Token>, t: Token, gate: bool) returns (ghost cut: bool)
    requires FedTo(buf, before) && t.docid < TWO32 && t.pos < TWO32
    modifies buf, buf.pool
    ensures FedTo(buf, before + [t]) && (buf.failed <==> old(buf.failed) || t.term >= buf.vocabSize)
    ensures !buf.failed ==>
              Fills(old(buf.fills), old(buf.fill), |old(buf.pool.arena)|, buf.fills, buf.fill, |buf.pool.arena|, t, cut)
    ensures (gate ==> cut) && (cut && !gate ==> |old(buf.pool.arena)| + SpimiBuffer.TOKEN_ROOM >= SpimiBuffer.ARENA_CAP)
  {
    InVocabSnoc(before, t, buf.vocabSize);
    assert t == Token(t.term, t.docid, t.pos);
    ghost var stop := buf.AddToken(t.term, t.docid, t.pos, gate);
    cut := gate || stop;
  }

  lemma {:induction false} InVocabSnoc(tokens: seq<Token>, t: Token, vocabSize: nat)
    ensures AllInVocab(tokens + [t], vocabSize) <==> AllInVocab(tokens, vocabSize) && t.term < vocabSize
  {
    if AllInVocab(tokens + [t], vocabSize) {
      forall x | x in tokens ensures x.term < vocabSize {
        assert x in tokens + [t];
      }
      assert t in tokens + [t];
    }
  }

  // ----- the written segment

  lemma {:induction false} SoundTerms(ts: seq<TermDict.Entry<TermPostings>>, ids: seq<nat>, tokens: seq<Token>, vocab: seq<Bytes>, f: Features)
    requires AllTermsOut(ts, ids, tokens, vocab) && f.hasPrx
    ensures AllTyped(ts) && GoodTerms(ts, f, |ts|)
  {
    forall i: nat | i < |ts| ensures Typed(ts[i].value) && TermGood(ts[i], f) {
      assert Sound(ts[i].value);
    }
  }

  /** The terms are short enough for a length field. */
  ghost predicate ShortTerms(vocab: seq<Bytes>) {
    forall i: nat {:trigger vocab[i]} :: i < |vocab| ==> |vocab[i]| < TWO32
  }

  lemma {:induction false} OneFits(region: Bytes, h: TermDict.Entry<Dictionary.Hit>, t: TermDict.Entry<TermPostings>, f: Features, w: EntryBytes)
    requires HitIs(region, h, t, f, w) && Sound(t.value) && f.hasPrx && |t.term| < TWO32
    ensures TermFits(t, w) && Viewable(t, f, w)
  {
    SoundCount(t.value);
    SoundLoadable(region, h.value.frqBase, h.value.entry.locator, t.value, f, w);
  }

  lemma {:induction false} AllFitIn(region: Bytes, hits: seq<TermDict.Entry<Dictionary.Hit>>, ts: seq<TermDict.Entry<TermPostings>>, f: Features, ws: seq<EntryBytes>,
                                  ids: seq<nat>, tokens: seq<Token>, vocab: seq<Bytes>)
    requires HitsAre(region, hits, ts, f, ws) && |ws| == |ts| && AllTermsOut(ts, ids, tokens, vocab) && ShortTerms(vocab) && f.hasPrx
    ensures TermsFit(ts, ws) && AllViewable(ts, f, ws)
  {
    forall i: nat | i < |ts| ensures TermFits(ts[i], ws[i]) && Viewable(ts[i], f, ws[i]) {
      assert HitIs(region, hits[i], ts[i], f, ws[i]);
      assert ts[i].term == vocab[ids[i]];
      OneFits(region, hits[i], ts[i], f, ws[i]);
    }
  }

  lemma {:induction false} HitsSorted(region: Bytes, hits: seq<TermDict.Entry<Dictionary.Hit>>, ts: seq<TermDict.Entry<TermPostings>>, f: Features, ws: seq<EntryBytes>)
    requires HitsAre(region, hits, ts, f, ws) && |ws| == |ts| && SortedTerms(ts)
    ensures SortedTerms(hits)
  {
    forall i, j | 0 <= i < j < |hits| ensures Less(hits[i].term, hits[j].term) {
      assert HitIs(region, hits[i], ts[i], f, ws[i]) && HitIs(region, hits[j], ts[j], f, ws[j]);
      assert Less(ts[i].term, ts[j].term);
    }
  }

  /** Postings and dictionary, and what they hold. */
  datatype Built = Built(idx: Dictionary.Index, region: Bytes, blocks: seq<DB.Block>)

  /** No dictionary block reaches 2^32 bytes. */
  predicate Compact(bs: seq<DB.Block>) {
    forall k :: 0 <= k < |bs| ==> bs[k].interval > 0 && |DB.Covered(bs[k])| < TWO32
  }

  ghost predicate Holds(b: Built, hash: Bytes -> nat, ts: seq<TermDict.Entry<TermPostings>>, f: Features, ws: seq<EntryBytes>) {
    Segment(b.region, b.blocks, ts, f, ws) && Dictionary.Built(b.idx, b.blocks, hash) && AllViewable(ts, f, ws)
  }

  method WriteIndex(ts: seq<TermDict.Entry<TermPostings>>, norms: seq<byte>, interval: nat, full: seq<D.DictEntry> -> bool, hash: Bytes -> nat, filterBlocks: nat,
                    ghost ids: seq<nat>, ghost tokens: seq<Token>, ghost vocab: seq<Bytes>)
    returns (b: Built, ghost f: Features, ghost ws: seq<EntryBytes>)
    requires AllTermsOut(ts, ids, tokens, vocab) && ShortTerms(vocab) && interval > 0
    ensures Compact(b.blocks) && |b.region| < TWO64 ==> Holds(b, hash, ts, f, ws)
  {
    var features := Features(true, true, norms);
    f := features;
    SoundTerms(ts, ids, tokens, vocab, f);
    var blocks, region;
    blocks, region, ws := WriteTerms(ts, features, interval, full);
    ghost var hits := Dictionary.AllHits(blocks.value, 0, |blocks.value|);
    HitsSorted(region, hits, ts, f, ws);
    AllFitIn(region, hits, ts, f, ws, ids, tokens, vocab);
    var idx := Dictionary.BuildIndex(blocks.value, true, true, hash, filterBlocks);
    b := Built(idx, region, blocks.value);
    if Compact(b.blocks) && |b.region| < TWO64 {
      SegmentCarried(region, b.blocks, ts, f, ws);
    }
  }

  /** Tokens in, a file out: for every spill schedule, block cut and filter size, and wherever
      the posting region lands in the file. */
  method IndexTokens(vocab: seq<Bytes>, tokens: seq<Token>, gates: seq<bool>, unit: nat, norms: seq<byte>, interval: nat,
                     full: seq<D.DictEntry> -> bool, hash: Bytes -> nat, filterBlocks: nat, head: Bytes, tail: Bytes)
    returns (b: Built, file: Bytes, ghost c: Contents)
    requires Distinct(vocab) && ShortTerms(vocab) && Indexable(tokens, |vocab|) && |gates| == |tokens| && unit > 0 && interval > 0
    ensures |file| < TWO64 && Compact(b.blocks) ==> Answers(b, file, |head|, tail, hash, c, tokens, vocab)
  {
    forall t | t in tokens ensures t.term < |vocab| && t.docid < TWO32 && t.pos < TWO32 {
      assert TokenOk(t, |vocab|);
    }
    var r;
    ghost var order, rank, cuts;
    r, order, rank, cuts := Accumulated(vocab, tokens, gates, unit);
    var es := r.value;
    StreamEmits(vocab, order, rank, tokens);
    var ts := NameAll(es, vocab);
    ghost var ids := IdsOf(es);
    ghost var f, ws;
    b, f, ws := WriteIndex(ts, norms, interval, full, hash, filterBlocks, ids, tokens, vocab);
    file := head + (b.region + tail);
    c := Contents(ts, f, ws, ids);
    assert file[..|head|] == head;
  }

  /** What an index was built from. */
  datatype Contents = Contents(ts: seq<TermDict.Entry<TermPostings>>, f: Features, ws: seq<EntryBytes>, ids: seq<nat>)

  /** The index and its file answer for these tokens. */
  ghost predicate Answers(b: Built, file: Bytes, regionOff: nat, tail: Bytes, hash: Bytes -> nat, c: Contents, tokens: seq<Token>, vocab: seq<Bytes>) {
    && Holds(b, hash, c.ts, c.f, c.ws) && AllTermsOut(c.ts, c.ids, tokens, vocab) && Distinct(vocab)
    && |file| < TWO64 && regionOff <= |file| && file == file[..regionOff] + (b.region + tail)
  }

  lemma {:induction false} AnswersOnDisk(b: Built, file: Bytes, regionOff: nat, tail: Bytes, hash: Bytes -> nat, c: Contents, tokens: seq<Token>, vocab: seq<Bytes>)
    requires Answers(b, file, regionOff, tail, hash, c, tokens, vocab)
    ensures SegmentOnDisk(b.idx, hash, file, regionOff, b.region, b.blocks, c.ts, c.f, c.ws) && SortedTerms(c.ts)
    ensures Indexed(c.ts, c.f, c.ws, c.ids, tokens, vocab)
  {
    StoredIn(file[..regionOff], b.region, tail);
    assert file[..regionOff] + b.region + tail == file;
  }

  /** From tokens to bytes to answer: the documents returned are exactly those in which the
      phrase was fed. Only a file of 2^64 bytes or a dictionary block of 2^32 is out of reach. */
  method IndexThenPhrase(vocab: seq<Bytes>, tokens: seq<Token>, gates: seq<bool>, unit: nat, norms: seq<byte>, interval: nat,
                         full: seq<D.DictEntry> -> bool, hash: Bytes -> nat, filterBlocks: nat, head: Bytes, tail: Bytes,
                         terms: seq<Bytes>, inflate: Inflate)
    returns (r: Result<seq<nat>>, file: Bytes, blocks: seq<DB.Block>)
    requires Distinct(vocab) && ShortTerms(vocab) && Indexable(tokens, |vocab|) && |gates| == |tokens|
    requires unit > 0 && interval > 0
    ensures |file| < TWO64 && Compact(blocks) && |terms| < MAX32 ==> r.Ok?
    ensures r.Ok? && terms == [] ==> r.value == []
    ensures r.Ok? && terms != [] ==> Ascending(r.value) && forall d :: d in r.value <==> PhraseInTokens(tokens, vocab, terms, d)
  {
    var b;
    ghost var c;
    b, file, c := IndexTokens(vocab, tokens, gates, unit, norms, interval, full, hash, filterBlocks, head, tail);
    blocks := b.blocks;
    if |file| >= TWO64 || !Compact(blocks) {
      r := Error(InvalidArgument("index too large"));
      return;
    }
    AnswersOnDisk(b, file, |head|, tail, hash, c, tokens, vocab);
    r := PhraseOnDisk(b.idx, hash, file, |head|, terms, inflate, b.region, b.blocks, c.ts, c.f, c.ws);
    forall d ensures Q.MatchesPhrase(Q.Index(View(c.ts, c.f, c.ws), true), terms, d) <==> PhraseInTokens(tokens, vocab, terms, d) {
      PhraseMeans(c.ts, c.f, c.ws, c.ids, tokens, vocab, terms, d);
    }
  }

  /** The same for a wildcard: exactly the documents in which a matching term was fed. */
  method IndexThenWildcard(vocab: seq<Bytes>, tokens: seq<Token>, gates: seq<bool>, unit: nat, norms: seq<byte>, interval: nat,
                           full: seq<D.DictEntry> -> bool, hash: Bytes -> nat, filterBlocks: nat, head: Bytes, tail: Bytes,
                           pattern: Bytes, inflate: Inflate)
    returns (r: Result<seq<nat>>, file: Bytes, blocks: seq<DB.Block>)
    requires Distinct(vocab) && ShortTerms(vocab) && Indexable(tokens, |vocab|) && |gates| == |tokens| && unit > 0 && interval > 0
    ensures |file| < TWO64 && Compact(blocks) ==> r.Ok?
    ensures r.Ok? ==> Ascending(r.value) && forall d :: d in r.value <==> WildcardInTokens(tokens, vocab, pattern, d)
  {
    var b;
    ghost var c;
    b, file, c := IndexTokens(vocab, tokens, gates, unit, norms, interval, full, hash, filterBlocks, head, tail);
    blocks := b.blocks;
    if |file| >= TWO64 || !Compact(blocks) {
      r := Error(InvalidArgument("index too large"));
      return;
    }
    AnswersOnDisk(b, file, |head|, tail, hash, c, tokens, vocab);
    var docids := WildcardOnDisk(b.idx, hash, file, |head|, pattern, inflate, b.region, b.blocks, c.ts, c.f, c.ws);
    forall d ensures Wildcard.MatchesWildcard(Q.Index(View(c.ts, c.f, c.ws), true), pattern, d) <==> WildcardInTokens(tokens, vocab, pattern, d) {
      WildcardMeans(c.ts, c.f, c.ws, c.ids, tokens, vocab, pattern, d);
    }
    r := Ok(docids);
  }
}
