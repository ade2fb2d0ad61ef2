/** From tokens to postings: what a term's arrays say about the token feed, and that an
    orderly feed yields postings every later stage accepts. */
module TokenPostings {
  import opened Common
  import opened DocidSets
  import opened Pfor
  import opened FrqRegions
  import opened PrxWindows
  import opened PrxSizes
  import opened SpimiSpec
  import opened FlatPostings
  import opened WindowedLayout
  import opened WindowedWriter
  import opened WindowedReader
  import opened WindowedRoundTrip
  import opened SlimEntries
  import opened PostingLoader
  import S = Postings
  import Wand
  import WindowRows
  import TermChain

  // ----- tokens and position lists

  lemma {:induction false} TokMember(tokens: seq<Token>, id: nat, x: S.Tok)
    ensures x in TokensOf(tokens, id) <==> Token(id, x.docid, x.pos) in tokens
  {
    if tokens != [] {
      var init, last := tokens[..|tokens| - 1], tokens[|tokens| - 1];
      TokMember(init, id, x);
      assert tokens == init + [last];
    }
  }

  lemma {:induction false} PosMember(ts: seq<S.Tok>, d: nat, q: nat)
    ensures q in S.PositionsAt(ts, d) <==> S.Tok(d, q) in ts
  {
    if ts != [] {
      var init, last := ts[..|ts| - 1], ts[|ts| - 1];
      PosMember(init, d, q);
      assert ts == init + [last];
    }
  }

  /** The term stands at position `q` of document `d`. */
  lemma {:induction false} AtPosition(tokens: seq<Token>, id: nat, d: nat, q: nat)
    ensures q in S.PositionsAt(TokensOf(tokens, id), d) <==> Token(id, d, q) in tokens
  {
    PosMember(TokensOf(tokens, id), d, q);
    TokMember(tokens, id, S.Tok(d, q));
  }

  // ----- flat arrays cut back into documents

  lemma {:induction false} FreqSum(g: seq<S.Doc>, k: nat)
    requires k <= |g|
    ensures Sum(FlatOf(g, true).freqs, k) == |AllPositions(g[..k])|
  {
    if k > 0 {
      FreqSum(g, k - 1);
      assert g[..k][..k - 1] == g[..k - 1] && g[..k][k - 1] == g[k - 1];
    } else {
      assert g[..0] == [];
    }
  }

  lemma {:induction false} FlatParted(g: seq<S.Doc>)
    ensures var f := FlatOf(g, true); Parted(f.positions, f.freqs)
  {
    FreqSum(g, |g|);
    assert g[..|g|] == g;
  }

  lemma {:induction false} PositionsCut(g: seq<S.Doc>, i: nat)
    requires i < |g|
    ensures var at := |AllPositions(g[..i])|;
            at + |g[i].poss| == |AllPositions(g[..i + 1])| <= |AllPositions(g)| && AllPositions(g)[at..at + |g[i].poss|] == g[i].poss
  {
    var a, b, c := g[..i], [g[i]], g[i + 1..];
    assert g[..i + 1] == a + b && g == (a + b) + c;
    AllPositionsConcat(a, b);
    AllPositionsConcat(a + b, c);
    assert b[..0] == [] && AllPositions(b) == g[i].poss;
    Middle(AllPositions(a), g[i].poss, AllPositions(c));
  }

  lemma {:induction false} FlatLists(g: seq<S.Doc>, i: nat)
    requires i < |g|
    ensures var f := FlatOf(g, true); Parted(f.positions, f.freqs) && Lists(f.positions, f.freqs)[i] == g[i].poss
  {
    var f := FlatOf(g, true);
    FlatParted(g);
    FreqSum(g, i);
    FreqSum(g, i + 1);
    PositionsCut(g, i);
    assert Lists(f.positions, f.freqs)[i] == ListAt(f.positions, f.freqs, i);
  }

  lemma {:induction false} Middle(a: seq<nat>, b: seq<nat>, c: seq<nat>)
    ensures ((a + b) + c)[|a|..|a| + |b|] == b
  {
  }

  // ----- an orderly feed

  ghost predicate TokenOk(t: Token, vocabSize: nat) {
    t.term < vocabSize && t.docid < Wand.NO_DOC && t.pos < TWO32
  }

  /** The positions of term `id` in document `d` never step back. */
  ghost predicate DocOk(tokens: seq<Token>, id: nat, d: nat) {
    Climbs(S.PositionsAt(TokensOf(tokens, id), d), 0)
  }

  /** What a tokenizer feeds: ids in range, each term's documents in order and, within a
      document, its positions in order. */
  ghost predicate Orderly(tokens: seq<Token>, vocabSize: nat) {
    && (forall t :: t in tokens ==> TokenOk(t, vocabSize))
    && InOrderFeed(tokens)
    && forall id, d {:trigger DocOk(tokens, id, d)} :: DocOk(tokens, id, d)
  }

  lemma {:induction false} DocGood(tokens: seq<Token>, vocabSize: nat, id: nat, d: nat)
    requires Orderly(tokens, vocabSize) && S.PositionsAt(TokensOf(tokens, id), d) != []
    ensures d < Wand.NO_DOC && ListGood(S.PositionsAt(TokensOf(tokens, id), d))
  {
    var qs := S.PositionsAt(TokensOf(tokens, id), d);
    assert DocOk(tokens, id, d);
    forall k | 0 <= k < |qs| ensures qs[k] < TWO32 && d < Wand.NO_DOC {
      AtPosition(tokens, id, d, qs[k]);
      assert qs[k] in qs && TokenOk(Token(id, d, qs[k]), vocabSize);
    }
    assert qs[0] < TWO32;
  }

  // ----- the reader's caps

  /** The postings keep to the reader's cap on positions, window by window. */
  ghost predicate WithinCaps(p: TermPostings) {
    if |p.docids| < TermChain.SLIM_DF then |p.positions| <= MAX_POSITIONS else Capped(p)
  }

  /** The occurrences of term `id` keep to it, in the windows its documents are cut into. */
  ghost predicate TermCapped(tokens: seq<Token>, id: nat) {
    WithinCaps(FlatOf(S.Drained(TokensOf(tokens, id)), true))
  }

  /** A feed every stage takes. */
  ghost predicate Indexable(tokens: seq<Token>, vocabSize: nat) {
    Orderly(tokens, vocabSize) && forall id {:trigger TermCapped(tokens, id)} :: TermCapped(tokens, id)
  }

  // ----- the postings it yields

  ghost predicate Sound(p: TermPostings) {
    && Typed(p) && WindowedLayout.ValidTerm(p, true) && AllGood(Lists(p.positions, p.freqs)) && WithinCaps(p)
    && forall i: nat {:trigger p.docids[i]} :: i < |p.docids| ==> p.docids[i] < Wand.NO_DOC
  }

  lemma {:induction false} EachDocGood(g: seq<S.Doc>, tokens: seq<Token>, vocabSize: nat, id: nat, i: nat)
    requires Orderly(tokens, vocabSize) && S.Canonical(g, TokensOf(tokens, id)) && i < |g|
    ensures g[i].docid < Wand.NO_DOC && ListGood(g[i].poss)
  {
    assert g[i] in g;
    DocGood(tokens, vocabSize, id, g[i].docid);
  }

  lemma {:induction false} AllPositionsValues(g: seq<S.Doc>, k: nat)
    requires k <= |g| && forall i: nat {:trigger g[i]} :: i < |g| ==> ListGood(g[i].poss)
    ensures Values(AllPositions(g[..k]))
  {
    if k > 0 {
      AllPositionsValues(g, k - 1);
      assert g[..k][..k - 1] == g[..k - 1] && ListGood(g[k - 1].poss);
    }
  }

  /** No document repeats the term more often than a window may hold. */
  lemma {:induction false} InWindow(p: TermPostings, w: nat, i: nat)
    requires Capped(p) && w < Windows(p) && i < To(p, w) && i < |p.freqs|
    ensures p.freqs[i] <= MAX_POSITIONS
  {
    Cuts(p, w);
    if i >= From(p, w) {
      assert CappedAt(p, w);
      SumMono(p.freqs, From(p, w), i);
      SumMono(p.freqs, i + 1, To(p, w));
    } else {
      ReachedNext(p, w - 1);
      InWindow(p, w - 1, i);
    }
  }

  lemma {:induction false} CappedFreq(p: TermPostings, i: nat)
    requires WithinCaps(p) && Parted(p.positions, p.freqs) && |p.freqs| == |p.docids| && i < |p.freqs|
    ensures p.freqs[i] <= MAX_POSITIONS
  {
    if |p.docids| < TermChain.SLIM_DF {
      SumMono(p.freqs, 0, i);
      SumMono(p.freqs, i + 1, |p.freqs|);
    } else {
      var w := Windows(p) - 1;
      ReachedNext(p, w);
      InWindow(p, w, i);
    }
  }

  lemma {:induction false} FlatTyped(g: seq<S.Doc>)
    requires S.StrictlyAscending(g) && Values(AllPositions(g)) && WithinCaps(FlatOf(g, true))
    requires forall i: nat {:trigger g[i]} :: i < |g| ==> g[i].docid < Wand.NO_DOC
    ensures var p := FlatOf(g, true); Typed(p) && Ascending(p.docids)
  {
    var p := FlatOf(g, true);
    FlatParted(g);
    forall i | 0 <= i < |g| ensures p.docids[i] < TWO32 && p.freqs[i] < TWO32 {
      assert g[i].docid < Wand.NO_DOC;
      CappedFreq(p, i);
    }
  }

  lemma {:induction false} FlatGood(g: seq<S.Doc>)
    requires forall i: nat {:trigger g[i]} :: i < |g| ==> ListGood(g[i].poss)
    ensures var p := FlatOf(g, true); Parted(p.positions, p.freqs) && AllGood(Lists(p.positions, p.freqs)) && Values(p.positions)
  {
    var p := FlatOf(g, true);
    AllPositionsValues(g, |g|);
    assert g[..|g|] == g;
    FlatParted(g);
    var ls := Lists(p.positions, p.freqs);
    forall i: nat | i < |ls| ensures ListGood(ls[i]) {
      FlatLists(g, i);
    }
  }

  /** An indexable feed yields postings every later stage takes. */
  lemma {:induction false} OrderlySound(g: seq<S.Doc>, tokens: seq<Token>, vocabSize: nat, id: nat)
    requires Indexable(tokens, vocabSize) && S.Canonical(g, TokensOf(tokens, id))
    ensures Sound(FlatOf(g, true))
  {
    forall i: nat | i < |g| ensures g[i].docid < Wand.NO_DOC && ListGood(g[i].poss) {
      EachDocGood(g, tokens, vocabSize, id, i);
    }
    S.DrainedCanonical(TokensOf(tokens, id));
    S.CanonicalUnique(g, S.Drained(TokensOf(tokens, id)), TokensOf(tokens, id));
    assert TermCapped(tokens, id);
    FlatGood(g);
    FlatTyped(g);
  }

  // ----- what sound postings meet no cap of

  lemma {:induction false} SumBound(freqs: seq<nat>, k: nat)
    requires Values(freqs) && k <= |freqs|
    ensures Sum(freqs, k) <= TWO32 * k
  {
    if k > 0 {
      SumBound(freqs, k - 1);
    }
  }

  lemma {:induction false} SoundCount(p: TermPostings)
    requires Sound(p)
    ensures |p.docids| < TWO32 && Sum(p.freqs, |p.freqs|) < TWO64
  {
    if p.docids != [] {
      AscendingBounded(p.docids, |p.docids| - 1);
      assert p.docids[|p.docids| - 1] < Wand.NO_DOC;
    }
    SumBound(p.freqs, |p.freqs|);
  }

  lemma {:induction false} SlimLoadable(p: TermPostings, f: Features, s: SlimBytes)
    requires Sound(p) && SlimCoded(p, f, s) && f.hasPrx && |p.docids| < TermChain.SLIM_DF
    ensures Loadable(p, AsSlim(s))
  {
    CountsOfLists(p.positions, p.freqs);
    PackedWithinCap(s.payload, Lists(p.positions, p.freqs));
  }

  lemma {:induction false} WindowsLoadable(p: TermPostings, f: Features, ms: seq<WindowRows.WindowMeta>, c: WindowBytes)
    requires Sound(p) && Laid(p, f, ms, c) && f.hasPrx && |p.docids| >= TermChain.SLIM_DF
    ensures Loadable(p, AsWindows(ms, c))
  {
    CappedFits(p, f, ms, c);
    forall w: nat | w < Windows(p) ensures Accepted(p, c.payloads[w], w) {
      assert FirstRow(p, f, ms[w], c.pxs, c.payloads, w) && CappedAt(p, w);
      CapDecides(p, c.payloads[w], c.pxs[w], w);
    }
  }

  lemma {:induction false} SoundLoadable(region: Bytes, base: nat, loc: Locator, p: TermPostings, f: Features, w: EntryBytes)
    requires Sound(p) && PostingWritten(region, base, loc, p, f, w) && f.hasPrx
    ensures Loadable(p, w)
  {
    match w
    case AsSlim(s) => SlimLoadable(p, f, s);
    case AsWindows(ms, c) => WindowsLoadable(p, f, ms, c);
  }
}
