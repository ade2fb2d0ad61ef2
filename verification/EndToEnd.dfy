/** The whole way: tokens into the accumulator, spilled at any points, merged, written as a
    segment, looked up and read back, and a phrase matched. The answer is about the tokens. */
module EndToEnd {
  import opened Common
  import opened TermOrder
  import opened TermDict
  import opened PrxWindows
  import opened SpimiSpec
  import opened FlatPostings
  import opened WindowedLayout
  import opened SlimEntries
  import opened DiskPostings
  import opened SegmentReader
  import opened TokenPostings
  import P = PositionalPostings
  import Q = PhraseQuery
  import Wildcard
  import S = Postings

  // ----- phrases in the token feed

  ghost predicate OccursAs(tokens: seq<Token>, vocab: seq<Bytes>, t: Bytes, d: nat, q: nat, id: nat) {
    id < |vocab| && vocab[id] == t && Token(id, d, q) in tokens
  }

  /** Term `t` was fed at position `q` of document `d`. */
  ghost predicate Occurs(tokens: seq<Token>, vocab: seq<Bytes>, t: Bytes, d: nat, q: nat) {
    exists id: nat :: OccursAs(tokens, vocab, t, d, q, id)
  }

  ghost predicate PhraseFrom(tokens: seq<Token>, vocab: seq<Bytes>, terms: seq<Bytes>, d: nat, p: nat) {
    forall k: nat {:trigger terms[k]} :: k < |terms| ==> Occurs(tokens, vocab, terms[k], d, p + k)
  }

  ghost predicate PhraseInTokens(tokens: seq<Token>, vocab: seq<Bytes>, terms: seq<Bytes>, d: nat) {
    exists p: nat :: PhraseFrom(tokens, vocab, terms, d, p)
  }

  // ----- the terms the stream hands to the writer

  function Named(e: SpimiSpec.Entry, vocab: seq<Bytes>): TermDict.Entry<TermPostings>
    requires e.term < |vocab|
  {
    TermDict.Entry(vocab[e.term], e.postings)
  }

  predicate InVocab(es: seq<SpimiSpec.Entry>, vocab: seq<Bytes>) {
    forall i :: 0 <= i < |es| ==> es[i].term < |vocab|
  }

  function NameAll(es: seq<SpimiSpec.Entry>, vocab: seq<Bytes>): (r: seq<TermDict.Entry<TermPostings>>)
    requires InVocab(es, vocab)
    ensures |r| == |es| && forall i: nat {:trigger r[i]} :: i < |es| ==> r[i] == Named(es[i], vocab)
  {
    seq(|es|, i requires 0 <= i < |es| => Named(es[i], vocab))
  }

  /** One emitted term: sound postings that mean the term's tokens. */
  ghost predicate TermMeans(t: TermDict.Entry<TermPostings>, tokens: seq<Token>, id: nat) {
    exists g {:trigger S.Canonical(g, TokensOf(tokens, id))} :: S.Canonical(g, TokensOf(tokens, id)) && t.value == FlatOf(g, true)
  }

  /** Entry `i` is its id's term with sound postings that mean the id's tokens. */
  ghost predicate TermOut(t: TermDict.Entry<TermPostings>, tokens: seq<Token>, vocab: seq<Bytes>, id: nat) {
    id < |vocab| && t.term == vocab[id] && TermMeans(t, tokens, id) && Sound(t.value)
  }

  /** The list of terms: in order, sound, exactly those seen. */
  ghost predicate AllTermsOut(ts: seq<TermDict.Entry<TermPostings>>, ids: seq<nat>, tokens: seq<Token>, vocab: seq<Bytes>) {
    && |ids| == |ts| && SortedTerms(ts)
    && (forall i: nat {:trigger ts[i]} :: i < |ts| ==> TermOut(ts[i], tokens, vocab, ids[i]))
    && (forall id: nat {:trigger TokensOf(tokens, id)} :: id < |vocab| && TokensOf(tokens, id) != [] ==> id in ids)
  }

  ghost function IdsOf(es: seq<SpimiSpec.Entry>): (r: seq<nat>)
    ensures |r| == |es| && forall i: nat {:trigger r[i]} :: i < |es| ==> r[i] == es[i].term
  {
    seq(|es|, i requires 0 <= i < |es| => es[i].term)
  }

  lemma {:induction false} StreamEmits(vocab: seq<Bytes>, order: seq<nat>, rank: seq<nat>, tokens: seq<Token>)
    requires RankTable(vocab, order, rank) && Indexable(tokens, |vocab|)
    ensures var es := Stream(order, [tokens], true); InVocab(es, vocab) && AllTermsOut(NameAll(es, vocab), IdsOf(es), tokens, vocab)
  {
    var es := Stream(order, [tokens], true);
    OneFill(tokens, 0);
    StreamMeaning(vocab, order, rank, [tokens], true);
    NamedSorted(es, vocab);
    NamedSound(es, tokens, vocab);
    AllListed(es, tokens, vocab);
  }

  lemma {:induction false} NamedSorted(es: seq<SpimiSpec.Entry>, vocab: seq<Bytes>)
    requires InVocab(es, vocab) && forall i, j :: 0 <= i < j < |es| ==> Less(vocab[es[i].term], vocab[es[j].term])
    ensures SortedTerms(NameAll(es, vocab))
  {
    var ts := NameAll(es, vocab);
    forall i, j | 0 <= i < j < |ts| ensures Less(ts[i].term, ts[j].term) {
      assert ts[i] == Named(es[i], vocab) && ts[j] == Named(es[j], vocab);
    }
  }

  lemma {:induction false} NamedSound(es: seq<SpimiSpec.Entry>, tokens: seq<Token>, vocab: seq<Bytes>)
    requires InVocab(es, vocab) && Indexable(tokens, |vocab|) && forall i :: 0 <= i < |es| ==> Means(es[i], tokens, true)
    ensures var ts := NameAll(es, vocab); forall i: nat {:trigger ts[i]} :: i < |ts| ==> TermOut(ts[i], tokens, vocab, IdsOf(es)[i])
  {
    var ts := NameAll(es, vocab);
    forall i: nat | i < |ts| ensures TermOut(ts[i], tokens, vocab, IdsOf(es)[i]) {
      assert ts[i] == Named(es[i], vocab);
      EntrySound(es[i], tokens, vocab);
    }
  }

  lemma {:induction false} AllListed(es: seq<SpimiSpec.Entry>, tokens: seq<Token>, vocab: seq<Bytes>)
    requires forall id: nat :: id < |vocab| ==> (Emits(es, id) <==> TokensOf(tokens, id) != [])
    ensures forall id: nat {:trigger TokensOf(tokens, id)} :: id < |vocab| && TokensOf(tokens, id) != [] ==> id in IdsOf(es)
  {
    forall id: nat | id < |vocab| && TokensOf(tokens, id) != [] ensures id in IdsOf(es) {
      EmittedListed(es, id);
    }
  }

  lemma {:induction false} EntrySound(e: SpimiSpec.Entry, tokens: seq<Token>, vocab: seq<Bytes>)
    requires Indexable(tokens, |vocab|) && e.term < |vocab| && Means(e, tokens, true)
    ensures TermMeans(Named(e, vocab), tokens, e.term) && Sound(e.postings)
  {
    var g :| S.Canonical(g, TokensOf(tokens, e.term)) && e.postings == FlatOf(g, true);
    OrderlySound(g, tokens, |vocab|, e.term);
  }

  lemma {:induction false} EmittedListed(es: seq<SpimiSpec.Entry>, id: nat)
    requires Emits(es, id)
    ensures id in IdsOf(es)
  {
    var i :| 0 <= i < |es| && es[i].term == id;
    assert IdsOf(es)[i] == id;
  }

  // ----- what a query on the view says about the tokens

  /** The view of one term: document by document, the fed positions. */
  lemma {:induction false} ViewPositions(t: TermDict.Entry<TermPostings>, f: Features, w: EntryBytes, tokens: seq<Token>, id: nat, d: nat, q: nat)
    requires Viewable(t, f, w) && TermMeans(t, tokens, id)
    ensures q in P.PositionsAt(P.Chunks(ViewOf(t, f, w).value), d) <==> Token(id, d, q) in tokens
  {
    var g :| S.Canonical(g, TokensOf(tokens, id)) && t.value == FlatOf(g, true);
    AtPosition(tokens, id, d, q);
    var cs := P.Chunks(ViewOf(t, f, w).value);
    if S.PositionsAt(TokensOf(tokens, id), d) != [] {
      assert S.Doc(d, S.PositionsAt(TokensOf(tokens, id), d)) in g;
      var i :| 0 <= i < |g| && g[i] == S.Doc(d, S.PositionsAt(TokensOf(tokens, id), d));
      FlatLists(g, i);
      ViewMeans(t, f, w, i);
    } else if P.Has(cs, d) {
      ViewOnly(t, f, w, d);
      ListedSeen(g, TokensOf(tokens, id), d);
    }
  }

  lemma {:induction false} ListedSeen(g: seq<S.Doc>, ts: seq<S.Tok>, d: nat)
    requires S.Canonical(g, ts) && d in FlatOf(g, true).docids
    ensures S.PositionsAt(ts, d) != []
  {
    var i :| 0 <= i < |g| && FlatOf(g, true).docids[i] == d;
    assert g[i] in g;
  }

  /** Document `i` of the posting, through the view. */
  lemma {:induction false} ViewMeans(t: TermDict.Entry<TermPostings>, f: Features, w: EntryBytes, i: nat)
    requires Viewable(t, f, w) && i < |t.value.docids|
    ensures P.PositionsAt(P.Chunks(ViewOf(t, f, w).value), t.value.docids[i]) == Lists(t.value.positions, t.value.freqs)[i]
  {
    match w
    case AsWindows(ms, c) => DiskPostingMeans(t.value, i);
    case AsSlim(_) =>
      SlimPostingValid(t.value);
      var cs := P.Chunks(ViewOf(t, f, w).value);
      assert P.Located(cs, t.value.docids[i], 0, i);
      P.PositionsWhere(cs, t.value.docids[i], 0, i);
  }

  lemma {:induction false} ViewOnly(t: TermDict.Entry<TermPostings>, f: Features, w: EntryBytes, d: nat)
    requires Viewable(t, f, w) && P.Has(P.Chunks(ViewOf(t, f, w).value), d)
    ensures d in t.value.docids
  {
    match w
    case AsWindows(ms, c) => DiskPostingOnly(t.value, d);
    case AsSlim(_) =>
      var i: nat, j: nat :| P.Located(P.Chunks(ViewOf(t, f, w).value), d, i, j);
  }

  /** The segment a feed became, as its queries see it. */
  ghost predicate Indexed(ts: seq<TermDict.Entry<TermPostings>>, f: Features, ws: seq<EntryBytes>, ids: seq<nat>, tokens: seq<Token>, vocab: seq<Bytes>) {
    AllViewable(ts, f, ws) && AllTermsOut(ts, ids, tokens, vocab) && Distinct(vocab)
  }

  lemma {:induction false} ViewSorted(ts: seq<TermDict.Entry<TermPostings>>, f: Features, ws: seq<EntryBytes>)
    requires AllViewable(ts, f, ws) && SortedTerms(ts)
    ensures SortedTerms(View(ts, f, ws))
  {
    var dict := View(ts, f, ws);
    forall i, j | 0 <= i < j < |dict| ensures Less(dict[i].term, dict[j].term) {
      assert Less(ts[i].term, ts[j].term);
    }
  }

  ghost predicate FoundAt(dict: seq<TermDict.Entry<P.Posting>>, t: Bytes, d: nat, q: nat) {
    var p := Find(dict, t);
    p.Some? && q in P.PositionsAt(P.Chunks(p.value), d)
  }

  /** A term is found exactly when it was fed, and where it stands is where it was fed. */
  lemma {:induction false} TermView(ts: seq<TermDict.Entry<TermPostings>>, f: Features, ws: seq<EntryBytes>, ids: seq<nat>, tokens: seq<Token>, vocab: seq<Bytes>, t: Bytes, d: nat, q: nat)
    requires Indexed(ts, f, ws, ids, tokens, vocab)
    ensures Occurs(tokens, vocab, t, d, q) <==> FoundAt(View(ts, f, ws), t, d, q)
  {
    var dict := View(ts, f, ws);
    var p := Find(dict, t);
    ViewSorted(ts, f, ws);
    if p.Some? {
      FindIsEntry(dict, t);
      var i :| 0 <= i < |dict| && dict[i] == TermDict.Entry(t, p.value);
      assert ts[i].term == vocab[ids[i]];
      ViewPositions(ts[i], f, ws[i], tokens, ids[i], d, q);
      SameId(tokens, vocab, t, d, q, ids[i]);
    }
    if Occurs(tokens, vocab, t, d, q) {
      var id: nat :| OccursAs(tokens, vocab, t, d, q, id);
      var i := FedTerm(ts, ids, tokens, vocab, id, d, q);
      FindAt(dict, i);
    }
  }

  lemma {:induction false} SameId(tokens: seq<Token>, vocab: seq<Bytes>, t: Bytes, d: nat, q: nat, id: nat)
    requires Distinct(vocab) && id < |vocab| && vocab[id] == t
    ensures Occurs(tokens, vocab, t, d, q) <==> Token(id, d, q) in tokens
  {
    if Token(id, d, q) in tokens {
      assert OccursAs(tokens, vocab, t, d, q, id);
    }
  }

  /** A fed term is in the list. */
  lemma {:induction false} FedTerm(ts: seq<TermDict.Entry<TermPostings>>, ids: seq<nat>, tokens: seq<Token>, vocab: seq<Bytes>, id: nat, d: nat, q: nat) returns (i: nat)
    requires AllTermsOut(ts, ids, tokens, vocab) && id < |vocab| && Token(id, d, q) in tokens
    ensures i < |ts| && ids[i] == id && ts[i].term == vocab[id] && TermMeans(ts[i], tokens, id)
  {
    TokMember(tokens, id, S.Tok(d, q));
    assert TokensOf(tokens, id) != [];
    i :| i < |ids| && ids[i] == id;
    assert ts[i].term == vocab[ids[i]];
  }

  // ----- resolving a phrase

  lemma {:induction false} ResolveAt(dict: seq<TermDict.Entry<P.Posting>>, terms: seq<Bytes>, k: nat)
    requires Q.Resolve(dict, terms).Some? && k < |terms|
    ensures Find(dict, terms[k]) == Some(Q.Resolve(dict, terms).value[k])
  {
    if k < |terms| - 1 {
      ResolveAt(dict, terms[..|terms| - 1], k);
    }
  }

  lemma {:induction false} ResolveAll(dict: seq<TermDict.Entry<P.Posting>>, terms: seq<Bytes>)
    requires forall k: nat {:trigger terms[k]} :: k < |terms| ==> Find(dict, terms[k]).Some?
    ensures Q.Resolve(dict, terms).Some?
  {
    if terms != [] {
      var init := terms[..|terms| - 1];
      forall k: nat | k < |init| ensures Find(dict, init[k]).Some? {
        assert Find(dict, terms[k]).Some?;
      }
      ResolveAll(dict, init);
      assert Find(dict, terms[|terms| - 1]).Some?;
    }
  }

  lemma {:induction false} StartsByTerm(dict: seq<TermDict.Entry<P.Posting>>, terms: seq<Bytes>, d: nat, p: nat)
    requires Q.Resolve(dict, terms).Some?
    ensures P.StartsAt(Q.Resolve(dict, terms).value, d, p) <==> AllFound(dict, terms, d, p)
  {
    var ps := Q.Resolve(dict, terms).value;
    forall k: nat | k < |terms| ensures Find(dict, terms[k]) == Some(ps[k]) {
      ResolveAt(dict, terms, k);
    }
    if P.StartsAt(ps, d, p) {
      forall k: nat | k < |terms| ensures FoundAt(dict, terms[k], d, p + k) {
        assert p + k in P.PositionsAt(P.Chunks(ps[k]), d);
      }
    }
    if AllFound(dict, terms, d, p) {
      forall k | 0 <= k < |ps| ensures p + k in P.PositionsAt(P.Chunks(ps[k]), d) {
        assert FoundAt(dict, terms[k], d, p + k);
      }
    }
  }

  ghost predicate AllFound(dict: seq<TermDict.Entry<P.Posting>>, terms: seq<Bytes>, d: nat, p: nat) {
    forall k: nat {:trigger terms[k]} :: k < |terms| ==> FoundAt(dict, terms[k], d, p + k)
  }

  lemma {:induction false} FoundStarts(dict: seq<TermDict.Entry<P.Posting>>, terms: seq<Bytes>, d: nat, p: nat)
    ensures var r := Q.Resolve(dict, terms); AllFound(dict, terms, d, p) <==> r.Some? && P.StartsAt(r.value, d, p)
  {
    if AllFound(dict, terms, d, p) {
      ResolveAll(dict, terms);
    }
    if Q.Resolve(dict, terms).Some? {
      StartsByTerm(dict, terms, d, p);
    }
  }

  lemma {:induction false} StartMeans(ts: seq<TermDict.Entry<TermPostings>>, f: Features, ws: seq<EntryBytes>, ids: seq<nat>, tokens: seq<Token>, vocab: seq<Bytes>, terms: seq<Bytes>, d: nat, p: nat)
    requires Indexed(ts, f, ws, ids, tokens, vocab)
    ensures PhraseFrom(tokens, vocab, terms, d, p) <==> AllFound(View(ts, f, ws), terms, d, p)
  {
    forall k: nat | k < |terms| ensures Occurs(tokens, vocab, terms[k], d, p + k) <==> FoundAt(View(ts, f, ws), terms[k], d, p + k) {
      TermView(ts, f, ws, ids, tokens, vocab, terms[k], d, p + k);
    }
  }

  /** A phrase matches in the index exactly where it was fed. */
  lemma {:induction false} PhraseMeans(ts: seq<TermDict.Entry<TermPostings>>, f: Features, ws: seq<EntryBytes>, ids: seq<nat>, tokens: seq<Token>, vocab: seq<Bytes>, terms: seq<Bytes>, d: nat)
    requires Indexed(ts, f, ws, ids, tokens, vocab)
    ensures Q.MatchesPhrase(Q.Index(View(ts, f, ws), true), terms, d) <==> PhraseInTokens(tokens, vocab, terms, d)
  {
    var r := Q.Resolve(View(ts, f, ws), terms);
    if r.Some? && P.PhraseIn(r.value, d) {
      var p: nat :| P.StartsAt(r.value, d, p);
      StartMeans(ts, f, ws, ids, tokens, vocab, terms, d, p);
      FoundStarts(View(ts, f, ws), terms, d, p);
    }
    if PhraseInTokens(tokens, vocab, terms, d) {
      var p: nat :| PhraseFrom(tokens, vocab, terms, d, p);
      StartMeans(ts, f, ws, ids, tokens, vocab, terms, d, p);
      FoundStarts(View(ts, f, ws), terms, d, p);
    }
  }

  // ----- wildcards

  ghost predicate FedMatch(tokens: seq<Token>, vocab: seq<Bytes>, pattern: Bytes, d: nat, q: nat, id: nat) {
    id < |vocab| && Wildcard.Matches(pattern, vocab[id]) && Token(id, d, q) in tokens
  }

  /** Some term the pattern matches was fed in document `d`. */
  ghost predicate WildcardInTokens(tokens: seq<Token>, vocab: seq<Bytes>, pattern: Bytes, d: nat) {
    exists q: nat, id: nat :: FedMatch(tokens, vocab, pattern, d, q, id)
  }

  /** A listed document has a fed position. */
  lemma {:induction false} ViewHas(t: TermDict.Entry<TermPostings>, f: Features, w: EntryBytes, tokens: seq<Token>, id: nat, d: nat) returns (q: nat)
    requires Viewable(t, f, w) && TermMeans(t, tokens, id) && P.Has(P.Chunks(ViewOf(t, f, w).value), d)
    ensures Token(id, d, q) in tokens
  {
    var g :| S.Canonical(g, TokensOf(tokens, id)) && t.value == FlatOf(g, true);
    ViewOnly(t, f, w, d);
    ListedSeen(g, TokensOf(tokens, id), d);
    q := S.PositionsAt(TokensOf(tokens, id), d)[0];
    AtPosition(tokens, id, d, q);
  }

  lemma {:induction false} PositionsMeanHas(cs: seq<P.Chunk>, d: nat)
    requires P.PositionsAt(cs, d) != []
    ensures P.Has(cs, d)
  {
    var i: nat, j: nat :| P.Located(cs, d, i, j) && j < |cs[i].prx|;
  }

  /** A wildcard matches in the index exactly the documents in which a matching term was fed. */
  lemma {:induction false} WildcardMeans(ts: seq<TermDict.Entry<TermPostings>>, f: Features, ws: seq<EntryBytes>, ids: seq<nat>, tokens: seq<Token>, vocab: seq<Bytes>, pattern: Bytes, d: nat)
    requires Indexed(ts, f, ws, ids, tokens, vocab)
    ensures Wildcard.MatchesWildcard(Q.Index(View(ts, f, ws), true), pattern, d) <==> WildcardInTokens(tokens, vocab, pattern, d)
  {
    if Wildcard.MatchesWildcard(Q.Index(View(ts, f, ws), true), pattern, d) {
      MatchWasFed(ts, f, ws, ids, tokens, vocab, pattern, d);
    }
    if WildcardInTokens(tokens, vocab, pattern, d) {
      FedIsMatched(ts, f, ws, ids, tokens, vocab, pattern, d);
    }
  }

  lemma {:induction false} MatchWasFed(ts: seq<TermDict.Entry<TermPostings>>, f: Features, ws: seq<EntryBytes>, ids: seq<nat>, tokens: seq<Token>, vocab: seq<Bytes>, pattern: Bytes, d: nat)
    requires Indexed(ts, f, ws, ids, tokens, vocab) && Wildcard.MatchesWildcard(Q.Index(View(ts, f, ws), true), pattern, d)
    ensures WildcardInTokens(tokens, vocab, pattern, d)
  {
    var dict := View(ts, f, ws);
    var e :| e in dict && Wildcard.Matches(pattern, e.term) && P.Has(P.Chunks(e.value), d);
    var i :| 0 <= i < |dict| && dict[i] == e;
    assert ts[i].term == vocab[ids[i]];
    var q := ViewHas(ts[i], f, ws[i], tokens, ids[i], d);
    assert FedMatch(tokens, vocab, pattern, d, q, ids[i]);
  }

  lemma {:induction false} FedIsMatched(ts: seq<TermDict.Entry<TermPostings>>, f: Features, ws: seq<EntryBytes>, ids: seq<nat>, tokens: seq<Token>, vocab: seq<Bytes>, pattern: Bytes, d: nat)
    requires Indexed(ts, f, ws, ids, tokens, vocab) && WildcardInTokens(tokens, vocab, pattern, d)
    ensures Wildcard.MatchesWildcard(Q.Index(View(ts, f, ws), true), pattern, d)
  {
    var dict := View(ts, f, ws);
    var q: nat, id: nat :| FedMatch(tokens, vocab, pattern, d, q, id);
    var i := FedTerm(ts, ids, tokens, vocab, id, d, q);
    ViewPositions(ts[i], f, ws[i], tokens, id, d, q);
    PositionsMeanHas(P.Chunks(dict[i].value), d);
    assert dict[i] in dict;
  }
}
