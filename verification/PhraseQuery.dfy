/** Phrase, phrase-prefix, prefix and AND queries over an index. */
module PhraseQuery {
  import opened Common
  import opened DocidSets
  import opened PositionalPostings
  import opened Conjunction
  import opened PhraseMatch
  import opened TermDict

  datatype Index = Index(dict: seq<Entry<Posting>>, hasPositions: bool)

  ghost predicate ValidIndex(idx: Index) {
    && SortedTerms(idx.dict)
    && forall i {:trigger ValidPosting(idx.dict[i].value)} :: 0 <= i < |idx.dict| ==> ValidPosting(idx.dict[i].value)
  }

  // ----- what the queries mean

  /** The postings of the terms, if every one is in the dictionary. */
  function Resolve(dict: seq<Entry<Posting>>, terms: seq<Bytes>): (r: Option<seq<Posting>>)
    ensures r.Some? ==> |r.value| == |terms|
  {
    if terms == [] then Some([])
    else
      match Find(dict, terms[|terms| - 1])
      case None => None
      case Some(p) =>
        match Resolve(dict, terms[..|terms| - 1])
        case None => None
        case Some(ps) => Some(ps + [p])
  }

  /** Some position p of the document has term k at p + k for every k. */
  ghost predicate MatchesPhrase(idx: Index, terms: seq<Bytes>, d: nat) {
    var r := Resolve(idx.dict, terms);
    r.Some? && PhraseIn(r.value, d)
  }

  ghost predicate MatchesAll(idx: Index, terms: seq<Bytes>, d: nat) {
    var r := Resolve(idx.dict, terms);
    r.Some? && HasAll(r.value, d)
  }

  /** Some dictionary term with the last item as prefix completes the phrase. */
  ghost predicate MatchesPhrasePrefix(idx: Index, terms: seq<Bytes>, d: nat)
    requires terms != []
  {
    exists e :: e in WithPrefix(idx.dict, terms[|terms| - 1]) && MatchesPhrase(idx, terms[..|terms| - 1] + [e.term], d)
  }

  ghost predicate MatchesPrefix(idx: Index, prefix: Bytes, d: nat) {
    exists e :: e in WithPrefix(idx.dict, prefix) && Has(Chunks(e.value), d)
  }

  // ----- resolving terms

  lemma {:induction false} ResolveSnoc(dict: seq<Entry<Posting>>, terms: seq<Bytes>, t: Bytes)
    ensures var r, p := Resolve(dict, terms), Find(dict, t);
            Resolve(dict, terms + [t]) == if r.Some? && p.Some? then Some(r.value + [p.value]) else None
  {
    var all := terms + [t];
    assert all[..|all| - 1] == terms && all[|all| - 1] == t;
  }

  /** A missing term leaves the whole list unresolved. */
  lemma {:induction false} MissingTerm(dict: seq<Entry<Posting>>, terms: seq<Bytes>, n: nat)
    requires n <= |terms| && Resolve(dict, terms[..n]).None?
    ensures Resolve(dict, terms).None?
    decreases |terms| - n
  {
    if n == |terms| {
      assert terms[..n] == terms;
    } else {
      assert terms[..n + 1] == terms[..n] + [terms[n]];
      ResolveSnoc(dict, terms[..n], terms[n]);
      MissingTerm(dict, terms, n + 1);
    }
  }

  lemma {:induction false} FoundIsValid(idx: Index, t: Bytes)
    requires ValidIndex(idx) && Find(idx.dict, t).Some?
    ensures ValidPosting(Find(idx.dict, t).value)
  {
    FindIsEntry(idx.dict, t);
    var i :| 0 <= i < |idx.dict| && idx.dict[i] == Entry(t, Find(idx.dict, t).value);
    assert ValidPosting(idx.dict[i].value);
  }

  method PlanTerms(idx: Index, terms: seq<Bytes>) returns (plans: Option<seq<Posting>>)
    requires ValidIndex(idx)
    ensures plans == Resolve(idx.dict, terms) && (plans.Some? ==> AllValid(plans.value))
  {
    var ps := [];
    for i := 0 to |terms|
      invariant Resolve(idx.dict, terms[..i]) == Some(ps) && AllValid(ps)
    {
      assert terms[..i + 1] == terms[..i] + [terms[i]];
      ResolveSnoc(idx.dict, terms[..i], terms[i]);
      var p := Find(idx.dict, terms[i]);
      if p.None? {
        MissingTerm(idx.dict, terms, i + 1);
        return None;
      }
      FoundIsValid(idx, terms[i]);
      ps := ps + [p.value];
    }
    assert terms[..|terms|] == terms;
    plans := Some(ps);
  }

  // ----- phrase

  /** What the chunks read say about a candidate is what the postings say. */
  lemma {:induction false} SamePhrases(ps: seq<Posting>, srcs: seq<seq<Chunk>>, candidates: seq<nat>, d: nat)
    requires |srcs| == |ps| && d in candidates
    requires forall t {:trigger Chunks(ps[t])} :: 0 <= t < |ps| ==> Retains(srcs[t], Chunks(ps[t]), candidates)
    ensures EachHas(srcs, d)
    ensures forall p: nat :: PhraseOver(srcs, d, p) <==> StartsAt(ps, d, p)
  {
    forall t | 0 <= t < |ps| ensures Has(srcs[t], d) && PositionsAt(srcs[t], d) == PositionsAt(Chunks(ps[t]), d) {
      assert Retains(srcs[t], Chunks(ps[t]), candidates);
    }
    forall p: nat ensures PhraseOver(srcs, d, p) <==> StartsAt(ps, d, p) {
      if PhraseOver(srcs, d, p) {
        forall k | 0 <= k < |ps| ensures p + k in PositionsAt(Chunks(ps[k]), d) {
          assert p + k in PositionsAt(srcs[k], d);
        }
      }
      if StartsAt(ps, d, p) {
        forall k | 0 <= k < |srcs| ensures p + k in PositionsAt(srcs[k], d) {
          assert p + k in PositionsAt(Chunks(ps[k]), d);
        }
      }
    }
  }

  lemma {:induction false} SourcesValid(ps: seq<Posting>, srcs: seq<seq<Chunk>>, candidates: seq<nat>)
    requires |srcs| == |ps|
    requires forall t {:trigger Chunks(ps[t])} :: 0 <= t < |ps| ==> Retains(srcs[t], Chunks(ps[t]), candidates)
    ensures AllChunksValid(srcs)
    ensures forall x :: 0 <= x < |candidates| ==> EachHas(srcs, candidates[x])
  {
    forall t | 0 <= t < |srcs| ensures ValidChunks(srcs[t]) {
      assert Retains(srcs[t], Chunks(ps[t]), candidates);
    }
    forall x | 0 <= x < |candidates| ensures EachHas(srcs, candidates[x]) {
      SamePhrases(ps, srcs, candidates, candidates[x]);
    }
  }

  method ExecutePhrasePlans(ps: seq<Posting>) returns (r: Result<seq<nat>>)
    requires ps != [] && AllValid(ps)
    ensures |ps| < MAX32 ==> r.Ok?
    ensures r.Ok? ==> Ascending(r.value) && forall d :: d in r.value <==> PhraseIn(ps, d)
  {
    var srcs, candidates := BuildConjunction(ps);
    r := MatchCandidates(srcs, candidates, ps);
  }

  /** The candidates of a conjunction in which the phrase occurs, from the chunks it read. */
  method MatchCandidates(srcs: seq<seq<Chunk>>, candidates: seq<nat>, ghost ps: seq<Posting>) returns (r: Result<seq<nat>>)
    requires ps != [] && |srcs| == |ps| && Ascending(candidates) && forall d :: d in candidates <==> HasAll(ps, d)
    requires candidates != [] ==> forall t {:trigger Chunks(ps[t])} :: 0 <= t < |ps| ==> Retains(srcs[t], Chunks(ps[t]), candidates)
    ensures |ps| < MAX32 ==> r.Ok?
    ensures r.Ok? ==> Ascending(r.value) && forall d :: d in r.value <==> PhraseIn(ps, d)
  {
    forall d ensures PhraseIn(ps, d) ==> d in candidates {
      if PhraseIn(ps, d) {
        PhraseNeedsAll(ps, d);
      }
    }
    if candidates == [] {
      return Ok([]);
    }
    var offsets := BuildPositionOffsets(|srcs|);
    if offsets.None? {
      return Error(InvalidArgument("phrase length exceeds doc position range"));
    }
    SourcesValid(ps, srcs, candidates);
    r := EmitPhraseStreaming(srcs, offsets.value, candidates);
    forall d | d in candidates ensures (exists p: nat :: PhraseOver(srcs, d, p)) <==> PhraseIn(ps, d) {
      SamePhrases(ps, srcs, candidates, d);
    }
  }

  /** MATCH_PHRASE. */
  method PhraseQuery(idx: Index, terms: seq<Bytes>) returns (r: Result<seq<nat>>)
    requires ValidIndex(idx)
    ensures terms == [] ==> r == Ok([])
    ensures terms != [] && !idx.hasPositions ==> r.Error?
    ensures terms != [] && idx.hasPositions && |terms| < MAX32 ==> r.Ok?
    ensures terms != [] && r.Ok? ==> Ascending(r.value) && forall d :: d in r.value <==> MatchesPhrase(idx, terms, d)
  {
    if terms == [] {
      return Ok([]);
    }
    if !idx.hasPositions {
      return Error(Unsupported("index has no positions"));
    }
    var plans := PlanTerms(idx, terms);
    if plans.None? {
      return Ok([]);
    }
    r := ExecutePhrasePlans(plans.value);
  }

  /** MATCH all terms, no position constraint. */
  method BooleanAnd(idx: Index, terms: seq<Bytes>) returns (docids: seq<nat>)
    requires ValidIndex(idx)
    ensures terms == [] ==> docids == []
    ensures terms != [] ==> Ascending(docids) && forall d :: d in docids <==> MatchesAll(idx, terms, d)
  {
    if terms == [] {
      return [];
    }
    var plans := PlanTerms(idx, terms);
    if plans.None? {
      return [];
    }
    var srcs;
    srcs, docids := BuildConjunction(plans.value);
  }

  // ----- prefix

  method ReadDocids(p: Posting) returns (docs: seq<nat>)
    requires ValidPosting(p)
    ensures DocsOf(docs, Chunks(p))
  {
    var sub;
    sub, docs := ReadTerm(p, true, []);
    SameDocs(p, sub, docs);
  }

  lemma {:induction false} SameDocs(p: Posting, sub: seq<Chunk>, docs: seq<nat>)
    requires DocsOf(docs, sub) && Serves(p, true, [], sub)
    ensures DocsOf(docs, Chunks(p))
  {
    forall d ensures d in docs <==> Has(Chunks(p), d) {
      assert Kept(sub, Chunks(p), d);
    }
  }

  ghost predicate HitsValid(hits: seq<Entry<Posting>>) {
    forall i {:trigger ValidPosting(hits[i].value)} :: 0 <= i < |hits| ==> ValidPosting(hits[i].value)
  }

  ghost predicate InHits(hits: seq<Entry<Posting>>, d: nat) {
    exists i :: 0 <= i < |hits| && Has(Chunks(hits[i].value), d)
  }

  ghost predicate ListsOf(lists: seq<seq<nat>>, hits: seq<Entry<Posting>>) {
    |lists| == |hits| && forall x {:trigger lists[x]} :: 0 <= x < |hits| ==> DocsOf(lists[x], Chunks(hits[x].value))
  }

  lemma {:induction false} ListsSnoc(lists: seq<seq<nat>>, hits: seq<Entry<Posting>>, i: nat, docs: seq<nat>)
    requires i < |hits| && ListsOf(lists, hits[..i]) && DocsOf(docs, Chunks(hits[i].value))
    ensures ListsOf(lists + [docs], hits[..i + 1])
  {
  }

  /** The union of the terms' documents. */
  method EmitDocidUnion(hits: seq<Entry<Posting>>) returns (docids: seq<nat>)
    requires HitsValid(hits)
    ensures Ascending(docids) && forall d :: d in docids <==> InHits(hits, d)
  {
    var lists: seq<seq<nat>> := [];
    for i := 0 to |hits|
      invariant ListsOf(lists, hits[..i])
    {
      assert ValidPosting(hits[i].value);
      var docs := ReadDocids(hits[i].value);
      ListsSnoc(lists, hits, i, docs);
      lists := lists + [docs];
    }
    assert hits[..|hits|] == hits;
    docids := UnionOfLists(lists, hits);
  }

  method UnionOfLists(lists: seq<seq<nat>>, ghost hits: seq<Entry<Posting>>) returns (docids: seq<nat>)
    requires ListsOf(lists, hits)
    ensures Ascending(docids) && forall d :: d in docids <==> InHits(hits, d)
  {
    docids := UnionSortedMany(lists);
    forall d ensures InSome(lists, d) <==> InHits(hits, d) {
      if InSome(lists, d) {
        var x :| 0 <= x < |lists| && d in lists[x];
        assert Has(Chunks(hits[x].value), d);
      }
      if InHits(hits, d) {
        var x :| 0 <= x < |hits| && Has(Chunks(hits[x].value), d);
        assert d in lists[x];
      }
    }
  }

  /** Every document of every term with the prefix. */
  method PrefixQuery(idx: Index, prefix: Bytes) returns (docids: seq<nat>)
    requires ValidIndex(idx)
    ensures Ascending(docids) && forall d :: d in docids <==> MatchesPrefix(idx, prefix, d)
  {
    var hits := WithPrefix(idx.dict, prefix);
    forall i | 0 <= i < |hits| ensures ValidPosting(hits[i].value) {
      HitValid(idx, prefix, hits[i]);
    }
    docids := EmitDocidUnion(hits);
    forall d ensures InHits(hits, d) <==> MatchesPrefix(idx, prefix, d) {
      if InHits(hits, d) {
        var i :| 0 <= i < |hits| && Has(Chunks(hits[i].value), d);
        assert hits[i] in hits;
      }
    }
  }

  lemma {:induction false} HitValid(idx: Index, prefix: Bytes, e: Entry<Posting>)
    requires ValidIndex(idx) && e in WithPrefix(idx.dict, prefix)
    ensures ValidPosting(e.value) && Find(idx.dict, e.term) == Some(e.value)
  {
    WithPrefixMembers(idx.dict, prefix);
    var j :| 0 <= j < |idx.dict| && idx.dict[j] == e;
    assert ValidPosting(idx.dict[j].value);
    FindAt(idx.dict, j);
  }

  // ----- phrase prefix

  /** Every position `e` lists comes right after an occurrence of the phrase. */
  ghost predicate FollowsPhrase(e: Expected, ps: seq<Posting>) {
    forall q: nat :: q in e.positions ==> |ps| <= q && StartsAt(ps, e.docid, q - |ps|)
  }

  ghost predicate Awaits(es: seq<Expected>, d: nat, q: nat) {
    exists x :: 0 <= x < |es| && es[x].docid == d && q in es[x].positions
  }

  /** The fixed terms' occurrences, each with the position its continuation must take. */
  ghost predicate ExpectedFor(es: seq<Expected>, ps: seq<Posting>) {
    && ByDocid(es)
    && (forall x {:trigger FollowsPhrase(es[x], ps)} :: 0 <= x < |es| ==> FollowsPhrase(es[x], ps))
    && (forall d, p: nat {:trigger StartsAt(ps, d, p)} :: StartsAt(ps, d, p) && p + |ps| <= MAX32 ==> Awaits(es, d, p + |ps|))
  }

  method ExpectedTails(ps: seq<Posting>) returns (r: Result<seq<Expected>>)
    requires ps != [] && AllValid(ps)
    ensures |ps| + 1 < MAX32 ==> r.Ok?
    ensures r.Ok? ==> ExpectedFor(r.value, ps)
  {
    var srcs, candidates := BuildConjunction(ps);
    r := TailsOfCandidates(srcs, candidates, ps);
  }

  /** The positions after each occurrence, from the chunks a conjunction read. */
  method TailsOfCandidates(srcs: seq<seq<Chunk>>, candidates: seq<nat>, ghost ps: seq<Posting>) returns (r: Result<seq<Expected>>)
    requires ps != [] && |srcs| == |ps| && Ascending(candidates) && forall d :: d in candidates <==> HasAll(ps, d)
    requires candidates != [] ==> forall t {:trigger Chunks(ps[t])} :: 0 <= t < |ps| ==> Retains(srcs[t], Chunks(ps[t]), candidates)
    ensures |ps| + 1 < MAX32 ==> r.Ok?
    ensures r.Ok? ==> ExpectedFor(r.value, ps)
  {
    if candidates == [] {
      NoOccurrence(ps, candidates);
      return Ok([]);
    }
    var offsets := BuildPositionOffsets(|srcs| + 1);
    if offsets.None? {
      return Error(InvalidArgument("phrase length exceeds doc position range"));
    }
    SourcesValid(ps, srcs, candidates);
    r := CollectExpectedTailPositions(srcs, offsets.value, candidates);
    ExpectedFromChunks(ps, srcs, candidates, r.value);
  }

  lemma {:induction false} NoOccurrence(ps: seq<Posting>, candidates: seq<nat>)
    requires candidates == [] && forall d :: d in candidates <==> HasAll(ps, d)
    ensures ExpectedFor([], ps)
  {
    forall d, p: nat | StartsAt(ps, d, p) ensures false {
      PhraseNeedsAll(ps, d);
    }
  }

  /** The chunks read stand for the postings on every candidate. */
  ghost predicate ReadFor(ps: seq<Posting>, srcs: seq<seq<Chunk>>, candidates: seq<nat>) {
    && |srcs| == |ps|
    && (forall d :: d in candidates <==> HasAll(ps, d))
    && (forall t {:trigger Chunks(ps[t])} :: 0 <= t < |ps| ==> Retains(srcs[t], Chunks(ps[t]), candidates))
  }

  lemma {:induction false} ExpectedFollows(ps: seq<Posting>, srcs: seq<seq<Chunk>>, candidates: seq<nat>, e: Expected)
    requires ReadFor(ps, srcs, candidates) && ExpectedAt(e, srcs) && e.docid in candidates
    ensures FollowsPhrase(e, ps)
  {
    forall q: nat | q in e.positions ensures |ps| <= q && StartsAt(ps, e.docid, q - |ps|) {
      assert TailIn(srcs, e.docid, q);
      TailFollows(ps, srcs, candidates, e.docid, q);
    }
  }

  lemma {:induction false} TailFollows(ps: seq<Posting>, srcs: seq<seq<Chunk>>, candidates: seq<nat>, d: nat, q: nat)
    requires ReadFor(ps, srcs, candidates) && d in candidates && TailIn(srcs, d, q)
    ensures |ps| <= q && StartsAt(ps, d, q - |ps|)
  {
    SamePhrases(ps, srcs, candidates, d);
  }

  lemma {:induction false} OccurrenceAwaited(ps: seq<Posting>, srcs: seq<seq<Chunk>>, candidates: seq<nat>, es: seq<Expected>,
                                             d: nat, p: nat)
    requires ReadFor(ps, srcs, candidates) && ExpectedList(es, srcs)
    requires forall c :: c in candidates && Continues(srcs, c) ==> Listed(es, c)
    requires StartsAt(ps, d, p) && p + |ps| <= MAX32
    ensures Awaits(es, d, p + |ps|)
  {
    PhraseNeedsAll(ps, d);
    SamePhrases(ps, srcs, candidates, d);
    assert PhraseOver(srcs, d, p) && Continues(srcs, d);
    var x :| 0 <= x < |es| && es[x].docid == d;
    assert p + |ps| - |ps| == p;
    assert ExpectedAt(es[x], srcs) && TailIn(srcs, d, p + |ps|);
  }

  lemma {:induction false} ExpectedFromChunks(ps: seq<Posting>, srcs: seq<seq<Chunk>>, candidates: seq<nat>, es: seq<Expected>)
    requires ReadFor(ps, srcs, candidates) && ExpectedList(es, srcs)
    requires forall x :: 0 <= x < |es| ==> es[x].docid in candidates
    requires forall d :: d in candidates && Continues(srcs, d) ==> Listed(es, d)
    ensures ExpectedFor(es, ps)
  {
    forall x | 0 <= x < |es| ensures FollowsPhrase(es[x], ps) {
      assert ExpectedAt(es[x], srcs);
      ExpectedFollows(ps, srcs, candidates, es[x]);
    }
    forall d, p: nat | StartsAt(ps, d, p) && p + |ps| <= MAX32 ensures Awaits(es, d, p + |ps|) {
      OccurrenceAwaited(ps, srcs, candidates, es, d, p);
    }
  }

  /** The documents in which `tail` continues an occurrence of the fixed terms. */
  method TailMatches(tail: Posting, expected: seq<Expected>, ghost ps: seq<Posting>) returns (r: Result<seq<nat>>)
    requires ValidPosting(tail) && ExpectedFor(expected, ps)
    ensures r.Ok? && Ascending(r.value) && forall d :: d in r.value <==> PhraseIn(ps + [tail], d)
  {
    if expected == [] {
      NothingFollows(tail, ps);
      return Ok([]);
    }
    var srcs, candidates := BuildConjunction([tail]);
    r := TailCandidates(srcs, candidates, expected, tail, ps);
  }

  /** The same from the chunks a conjunction of the tail alone read. */
  method TailCandidates(srcs: seq<seq<Chunk>>, candidates: seq<nat>, expected: seq<Expected>, ghost tail: Posting, ghost ps: seq<Posting>) returns (r: Result<seq<nat>>)
    requires ValidPosting(tail) && ExpectedFor(expected, ps)
    requires |srcs| == 1 && Ascending(candidates) && forall d :: d in candidates <==> HasAll([tail], d)
    requires candidates != [] ==> forall t {:trigger Chunks([tail][t])} :: 0 <= t < 1 ==> Retains(srcs[t], Chunks([tail][t]), candidates)
    ensures r.Ok? && Ascending(r.value) && forall d :: d in r.value <==> PhraseIn(ps + [tail], d)
  {
    forall d ensures SomeTailHit(expected, Chunks(tail), d) <==> PhraseIn(ps + [tail], d) {
      TailHitIsPhrase(tail, expected, ps, d);
    }
    forall d ensures d in candidates <==> Has(Chunks(tail), d) {
      SingleTerm(tail, d);
    }
    if candidates == [] {
      NothingHits(Chunks(tail), expected);
      return Ok([]);
    }
    assert Chunks([tail][0]) == Chunks(tail);
    r := CollectTailMatches(srcs[0], candidates, expected, Chunks(tail));
  }

  lemma {:induction false} NothingFollows(tail: Posting, ps: seq<Posting>)
    requires ValidPosting(tail) && ExpectedFor([], ps)
    ensures forall d :: !PhraseIn(ps + [tail], d)
  {
    forall d ensures !PhraseIn(ps + [tail], d) {
      TailHitIsPhrase(tail, [], ps, d);
    }
  }

  lemma {:induction false} SingleTerm(tail: Posting, d: nat)
    ensures HasAll([tail], d) <==> Has(Chunks(tail), d)
  {
    assert Chunks([tail][0]) == Chunks(tail);
  }

  lemma {:induction false} NothingHits(cs: seq<Chunk>, es: seq<Expected>)
    requires forall d :: !Has(cs, d)
    ensures forall d :: !SomeTailHit(es, cs, d)
  {
    forall x | 0 <= x < |es| ensures !TailHit(es[x], cs) {
      NoPositions(cs, es[x].docid);
    }
  }

  lemma {:induction false} TailHitIsPhrase(tail: Posting, es: seq<Expected>, ps: seq<Posting>, d: nat)
    requires ValidPosting(tail) && ExpectedFor(es, ps)
    ensures SomeTailHit(es, Chunks(tail), d) <==> PhraseIn(ps + [tail], d)
  {
    if SomeTailHit(es, Chunks(tail), d) {
      HitMakesPhrase(tail, es, ps, d);
    }
    if PhraseIn(ps + [tail], d) {
      PhraseMakesHit(tail, es, ps, d);
    }
  }

  lemma {:induction false} HitMakesPhrase(tail: Posting, es: seq<Expected>, ps: seq<Posting>, d: nat)
    requires ExpectedFor(es, ps) && SomeTailHit(es, Chunks(tail), d)
    ensures PhraseIn(ps + [tail], d)
  {
    var x :| 0 <= x < |es| && es[x].docid == d && TailHit(es[x], Chunks(tail));
    var q :| q in es[x].positions && q in PositionsAt(Chunks(tail), d);
    assert FollowsPhrase(es[x], ps);
    PhraseSnoc(ps, tail, d, q - |ps|);
  }

  lemma {:induction false} PhraseMakesHit(tail: Posting, es: seq<Expected>, ps: seq<Posting>, d: nat)
    requires ValidPosting(tail) && ExpectedFor(es, ps) && PhraseIn(ps + [tail], d)
    ensures SomeTailHit(es, Chunks(tail), d)
  {
    var p: nat :| StartsAt(ps + [tail], d, p);
    PhraseSnoc(ps, tail, d, p);
    PositionsFit(Chunks(tail), d);
    var q := p + |ps|;
    assert Awaits(es, d, q);
    var x :| 0 <= x < |es| && es[x].docid == d && q in es[x].positions;
    assert TailHit(es[x], Chunks(tail));
  }

  lemma {:induction false} PhraseSnoc(ps: seq<Posting>, tail: Posting, d: nat, p: nat)
    ensures StartsAt(ps + [tail], d, p) <==> StartsAt(ps, d, p) && p + |ps| in PositionsAt(Chunks(tail), d)
  {
    var all := ps + [tail];
    assert all[|ps|] == tail && forall k :: 0 <= k < |ps| ==> all[k] == ps[k];
    if StartsAt(all, d, p) {
      assert p + |ps| in PositionsAt(Chunks(all[|ps|]), d);
      forall k | 0 <= k < |ps| ensures p + k in PositionsAt(Chunks(ps[k]), d) {
        assert p + k in PositionsAt(Chunks(all[k]), d);
      }
    }
  }

  /** MATCH_PHRASE_PREFIX: the last item is a prefix, the others exact terms. */
  method PhrasePrefixQuery(idx: Index, terms: seq<Bytes>) returns (r: Result<seq<nat>>)
    requires ValidIndex(idx)
    ensures terms == [] ==> r == Ok([])
    ensures |terms| == 1 ==> r.Ok? && Ascending(r.value) && forall d :: d in r.value <==> MatchesPrefix(idx, terms[0], d)
    ensures |terms| >= 2 && !idx.hasPositions ==> r.Error?
    ensures |terms| >= 2 && idx.hasPositions && |terms| < MAX32 ==> r.Ok?
    ensures |terms| >= 2 && r.Ok? ==> Ascending(r.value) && forall d :: d in r.value <==> MatchesPhrasePrefix(idx, terms, d)
  {
    if terms == [] {
      return Ok([]);
    }
    if |terms| == 1 {
      var docs := PrefixQuery(idx, terms[0]);
      return Ok(docs);
    }
    if !idx.hasPositions {
      return Error(Unsupported("index has no positions"));
    }
    var fixed, prefix := terms[..|terms| - 1], terms[|terms| - 1];
    var plans := PlanTerms(idx, fixed);
    var hits := WithPrefix(idx.dict, prefix);
    forall d ensures MatchesPhrasePrefix(idx, terms, d) <==> CompletedBy(plans, hits, |hits|, d) {
      PrefixMeaning(idx, terms, d);
    }
    if plans.None? || hits == [] {
      return Ok([]);
    }
    var expected := ExpectedTails(plans.value);
    if expected.Error? {
      return Error(expected.status);
    }
    var acc := [];
    for i := 0 to |hits|
      invariant Ascending(acc) && forall d :: d in acc <==> CompletedBy(plans, hits, i, d)
    {
      HitValid(idx, prefix, hits[i]);
      var tailDocs := TailMatches(hits[i].value, expected.value, plans.value);
      acc := UnionSortedInto(acc, tailDocs.value);
      forall d ensures CompletedBy(plans, hits, i + 1, d) <==> CompletedBy(plans, hits, i, d) || PhraseIn(plans.value + [hits[i].value], d) {
      }
    }
    r := Ok(acc);
  }

  ghost predicate CompletedBy(plans: Option<seq<Posting>>, hits: seq<Entry<Posting>>, n: nat, d: nat) {
    plans.Some? && exists x :: 0 <= x < n <= |hits| && PhraseIn(plans.value + [hits[x].value], d)
  }

  /** Completing the resolved fixed terms by each hit is matching the phrase with its term. */
  lemma {:induction false} PrefixMeaning(idx: Index, terms: seq<Bytes>, d: nat)
    requires ValidIndex(idx) && terms != []
    ensures var hits := WithPrefix(idx.dict, terms[|terms| - 1]);
            MatchesPhrasePrefix(idx, terms, d) <==> CompletedBy(Resolve(idx.dict, terms[..|terms| - 1]), hits, |hits|, d)
  {
    var fixed, hits := terms[..|terms| - 1], WithPrefix(idx.dict, terms[|terms| - 1]);
    var plans := Resolve(idx.dict, fixed);
    forall x | 0 <= x < |hits|
      ensures MatchesPhrase(idx, fixed + [hits[x].term], d) <==> plans.Some? && PhraseIn(plans.value + [hits[x].value], d)
    {
      HitValid(idx, terms[|terms| - 1], hits[x]);
      ResolveSnoc(idx.dict, fixed, hits[x].term);
    }
    if MatchesPhrasePrefix(idx, terms, d) {
      var e :| e in hits && MatchesPhrase(idx, fixed + [e.term], d);
      var x :| 0 <= x < |hits| && hits[x] == e;
    }
    if CompletedBy(plans, hits, |hits|, d) {
      var x :| 0 <= x < |hits| && PhraseIn(plans.value + [hits[x].value], d);
      assert hits[x] in hits;
    }
  }
}
