/** Queries on a written segment: terms are looked up in the dictionary's bytes, their
    postings read from the file, and the phrase operators run on what was read. */
module SegmentReader {
  import opened Common
  import opened DocidSets
  import opened TermDict
  import opened PrxWindows
  import opened FrqRegions
  import opened WindowedLayout
  import opened SlimEntries
  import opened DiskPostings
  import opened PostingLoader
  import opened DiskConjunction
  import opened SegmentWriter
  import opened SegmentFits
  import TermOrder
  import Conjunction
  import Dictionary
  import DB = DictBlocks
  import P = PositionalPostings
  import PM = PhraseMatch
  import Q = PhraseQuery
  import Wildcard

  // ----- the dictionary a query sees

  ghost predicate Viewable(t: Entry<TermPostings>, f: Features, w: EntryBytes) {
    && WindowedLayout.ValidTerm(t.value, true) && AllGood(Lists(t.value.positions, t.value.freqs))
    && match w
       case AsSlim(_) => true
       case AsWindows(ms, c) => Laid(t.value, f, ms, c) && FrqPrelude.Buildable(TableOf(f, ms))
  }

  ghost function ViewOf(t: Entry<TermPostings>, f: Features, w: EntryBytes): Entry<P.Posting>
    requires Viewable(t, f, w)
  {
    Entry(t.term, PhrasePosting(t.value, f, w))
  }

  ghost predicate AllViewable(ts: seq<Entry<TermPostings>>, f: Features, ws: seq<EntryBytes>) {
    |ts| == |ws| && f.hasPrx && forall i: nat {:trigger Viewable(ts[i], f, ws[i])} :: i < |ts| ==> Viewable(ts[i], f, ws[i])
  }

  ghost function View(ts: seq<Entry<TermPostings>>, f: Features, ws: seq<EntryBytes>): (r: seq<Entry<P.Posting>>)
    requires AllViewable(ts, f, ws)
    ensures |r| == |ts| && forall i: nat {:trigger r[i]} :: i < |ts| ==> Viewable(ts[i], f, ws[i]) && r[i] == ViewOf(ts[i], f, ws[i])
  {
    seq(|ts|, i requires 0 <= i < |ts| => assert Viewable(ts[i], f, ws[i]); ViewOf(ts[i], f, ws[i]))
  }

  lemma {:induction false} SlimPostingValid(p: TermPostings)
    requires WindowedLayout.ValidTerm(p, true) && AllGood(Lists(p.positions, p.freqs))
    ensures P.ValidPosting(P.Flat(|p.docids|, P.Chunk(p.docids, Lists(p.positions, p.freqs))))
  {
    var c := P.Chunk(p.docids, Lists(p.positions, p.freqs));
    forall j | 0 <= j < |c.prx| ensures P.PositionList(c.prx[j]) {
      assert ListGood(c.prx[j]);
      GoodIsPositionList(c.prx[j]);
    }
    assert P.ValidChunk(c);
  }

  lemma {:induction false} ViewValid(t: Entry<TermPostings>, f: Features, w: EntryBytes)
    requires Viewable(t, f, w) && f.hasPrx
    ensures P.ValidPosting(ViewOf(t, f, w).value)
  {
    match w
    case AsSlim(_) => SlimPostingValid(t.value);
    case AsWindows(ms, c) => DiskPostingValid(t.value, f, ms, c);
  }

  lemma {:induction false} IndexValid(ts: seq<Entry<TermPostings>>, f: Features, ws: seq<EntryBytes>)
    requires AllViewable(ts, f, ws) && SortedTerms(ts)
    ensures Q.ValidIndex(Q.Index(View(ts, f, ws), true))
  {
    var dict := View(ts, f, ws);
    forall i, j | 0 <= i < j < |dict| ensures TermOrder.Less(dict[i].term, dict[j].term) {
      assert TermOrder.Less(ts[i].term, ts[j].term);
    }
    forall i | 0 <= i < |dict| ensures P.ValidPosting(dict[i].value) {
      ViewValid(ts[i], f, ws[i]);
    }
  }

  // ----- finding in parallel lists

  ghost predicate SameTerms<U, V>(a: seq<Entry<U>>, b: seq<Entry<V>>) {
    |a| == |b| && forall i: nat {:trigger a[i]} {:trigger b[i]} :: i < |a| ==> a[i].term == b[i].term
  }

  lemma {:induction false} FindParallel<U, V>(a: seq<Entry<U>>, b: seq<Entry<V>>, t: Bytes) returns (i: nat)
    requires SameTerms(a, b)
    ensures Find(a, t).None? <==> Find(b, t).None?
    ensures Find(a, t).Some? ==> i < |a| && a[i].term == t && Find(a, t) == Some(a[i].value) && Find(b, t) == Some(b[i].value)
  {
    i := 0;
    if a != [] && a[0].term != t {
      var j := FindParallel(a[1..], b[1..], t);
      i := j + 1;
    }
  }

  // ----- reading

  /** The segment's bytes: dictionary blocks in the index, postings in the file. */
  ghost predicate SegmentOnDisk(idx: Dictionary.Index, hash: Bytes -> nat, file: Bytes, regionOff: nat, region: Bytes,
                                bs: seq<DB.Block>, ts: seq<Entry<TermPostings>>, f: Features, ws: seq<EntryBytes>) {
    && Segment(region, bs, ts, f, ws) && Dictionary.Built(idx, bs, hash) && AllViewable(ts, f, ws)
    && Stored(file, regionOff, region) && |file| < TWO64
  }

  lemma {:induction false} HitTerms(region: Bytes, hits: seq<Entry<Dictionary.Hit>>, ts: seq<Entry<TermPostings>>, f: Features, ws: seq<EntryBytes>)
    requires HitsAre(region, hits, ts, f, ws) && |ws| == |ts| && AllViewable(ts, f, ws)
    ensures SameTerms(hits, View(ts, f, ws))
  {
    var dict := View(ts, f, ws);
    forall i: nat | i < |hits| ensures hits[i].term == dict[i].term {
      assert HitIs(region, hits[i], ts[i], f, ws[i]);
    }
  }

  /** One hit's posting, as the view has it. */
  method LoadHit(h: Dictionary.Hit, file: Bytes, regionOff: nat, inflate: Inflate, ghost region: Bytes, ghost t: Entry<TermPostings>, ghost f: Features, ghost w: EntryBytes)
    returns (r: Result<P.Posting>)
    requires HitIs(region, Entry(t.term, h), t, f, w) && TermFits(t, w) && Viewable(t, f, w) && f.hasPrx
    requires Stored(file, regionOff, region) && |file| < TWO64
    ensures r == Ok(ViewOf(t, f, w).value)
  {
    r := LoadPosting(file, regionOff, h.frqBase, h.entry.locator, h.entry.df, inflate, region, t.value, f, w, true);
  }

  /** Dictionary lookup, then the posting behind the entry. */
  method ResolveTerm(idx: Dictionary.Index, hash: Bytes -> nat, file: Bytes, regionOff: nat, term: Bytes, inflate: Inflate,
                     ghost region: Bytes, ghost bs: seq<DB.Block>, ghost ts: seq<Entry<TermPostings>>, ghost f: Features, ghost ws: seq<EntryBytes>)
    returns (r: Result<Option<P.Posting>>)
    requires SegmentOnDisk(idx, hash, file, regionOff, region, bs, ts, f, ws)
    ensures r == Ok(Find(View(ts, f, ws), term))
  {
    ghost var hits, dict := Dictionary.AllHits(bs, 0, |bs|), View(ts, f, ws);
    HitTerms(region, hits, ts, f, ws);
    ghost var i := FindParallel(hits, dict, term);
    var found := Dictionary.Lookup(idx, hash, term, bs);
    if found.value.None? {
      return Ok(None);
    }
    assert HitIs(region, hits[i], ts[i], f, ws[i]) && TermFits(ts[i], ws[i]) && Viewable(ts[i], f, ws[i]);
    var p := LoadHit(found.value.value, file, regionOff, inflate, region, ts[i], f, ws[i]);
    r := Ok(Some(p.value));
  }

  lemma {:induction false} ResolvedValid(idx: Q.Index, terms: seq<Bytes>)
    requires Q.ValidIndex(idx) && Q.Resolve(idx.dict, terms).Some?
    ensures P.AllValid(Q.Resolve(idx.dict, terms).value)
  {
    if terms != [] {
      ResolvedValid(idx, terms[..|terms| - 1]);
      Q.FoundIsValid(idx, terms[|terms| - 1]);
    }
  }

  // ----- planning

  /** A plan for one hit: its posting if slim, its directory if windowed. */
  method PlanHit(h: Dictionary.Hit, file: Bytes, regionOff: nat, needPositions: bool, inflate: Inflate,
                 ghost region: Bytes, ghost t: Entry<TermPostings>, ghost f: Features, ghost w: EntryBytes)
    returns (r: Result<Plan>)
    requires HitIs(region, Entry(t.term, h), t, f, w) && TermFits(t, w) && Viewable(t, f, w) && f.hasPrx
    requires Stored(file, regionOff, region) && |file| < TWO64
    ensures r.Ok? && PlanFor(file, regionOff, r.value, needPositions, ViewOf(t, f, w).value)
  {
    r := PlanPosting(file, regionOff, h.frqBase, h.entry.locator, h.entry.df, needPositions, inflate, region, t.value, f, w);
  }

  /** Dictionary lookup, then a plan for the posting behind the entry. */
  method PlanTerm(idx: Dictionary.Index, hash: Bytes -> nat, file: Bytes, regionOff: nat, term: Bytes, needPositions: bool, inflate: Inflate,
                  ghost region: Bytes, ghost bs: seq<DB.Block>, ghost ts: seq<Entry<TermPostings>>, ghost f: Features, ghost ws: seq<EntryBytes>)
    returns (r: Result<Option<Plan>>)
    requires SegmentOnDisk(idx, hash, file, regionOff, region, bs, ts, f, ws)
    ensures r.Ok? && (r.value.Some? <==> Find(View(ts, f, ws), term).Some?)
    ensures r.value.Some? ==> PlanFor(file, regionOff, r.value.value, needPositions, Find(View(ts, f, ws), term).value)
  {
    ghost var hits, dict := Dictionary.AllHits(bs, 0, |bs|), View(ts, f, ws);
    HitTerms(region, hits, ts, f, ws);
    ghost var i := FindParallel(hits, dict, term);
    var found := Dictionary.Lookup(idx, hash, term, bs);
    if found.value.None? {
      return Ok(None);
    }
    assert HitIs(region, hits[i], ts[i], f, ws[i]) && TermFits(ts[i], ws[i]) && Viewable(ts[i], f, ws[i]);
    var p := PlanHit(found.value.value, file, regionOff, needPositions, inflate, region, ts[i], f, ws[i]);
    r := Ok(Some(p.value));
  }

  lemma {:induction false} PlansSnoc(file: Bytes, regionOff: nat, plans: seq<Plan>, needPositions: bool, ps: seq<P.Posting>, plan: Plan, p: P.Posting)
    requires PlansFor(file, regionOff, plans, needPositions, ps) && PlanFor(file, regionOff, plan, needPositions, p)
    ensures PlansFor(file, regionOff, plans + [plan], needPositions, ps + [p])
  {
    forall t: nat | t < |plans| + 1 ensures PlanFor(file, regionOff, (plans + [plan])[t], needPositions, (ps + [p])[t]) {
      assert t < |plans| ==> PlanFor(file, regionOff, plans[t], needPositions, ps[t]);
    }
  }

  /** All terms; one missing term leaves nothing to match. */
  method PlanTerms(idx: Dictionary.Index, hash: Bytes -> nat, file: Bytes, regionOff: nat, terms: seq<Bytes>, needPositions: bool, inflate: Inflate,
                   ghost region: Bytes, ghost bs: seq<DB.Block>, ghost ts: seq<Entry<TermPostings>>, ghost f: Features, ghost ws: seq<EntryBytes>)
    returns (r: Option<seq<Plan>>)
    requires SegmentOnDisk(idx, hash, file, regionOff, region, bs, ts, f, ws)
    ensures r.Some? <==> Q.Resolve(View(ts, f, ws), terms).Some?
    ensures r.Some? ==> PlansFor(file, regionOff, r.value, needPositions, Q.Resolve(View(ts, f, ws), terms).value)
  {
    ghost var dict := View(ts, f, ws);
    var plans: seq<Plan> := [];
    ghost var ps: seq<P.Posting> := [];
    for i := 0 to |terms|
      invariant Q.Resolve(dict, terms[..i]) == Some(ps) && PlansFor(file, regionOff, plans, needPositions, ps)
    {
      assert terms[..i + 1] == terms[..i] + [terms[i]];
      Q.ResolveSnoc(dict, terms[..i], terms[i]);
      var p := PlanTerm(idx, hash, file, regionOff, terms[i], needPositions, inflate, region, bs, ts, f, ws);
      if p.value.None? {
        Q.MissingTerm(dict, terms, i + 1);
        return None;
      }
      PlansSnoc(file, regionOff, plans, needPositions, ps, p.value.value, Find(dict, terms[i]).value);
      plans, ps := plans + [p.value.value], ps + [Find(dict, terms[i]).value];
    }
    assert terms[..|terms|] == terms;
    r := Some(plans);
  }

  // ----- queries

  /** MATCH_PHRASE from the bytes: of every term but the rarest, only the windows that cover a
      document holding all rarer terms are read. */
  method PhraseOnDisk(idx: Dictionary.Index, hash: Bytes -> nat, file: Bytes, regionOff: nat, terms: seq<Bytes>, inflate: Inflate,
                      ghost region: Bytes, ghost bs: seq<DB.Block>, ghost ts: seq<Entry<TermPostings>>, ghost f: Features, ghost ws: seq<EntryBytes>)
    returns (r: Result<seq<nat>>)
    requires SegmentOnDisk(idx, hash, file, regionOff, region, bs, ts, f, ws) && SortedTerms(ts)
    ensures |terms| < MAX32 ==> r.Ok?
    ensures terms == [] ==> r == Ok([])
    ensures r.Ok? && terms != [] ==> Ascending(r.value) && forall d :: d in r.value <==> Q.MatchesPhrase(Q.Index(View(ts, f, ws), true), terms, d)
  {
    if terms == [] {
      return Ok([]);
    }
    ghost var index := Q.Index(View(ts, f, ws), true);
    IndexValid(ts, f, ws);
    var plans := PlanTerms(idx, hash, file, regionOff, terms, true, inflate, region, bs, ts, f, ws);
    if plans.None? {
      return Ok([]);
    }
    ResolvedValid(index, terms);
    ghost var ps := Q.Resolve(index.dict, terms).value;
    var joined := JoinPlans(file, regionOff, plans.value, true, inflate, ps);
    r := Q.MatchCandidates(joined.value.srcs, joined.value.candidates, ps);
  }

  /** MATCH all terms from the bytes, without fetching any positions. */
  method BooleanAndOnDisk(idx: Dictionary.Index, hash: Bytes -> nat, file: Bytes, regionOff: nat, terms: seq<Bytes>, inflate: Inflate,
                          ghost region: Bytes, ghost bs: seq<DB.Block>, ghost ts: seq<Entry<TermPostings>>, ghost f: Features, ghost ws: seq<EntryBytes>)
    returns (docids: seq<nat>)
    requires SegmentOnDisk(idx, hash, file, regionOff, region, bs, ts, f, ws) && SortedTerms(ts)
    ensures terms == [] ==> docids == []
    ensures terms != [] ==> Ascending(docids) && forall d :: d in docids <==> Q.MatchesAll(Q.Index(View(ts, f, ws), true), terms, d)
  {
    if terms == [] {
      return [];
    }
    ghost var index := Q.Index(View(ts, f, ws), true);
    IndexValid(ts, f, ws);
    var plans := PlanTerms(idx, hash, file, regionOff, terms, false, inflate, region, bs, ts, f, ws);
    if plans.None? {
      return [];
    }
    ResolvedValid(index, terms);
    var joined := JoinPlans(file, regionOff, plans.value, false, inflate, Q.Resolve(index.dict, terms).value);
    docids := joined.value.candidates;
  }

  // ----- expansion

  /** Entry `j` of both picks is entry `i` of both lists. */
  ghost predicate Picked<U(!new), V(!new)>(a: seq<Entry<U>>, b: seq<Entry<V>>, x: Entry<U>, y: Entry<V>) {
    exists i: nat :: i < |a| && i < |b| && a[i] == x && b[i] == y
  }

  ghost predicate AllPicked<U(!new), V(!new)>(a: seq<Entry<U>>, b: seq<Entry<V>>, xs: seq<Entry<U>>, ys: seq<Entry<V>>) {
    |xs| == |ys| && forall j: nat {:trigger xs[j]} {:trigger ys[j]} :: j < |xs| ==> Picked(a, b, xs[j], ys[j])
  }

  lemma {:induction false} PickedLater<U(!new), V(!new)>(a: seq<Entry<U>>, b: seq<Entry<V>>, x: Entry<U>, y: Entry<V>)
    requires a != [] && b != [] && Picked(a[1..], b[1..], x, y)
    ensures Picked(a, b, x, y)
  {
    var i: nat :| i < |a[1..]| && i < |b[1..]| && a[1..][i] == x && b[1..][i] == y;
    assert a[i + 1] == x && b[i + 1] == y;
  }

  /** Parallel lists keep the same places under a prefix. */
  lemma {:induction false} PrefixParallel<U(!new), V(!new)>(a: seq<Entry<U>>, b: seq<Entry<V>>, p: Bytes)
    requires SameTerms(a, b)
    ensures AllPicked(a, b, WithPrefix(a, p), WithPrefix(b, p))
  {
    if a != [] {
      PrefixParallel(a[1..], b[1..], p);
      var xs, ys, xs', ys' := WithPrefix(a, p), WithPrefix(b, p), WithPrefix(a[1..], p), WithPrefix(b[1..], p);
      var k := if HasPrefix(a[0].term, p) then 1 else 0;
      forall j: nat | j < |xs| ensures Picked(a, b, xs[j], ys[j]) {
        if k == 1 && j == 0 {
          assert a[0] == xs[0] && b[0] == ys[0];
        } else {
          assert xs[j] == xs'[j - k] && ys[j] == ys'[j - k];
          PickedLater(a, b, xs[j], ys[j]);
        }
      }
    }
  }

  /** One plan per hit, in order. */
  ghost predicate HitPlans(file: Bytes, regionOff: nat, plans: seq<Plan>, needPositions: bool, hits: seq<Entry<P.Posting>>) {
    && |plans| == |hits|
    && forall t: nat {:trigger PlanFor(file, regionOff, plans[t], needPositions, hits[t].value)} :: t < |hits| ==>
         PlanFor(file, regionOff, plans[t], needPositions, hits[t].value)
  }

  lemma {:induction false} HitPlansSnoc(file: Bytes, regionOff: nat, plans: seq<Plan>, needPositions: bool, hits: seq<Entry<P.Posting>>, plan: Plan, hit: Entry<P.Posting>)
    requires HitPlans(file, regionOff, plans, needPositions, hits) && PlanFor(file, regionOff, plan, needPositions, hit.value)
    ensures HitPlans(file, regionOff, plans + [plan], needPositions, hits + [hit])
  {
    forall t: nat | t < |hits| + 1 ensures PlanFor(file, regionOff, (plans + [plan])[t], needPositions, (hits + [hit])[t].value) {
      assert t < |hits| ==> PlanFor(file, regionOff, plans[t], needPositions, hits[t].value);
    }
  }

  lemma {:induction false} PickedTerm<U(!new), V(!new)>(a: seq<Entry<U>>, b: seq<Entry<V>>, x: Entry<U>, y: Entry<V>)
    requires SameTerms(a, b) && Picked(a, b, x, y)
    ensures x.term == y.term
  {
    var i: nat :| i < |a| && i < |b| && a[i] == x && b[i] == y;
  }

  /** Parallel lists keep the same places under a pattern. */
  lemma {:induction false} MatchingPicked<U(!new), V(!new)>(a: seq<Entry<U>>, b: seq<Entry<V>>, xs: seq<Entry<U>>, ys: seq<Entry<V>>, pattern: Bytes)
    requires SameTerms(a, b) && AllPicked(a, b, xs, ys)
    ensures AllPicked(a, b, Wildcard.Matching(xs, pattern), Wildcard.Matching(ys, pattern))
  {
    if xs != [] {
      assert Picked(a, b, xs[0], ys[0]);
      PickedTerm(a, b, xs[0], ys[0]);
      forall j: nat | j < |xs[1..]| ensures Picked(a, b, xs[1..][j], ys[1..][j]) {
        assert Picked(a, b, xs[j + 1], ys[j + 1]);
      }
      MatchingPicked(a, b, xs[1..], ys[1..], pattern);
      var keptXs, keptYs := Wildcard.Matching(xs[1..], pattern), Wildcard.Matching(ys[1..], pattern);
      JoinPicked(a, b, xs[0], ys[0], keptXs, keptYs);
      assert [] + keptXs == keptXs && [] + keptYs == keptYs;
    }
  }

  lemma {:induction false} JoinPicked<U(!new), V(!new)>(a: seq<Entry<U>>, b: seq<Entry<V>>, x: Entry<U>, y: Entry<V>, xs: seq<Entry<U>>, ys: seq<Entry<V>>)
    requires Picked(a, b, x, y) && AllPicked(a, b, xs, ys)
    ensures AllPicked(a, b, [x] + xs, [y] + ys)
  {
    var more, more' := [x] + xs, [y] + ys;
    forall j: nat | j < |more| ensures Picked(a, b, more[j], more'[j]) {
      if j == 0 {
        assert more[0] == x && more'[0] == y;
      } else {
        assert more[j] == xs[j - 1] && more'[j] == ys[j - 1];
      }
    }
  }

  /** A plan for one enumerated term. */
  method PlanPicked(h: Entry<Dictionary.Hit>, file: Bytes, regionOff: nat, needPositions: bool, inflate: Inflate, ghost region: Bytes, ghost hits: seq<Entry<Dictionary.Hit>>,
                    ghost ts: seq<Entry<TermPostings>>, ghost f: Features, ghost ws: seq<EntryBytes>, ghost want: Entry<P.Posting>)
    returns (plan: Plan)
    requires HitsAre(region, hits, ts, f, ws) && |ws| == |ts| && TermsFit(ts, ws) && AllViewable(ts, f, ws)
    requires Stored(file, regionOff, region) && |file| < TWO64 && Picked(hits, View(ts, f, ws), h, want)
    ensures PlanFor(file, regionOff, plan, needPositions, want.value)
  {
    ghost var i: nat :| i < |hits| && i < |View(ts, f, ws)| && hits[i] == h && View(ts, f, ws)[i] == want;
    assert HitIs(region, hits[i], ts[i], f, ws[i]) && TermFits(ts[i], ws[i]) && Viewable(ts[i], f, ws[i]);
    var r := PlanHit(h.value, file, regionOff, needPositions, inflate, region, ts[i], f, ws[i]);
    plan := r.value;
  }

  lemma {:induction false} HitPlansNext(file: Bytes, regionOff: nat, plans: seq<Plan>, needPositions: bool, hits: seq<Entry<P.Posting>>, j: nat, plan: Plan)
    requires j < |hits| && HitPlans(file, regionOff, plans, needPositions, hits[..j]) && PlanFor(file, regionOff, plan, needPositions, hits[j].value)
    ensures HitPlans(file, regionOff, plans + [plan], needPositions, hits[..j + 1])
  {
    HitPlansSnoc(file, regionOff, plans, needPositions, hits[..j], plan, hits[j]);
    assert hits[..j + 1] == hits[..j] + [hits[j]];
  }

  /** Plans for enumerated terms, one by one. */
  method PlanAll(found: seq<Entry<Dictionary.Hit>>, file: Bytes, regionOff: nat, needPositions: bool, inflate: Inflate, ghost region: Bytes, ghost hits: seq<Entry<Dictionary.Hit>>,
                 ghost ts: seq<Entry<TermPostings>>, ghost f: Features, ghost ws: seq<EntryBytes>, ghost all: seq<Entry<P.Posting>>)
    returns (plans: seq<Plan>)
    requires HitsAre(region, hits, ts, f, ws) && |ws| == |ts| && TermsFit(ts, ws) && AllViewable(ts, f, ws)
    requires Stored(file, regionOff, region) && |file| < TWO64 && AllPicked(hits, View(ts, f, ws), found, all)
    ensures HitPlans(file, regionOff, plans, needPositions, all)
  {
    plans := [];
    for j := 0 to |found|
      invariant HitPlans(file, regionOff, plans, needPositions, all[..j])
    {
      assert Picked(hits, View(ts, f, ws), found[j], all[j]);
      var plan := PlanPicked(found[j], file, regionOff, needPositions, inflate, region, hits, ts, f, ws, all[j]);
      HitPlansNext(file, regionOff, plans, needPositions, all, j, plan);
      plans := plans + [plan];
    }
    assert all[..|all|] == all;
  }

  /** Plans for every term with the prefix, enumerated from the blocks. */
  method PlanPrefix(idx: Dictionary.Index, hash: Bytes -> nat, file: Bytes, regionOff: nat, prefix: Bytes, needPositions: bool, inflate: Inflate,
                    ghost region: Bytes, ghost bs: seq<DB.Block>, ghost ts: seq<Entry<TermPostings>>, ghost f: Features, ghost ws: seq<EntryBytes>)
    returns (plans: seq<Plan>)
    requires SegmentOnDisk(idx, hash, file, regionOff, region, bs, ts, f, ws)
    ensures HitPlans(file, regionOff, plans, needPositions, WithPrefix(View(ts, f, ws), prefix))
  {
    ghost var hits, dict := Dictionary.AllHits(bs, 0, |bs|), View(ts, f, ws);
    HitTerms(region, hits, ts, f, ws);
    PrefixParallel(hits, dict, prefix);
    var found := Dictionary.PrefixTerms(idx, prefix, bs, hash);
    plans := PlanAll(found.value, file, regionOff, needPositions, inflate, region, hits, ts, f, ws, WithPrefix(dict, prefix));
  }

  /** Plans for the matching terms: the literal prefix enumerated from the blocks, each term
      tested, and only matches planned. */
  method ExpandOnDisk(idx: Dictionary.Index, hash: Bytes -> nat, file: Bytes, regionOff: nat, pattern: Bytes, inflate: Inflate,
                      ghost region: Bytes, ghost bs: seq<DB.Block>, ghost ts: seq<Entry<TermPostings>>, ghost f: Features, ghost ws: seq<EntryBytes>)
    returns (plans: seq<Plan>)
    requires SegmentOnDisk(idx, hash, file, regionOff, region, bs, ts, f, ws)
    ensures HitPlans(file, regionOff, plans, false, Wildcard.Matching(View(ts, f, ws), pattern))
  {
    ghost var hits, dict := Dictionary.AllHits(bs, 0, |bs|), View(ts, f, ws);
    var prefix := Wildcard.LiteralPrefix(pattern);
    HitTerms(region, hits, ts, f, ws);
    PrefixParallel(hits, dict, prefix);
    Wildcard.PrefixThenFilter(dict, pattern);
    var found := Dictionary.PrefixTerms(idx, prefix, bs, hash);
    var kept := Wildcard.KeepMatching(found.value, pattern);
    MatchingPicked(hits, dict, found.value, WithPrefix(dict, prefix), pattern);
    plans := PlanAll(kept, file, regionOff, false, inflate, region, hits, ts, f, ws, Wildcard.Matching(dict, pattern));
  }

  /** The union of the planned terms' documents; no positions are fetched. */
  method UnionOnDisk(file: Bytes, regionOff: nat, plans: seq<Plan>, inflate: Inflate, ghost hits: seq<Entry<P.Posting>>) returns (docids: seq<nat>)
    requires HitPlans(file, regionOff, plans, false, hits) && Q.HitsValid(hits)
    ensures Ascending(docids) && forall d :: d in docids <==> Q.InHits(hits, d)
  {
    var lists: seq<seq<nat>> := [];
    for i := 0 to |plans|
      invariant |lists| == i && Q.ListsOf(lists, hits[..i])
    {
      assert PlanFor(file, regionOff, plans[i], false, hits[i].value) && P.ValidPosting(hits[i].value);
      var docs := DocsOnDisk(file, regionOff, plans[i], inflate, hits[i].value);
      Q.ListsSnoc(lists, hits, i, docs);
      lists := lists + [docs];
    }
    assert hits[..|hits|] == hits;
    docids := Q.UnionOfLists(lists, hits);
  }

  /** All documents of one planned term. */
  method DocsOnDisk(file: Bytes, regionOff: nat, plan: Plan, inflate: Inflate, ghost posting: P.Posting) returns (docs: seq<nat>)
    requires PlanFor(file, regionOff, plan, false, posting) && P.ValidPosting(posting)
    ensures Conjunction.DocsOf(docs, P.Chunks(posting))
  {
    var one;
    ghost var sub;
    one, sub := ReadPlan(file, regionOff, plan, true, [], false, inflate, posting);
    docs := one.value.docs;
    Q.SameDocs(posting, sub, docs);
  }

  lemma {:induction false} PrefixValid(index: Q.Index, prefix: Bytes)
    requires Q.ValidIndex(index)
    ensures Q.HitsValid(WithPrefix(index.dict, prefix))
    ensures forall d :: Q.InHits(WithPrefix(index.dict, prefix), d) <==> Q.MatchesPrefix(index, prefix, d)
  {
    var hits := WithPrefix(index.dict, prefix);
    forall i | 0 <= i < |hits| ensures P.ValidPosting(hits[i].value) {
      Q.HitValid(index, prefix, hits[i]);
    }
    forall d ensures Q.InHits(hits, d) <==> Q.MatchesPrefix(index, prefix, d) {
      if Q.InHits(hits, d) {
        var i :| 0 <= i < |hits| && P.Has(P.Chunks(hits[i].value), d);
        assert hits[i] in hits;
      }
    }
  }

  /** The documents of every term with the prefix, from the bytes. */
  method PrefixOnDisk(idx: Dictionary.Index, hash: Bytes -> nat, file: Bytes, regionOff: nat, prefix: Bytes, inflate: Inflate,
                      ghost region: Bytes, ghost bs: seq<DB.Block>, ghost ts: seq<Entry<TermPostings>>, ghost f: Features, ghost ws: seq<EntryBytes>)
    returns (docids: seq<nat>)
    requires SegmentOnDisk(idx, hash, file, regionOff, region, bs, ts, f, ws) && SortedTerms(ts)
    ensures Ascending(docids) && forall d :: d in docids <==> Q.MatchesPrefix(Q.Index(View(ts, f, ws), true), prefix, d)
  {
    ghost var index := Q.Index(View(ts, f, ws), true);
    IndexValid(ts, f, ws);
    PrefixValid(index, prefix);
    var plans := PlanPrefix(idx, hash, file, regionOff, prefix, false, inflate, region, bs, ts, f, ws);
    docids := UnionOnDisk(file, regionOff, plans, inflate, WithPrefix(index.dict, prefix));
  }

  /** The documents of every dictionary term the pattern matches, from the bytes. */
  method WildcardOnDisk(idx: Dictionary.Index, hash: Bytes -> nat, file: Bytes, regionOff: nat, pattern: Bytes, inflate: Inflate,
                        ghost region: Bytes, ghost bs: seq<DB.Block>, ghost ts: seq<Entry<TermPostings>>, ghost f: Features, ghost ws: seq<EntryBytes>)
    returns (docids: seq<nat>)
    requires SegmentOnDisk(idx, hash, file, regionOff, region, bs, ts, f, ws) && SortedTerms(ts)
    ensures Ascending(docids) && forall d :: d in docids <==> Wildcard.MatchesWildcard(Q.Index(View(ts, f, ws), true), pattern, d)
  {
    ghost var index := Q.Index(View(ts, f, ws), true);
    IndexValid(ts, f, ws);
    var plans := ExpandOnDisk(idx, hash, file, regionOff, pattern, inflate, region, bs, ts, f, ws);
    Wildcard.MatchingValid(index, pattern);
    docids := UnionOnDisk(file, regionOff, plans, inflate, Wildcard.Matching(index.dict, pattern));
    forall d ensures Q.InHits(Wildcard.Matching(index.dict, pattern), d) <==> Wildcard.MatchesWildcard(index, pattern, d) {
      Wildcard.HitsMatch(index, pattern, d);
    }
  }

  // ----- phrase prefix

  /** Where a continuation of the fixed terms must stand. */
  method ExpectedOnDisk(file: Bytes, regionOff: nat, plans: seq<Plan>, inflate: Inflate, ghost ps: seq<P.Posting>) returns (r: Result<seq<PM.Expected>>)
    requires plans != [] && PlansFor(file, regionOff, plans, true, ps) && P.AllValid(ps)
    ensures |ps| + 1 < MAX32 ==> r.Ok?
    ensures r.Ok? ==> Q.ExpectedFor(r.value, ps)
  {
    var joined := JoinPlans(file, regionOff, plans, true, inflate, ps);
    r := Q.TailsOfCandidates(joined.value.srcs, joined.value.candidates, ps);
  }

  /** The documents in which one tail completes the phrase. */
  method TailOnDisk(file: Bytes, regionOff: nat, plan: Plan, expected: seq<PM.Expected>, inflate: Inflate, ghost tail: P.Posting, ghost ps: seq<P.Posting>)
    returns (docs: seq<nat>)
    requires PlanFor(file, regionOff, plan, true, tail) && P.ValidPosting(tail) && Q.ExpectedFor(expected, ps)
    ensures Ascending(docs) && forall d :: d in docs <==> P.PhraseIn(ps + [tail], d)
  {
    if expected == [] {
      Q.NothingFollows(tail, ps);
      return [];
    }
    var joined := JoinPlans(file, regionOff, [plan], true, inflate, [tail]);
    var r := Q.TailCandidates(joined.value.srcs, joined.value.candidates, expected, tail, ps);
    docs := r.value;
  }

  /** The union over the tails. */
  method CompletionsOnDisk(file: Bytes, regionOff: nat, tails: seq<Plan>, expected: seq<PM.Expected>, inflate: Inflate, ghost hits: seq<Entry<P.Posting>>, ghost ps: seq<P.Posting>)
    returns (acc: seq<nat>)
    requires HitPlans(file, regionOff, tails, true, hits) && Q.HitsValid(hits) && Q.ExpectedFor(expected, ps)
    ensures Ascending(acc) && forall d :: d in acc <==> Q.CompletedBy(Some(ps), hits, |hits|, d)
  {
    acc := [];
    for i := 0 to |tails|
      invariant Ascending(acc) && forall d :: d in acc <==> Q.CompletedBy(Some(ps), hits, i, d)
    {
      assert PlanFor(file, regionOff, tails[i], true, hits[i].value) && P.ValidPosting(hits[i].value);
      var docs := TailOnDisk(file, regionOff, tails[i], expected, inflate, hits[i].value, ps);
      acc := UnionSortedInto(acc, docs);
      forall d ensures Q.CompletedBy(Some(ps), hits, i + 1, d) <==> Q.CompletedBy(Some(ps), hits, i, d) || P.PhraseIn(ps + [hits[i].value], d) {
      }
    }
  }

  /** MATCH_PHRASE_PREFIX from the bytes. */
  method PhrasePrefixOnDisk(idx: Dictionary.Index, hash: Bytes -> nat, file: Bytes, regionOff: nat, terms: seq<Bytes>, inflate: Inflate,
                            ghost region: Bytes, ghost bs: seq<DB.Block>, ghost ts: seq<Entry<TermPostings>>, ghost f: Features, ghost ws: seq<EntryBytes>)
    returns (r: Result<seq<nat>>)
    requires SegmentOnDisk(idx, hash, file, regionOff, region, bs, ts, f, ws) && SortedTerms(ts)
    ensures |terms| < MAX32 ==> r.Ok?
    ensures terms == [] ==> r == Ok([])
    ensures |terms| == 1 ==> r.Ok? && Ascending(r.value) && forall d :: d in r.value <==> Q.MatchesPrefix(Q.Index(View(ts, f, ws), true), terms[0], d)
    ensures |terms| >= 2 && r.Ok? ==> Ascending(r.value) && forall d :: d in r.value <==> Q.MatchesPhrasePrefix(Q.Index(View(ts, f, ws), true), terms, d)
  {
    if terms == [] {
      return Ok([]);
    }
    if |terms| == 1 {
      var docs := PrefixOnDisk(idx, hash, file, regionOff, terms[0], inflate, region, bs, ts, f, ws);
      return Ok(docs);
    }
    r := CompleteOnDisk(idx, hash, file, regionOff, terms[..|terms| - 1], terms[|terms| - 1], inflate, region, bs, ts, f, ws);
    ghost var index := Q.Index(View(ts, f, ws), true);
    IndexValid(ts, f, ws);
    ghost var hits := WithPrefix(index.dict, terms[|terms| - 1]);
    forall d ensures Q.MatchesPhrasePrefix(index, terms, d) <==> Q.CompletedBy(Q.Resolve(index.dict, terms[..|terms| - 1]), hits, |hits|, d) {
      Q.PrefixMeaning(index, terms, d);
    }
  }

  /** The fixed terms completed by every term with the prefix. */
  method CompleteOnDisk(idx: Dictionary.Index, hash: Bytes -> nat, file: Bytes, regionOff: nat, fixed: seq<Bytes>, prefix: Bytes, inflate: Inflate,
                        ghost region: Bytes, ghost bs: seq<DB.Block>, ghost ts: seq<Entry<TermPostings>>, ghost f: Features, ghost ws: seq<EntryBytes>)
    returns (r: Result<seq<nat>>)
    requires SegmentOnDisk(idx, hash, file, regionOff, region, bs, ts, f, ws) && SortedTerms(ts) && fixed != []
    ensures |fixed| + 1 < MAX32 ==> r.Ok?
    ensures r.Ok? ==> Ascending(r.value) && forall d :: d in r.value <==>
              Q.CompletedBy(Q.Resolve(View(ts, f, ws), fixed), WithPrefix(View(ts, f, ws), prefix), |WithPrefix(View(ts, f, ws), prefix)|, d)
  {
    ghost var index := Q.Index(View(ts, f, ws), true);
    IndexValid(ts, f, ws);
    var plans := PlanTerms(idx, hash, file, regionOff, fixed, true, inflate, region, bs, ts, f, ws);
    if plans.None? {
      return Ok([]);
    }
    ResolvedValid(index, fixed);
    PrefixValid(index, prefix);
    var tails := PlanPrefix(idx, hash, file, regionOff, prefix, true, inflate, region, bs, ts, f, ws);
    if tails == [] {
      return Ok([]);
    }
    ghost var ps := Q.Resolve(index.dict, fixed).value;
    var expected := ExpectedOnDisk(file, regionOff, plans.value, inflate, ps);
    if expected.Error? {
      return Error(expected.status);
    }
    var acc := CompletionsOnDisk(file, regionOff, tails, expected.value, inflate, WithPrefix(index.dict, prefix), ps);
    r := Ok(acc);
  }
}
