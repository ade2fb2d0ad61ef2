/** The conjunction on a written segment: the rarest term is read whole, of every later term
    only the windows that cover a surviving candidate are fetched, and their positions only
    when the query asks for them. */
module DiskConjunction {
  import opened Common
  import opened DocidSets
  import opened WindowDirectory
  import opened IndexSort
  import opened WindowRows
  import opened FrqPrelude
  import opened FrqPreludeReader
  import opened FrqRegions
  import opened WindowedLayout
  import opened WindowedReader
  import opened WindowedRoundTrip
  import opened SlimEntries
  import opened DiskPostings
  import opened PostingLoader
  import C = Conjunction
  import P = PositionalPostings

  /** A term before the conjunction: a slim posting read in full, its positions only when
      needed, or the opened directory of a windowed one. */
  datatype Plan = FlatPlan(df: nat, docids: seq<nat>, prx: seq<seq<nat>>) | WindowPlan(df: nat, base: nat, loc: Locator, pre: Prelude)

  /** What lies behind a windowed plan. */
  datatype Source = Source(p: TermPostings, f: Features, ms: seq<WindowMeta>, c: WindowBytes)

  ghost predicate Opens(file: Bytes, regionOff: nat, plan: Plan, s: Source, posting: P.Posting) {
    && plan.WindowPlan? && plan.loc.PodRef? && plan.loc.layout.Windowed?
    && Laid(s.p, s.f, s.ms, s.c) && s.f.hasPrx && PayloadsFit(s.c) && AllAccepted(s.p, s.c, Windows(s.p)) && Buildable(TableOf(s.f, s.ms))
    && plan.pre == Opened(TableOf(s.f, s.ms)) && Resolved(file, regionOff, plan.base, plan.loc, plan.pre, s.f, s.ms, s.c)
    && posting == QueryPosting(s.p, s.f, s.ms)
  }

  /** The plan stands for the posting. */
  ghost predicate PlanFor(file: Bytes, regionOff: nat, plan: Plan, needPositions: bool, posting: P.Posting) {
    && plan.df == posting.df
    && match plan
       case FlatPlan(_, docids, prx) => posting.Flat? && docids == posting.chunk.docids && (needPositions ==> prx == posting.chunk.prx)
       case WindowPlan(_, _, _, _) => exists s {:trigger Opens(file, regionOff, plan, s, posting)} :: Opens(file, regionOff, plan, s, posting)
  }

  method PlanPosting(file: Bytes, regionOff: nat, base: nat, loc: Locator, df: nat, needPositions: bool, inflate: Inflate,
                     ghost region: Bytes, ghost p: TermPostings, ghost f: Features, ghost w: EntryBytes)
    returns (r: Result<Plan>)
    requires PostingWritten(region, base, loc, p, f, w) && Stored(file, regionOff, region) && |file| < TWO64
    requires f.hasPrx && df == |p.docids| && Loadable(p, w)
    ensures ValidTerm(p, true) && (w.AsWindows? ==> Buildable(TableOf(f, w.ms)))
    ensures r.Ok? && PlanFor(file, regionOff, r.value, needPositions, PhrasePosting(p, f, w))
  {
    if loc.PodRef? && loc.layout.Windowed? {
      var pre := OpenDirectory(file, regionOff, base, loc, needPositions, region, p, f, w.ms, w.c, true);
      r := Ok(WindowPlan(df, base, loc, pre.value));
      assert Opens(file, regionOff, r.value, Source(p, f, w.ms, w.c), PhrasePosting(p, f, w));
    } else {
      var wants := Wants(needPositions, false);
      WholeOf(p, wants);
      var d := LoadSlim(file, regionOff, base, loc, wants, inflate, region, p, f, w.s, true);
      r := Ok(FlatPlan(df, d.value.docids, d.value.positions));
    }
  }

  // ----- reading one term

  /** One window, by its own ranges. */
  method ReadOneWindow(file: Bytes, regionOff: nat, plan: Plan, w: nat, needPositions: bool, inflate: Inflate, ghost s: Source, ghost posting: P.Posting)
    returns (r: Result<P.Chunk>)
    requires Opens(file, regionOff, plan, s, posting) && w < |posting.windows|
    ensures r.Ok? && r.value.docids == posting.windows[w].docids && (needPositions ==> r.value == posting.windows[w])
  {
    assert FirstRow(s.p, s.f, s.ms[w], s.c.pxs, s.c.payloads, w);
    if needPositions {
      assert Accepted(s.p, s.c.payloads[w], w);
      r := LoadWindow(file, regionOff, plan.base, plan.loc, plan.pre, w, inflate, s.p, s.f, s.ms, s.c, true);
    } else {
      var docs := LoadWindowDocs(file, regionOff, plan.base, plan.loc, plan.pre, w, inflate, s.p, s.f, s.ms, s.c, true);
      r := Ok(P.Chunk(docs.value, []));
    }
  }

  /** The chunks fetched of a term, its documents in them, and which windows they were. */
  datatype TermRead = TermRead(chunks: seq<P.Chunk>, docs: seq<nat>, windows: seq<nat>)

  /** Fetches and decodes the given windows, in order, and no other. */
  method ReadWindows(file: Bytes, regionOff: nat, plan: Plan, sel: seq<nat>, needPositions: bool, inflate: Inflate, ghost s: Source, ghost posting: P.Posting)
    returns (r: Result<TermRead>)
    requires Opens(file, regionOff, plan, s, posting) && P.ValidChunks(posting.windows)
    requires P.Increasing(sel, |posting.windows|)
    ensures r.Ok? && r.value.windows == sel && C.DocsOf(r.value.docs, P.Select(posting.windows, sel))
    ensures needPositions ==> r.value.chunks == P.Select(posting.windows, sel)
  {
    var chunks: seq<P.Chunk>, docs: seq<nat> := [], [];
    ghost var all := P.Select(posting.windows, sel);
    for k := 0 to |sel|
      invariant C.DocsOf(docs, all[..k]) && (needPositions ==> chunks == all[..k])
    {
      C.SelectNext(posting.windows, sel, k, docs);
      var one := ReadOneWindow(file, regionOff, plan, sel[k], needPositions, inflate, s, posting);
      docs, chunks := docs + one.value.docids, chunks + [one.value];
    }
    assert all[..|sel|] == all;
    r := Ok(TermRead(chunks, docs, sel));
  }

  /** The driver's windows are all read; of a later term each window read covers a candidate. */
  ghost predicate ReadsOnly(posting: P.Posting, driver: bool, candidates: seq<nat>, windows: seq<nat>) {
    posting.Windowed? && !driver ==> forall k :: 0 <= k < |windows| ==> C.CoversSome(posting.directory.lasts, candidates, windows[k])
  }

  method ReadPlan(file: Bytes, regionOff: nat, plan: Plan, driver: bool, candidates: seq<nat>, needPositions: bool, inflate: Inflate, ghost posting: P.Posting)
    returns (r: Result<TermRead>, ghost sub: seq<P.Chunk>)
    requires PlanFor(file, regionOff, plan, needPositions, posting) && P.ValidPosting(posting) && Ascending(candidates)
    ensures r.Ok? && C.Serves(posting, driver, candidates, sub) && C.DocsOf(r.value.docs, sub)
    ensures (needPositions ==> r.value.chunks == sub) && ReadsOnly(posting, driver, candidates, r.value.windows)
  {
    match plan
    case FlatPlan(_, docids, prx) =>
      C.FlatServes(posting, driver, candidates);
      sub := [posting.chunk];
      r := Ok(TermRead([P.Chunk(docids, prx)], docids, []));
    case WindowPlan(_, _, _, pre) =>
      ghost var s :| Opens(file, regionOff, plan, s, posting);
      var sel := C.SelectWindows(DirectoryOf(pre), driver, candidates);
      C.SelectionServes(posting, driver, candidates, sel);
      sub := P.Select(posting.windows, sel);
      r := ReadWindows(file, regionOff, plan, sel, needPositions, inflate, s, posting);
  }

  // ----- all terms

  ghost predicate PlansFor(file: Bytes, regionOff: nat, plans: seq<Plan>, needPositions: bool, ps: seq<P.Posting>) {
    && |plans| == |ps|
    && forall t: nat {:trigger PlanFor(file, regionOff, plans[t], needPositions, ps[t])} :: t < |plans| ==> PlanFor(file, regionOff, plans[t], needPositions, ps[t])
  }

  /** A window read of the k-th term covers a document that holds every rarer one. */
  ghost predicate Wanted(ps: seq<P.Posting>, order: seq<nat>, k: nat, w: nat)
    requires Permutation(order, |ps|) && k < |ps| && ps[order[k]].Windowed?
  {
    exists d :: C.HasFirst(ps, order, k, d) && Covers(ps[order[k]].directory.lasts, d, w)
  }

  ghost predicate OnlyWanted(ps: seq<P.Posting>, order: seq<nat>, k: nat, windows: seq<nat>)
    requires Permutation(order, |ps|) && k < |ps|
  {
    k > 0 && ps[order[k]].Windowed? ==> forall i :: 0 <= i < |windows| ==> Wanted(ps, order, k, windows[i])
  }

  /** Terms are taken rarest first, and of every other term only such windows are read. */
  ghost predicate Selective(ps: seq<P.Posting>, order: seq<nat>, fetched: seq<seq<nat>>) {
    && Permutation(order, |ps|) && |ps| == |fetched|
    && (forall k, m :: 0 <= k < m < |order| ==> ps[order[k]].df <= ps[order[m]].df)
    && forall k: nat {:trigger OnlyWanted(ps, order, k, fetched[order[k]])} :: k < |ps| ==> OnlyWanted(ps, order, k, fetched[order[k]])
  }

  /** The order of the terms, the windows read of each, the chunks in them, and the documents
      that hold every term. */
  datatype Joined = Joined(order: seq<nat>, fetched: seq<seq<nat>>, srcs: seq<seq<P.Chunk>>, candidates: seq<nat>)

  lemma {:induction false} ReadsWanted(ps: seq<P.Posting>, order: seq<nat>, k: nat, subs: seq<seq<P.Chunk>>, candidates: seq<nat>, windows: seq<nat>)
    requires Permutation(order, |ps|) && k < |ps| && ReadsOnly(ps[order[k]], k == 0, candidates, windows)
    requires k > 0 ==> C.Narrowed(ps, order, k, subs, candidates)
    ensures OnlyWanted(ps, order, k, windows)
  {
    if k > 0 && ps[order[k]].Windowed? {
      forall i | 0 <= i < |windows| ensures Wanted(ps, order, k, windows[i]) {
        assert C.CoversSome(ps[order[k]].directory.lasts, candidates, windows[i]);
        var d :| d in candidates && Covers(ps[order[k]].directory.lasts, d, windows[i]);
        assert C.HasFirst(ps, order, k, d);
      }
    }
  }

  lemma {:induction false} SelectiveNext(ps: seq<P.Posting>, order: seq<nat>, fetched: seq<seq<nat>>, k: nat, windows: seq<nat>)
    requires Selective(ps, order, fetched) && k < |ps| && OnlyWanted(ps, order, k, windows)
    ensures Selective(ps, order, fetched[order[k] := windows])
  {
    var more := fetched[order[k] := windows];
    forall m: nat | m < |ps| ensures OnlyWanted(ps, order, m, more[order[m]]) {
      assert OnlyWanted(ps, order, m, fetched[order[m]]);
      assert m != k ==> order[m] != order[k];
    }
  }

  /** The documents that hold every term, and per term the chunks read on the way. */
  method JoinPlans(file: Bytes, regionOff: nat, plans: seq<Plan>, needPositions: bool, inflate: Inflate, ghost ps: seq<P.Posting>)
    returns (r: Result<Joined>)
    requires plans != [] && PlansFor(file, regionOff, plans, needPositions, ps) && P.AllValid(ps)
    ensures r.Ok? && Ascending(r.value.candidates) && forall d :: d in r.value.candidates <==> P.HasAll(ps, d)
    ensures |r.value.srcs| == |ps|
    ensures needPositions && r.value.candidates != [] ==>
              forall t {:trigger P.Chunks(ps[t])} :: 0 <= t < |ps| ==> P.Retains(r.value.srcs[t], P.Chunks(ps[t]), r.value.candidates)
    ensures Selective(ps, r.value.order, r.value.fetched)
  {
    forall t: nat | t < |plans| ensures plans[t].df == ps[t].df {
      assert PlanFor(file, regionOff, plans[t], needPositions, ps[t]);
    }
    var order := C.AscendingDfOrder(seq(|plans|, i requires 0 <= i < |plans| => plans[i].df));
    var srcs: seq<seq<P.Chunk>>, fetched: seq<seq<nat>>, candidates: seq<nat> := seq(|plans|, _ => []), seq(|plans|, _ => []), [];
    ghost var subs := srcs;
    for k := 0 to |plans|
      invariant |subs| == |srcs| == |ps| && Ascending(candidates) && (needPositions ==> srcs == subs)
      invariant k > 0 ==> C.Narrowed(ps, order, k, subs, candidates)
      invariant Selective(ps, order, fetched)
    {
      var ti := order[k];
      assert PlanFor(file, regionOff, plans[ti], needPositions, ps[ti]) && P.ValidPosting(ps[ti]);
      var one;
      ghost var sub;
      one, sub := ReadPlan(file, regionOff, plans[ti], k == 0, candidates, needPositions, inflate, ps[ti]);
      ReadsWanted(ps, order, k, subs, candidates, one.value.windows);
      SelectiveNext(ps, order, fetched, k, one.value.windows);
      var next := one.value.docs;
      if k > 0 {
        next := IntersectSorted(candidates, next);
      }
      C.NarrowStep(ps, order, k, subs, candidates, sub, one.value.docs, next);
      srcs, subs, fetched, candidates := srcs[ti := one.value.chunks], subs[ti := sub], fetched[ti := one.value.windows], next;
      if candidates == [] {
        C.NobodyLeft(ps, order, k + 1, subs, candidates);
        return Ok(Joined(order, fetched, srcs, candidates));
      }
    }
    C.EveryTermRead(ps, order, subs, candidates);
    r := Ok(Joined(order, fetched, srcs, candidates));
  }
}
