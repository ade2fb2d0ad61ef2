/** Testing a phrase on the candidates' positions, one streaming pass over all terms. */
module PhraseMatch {
  import opened Common
  import opened DocidSets
  import opened PositionalPostings
  import opened PostingCursor

  // ----- position arithmetic

  /** The offsets 0, 1, ..., count - 1; refused when they would not fit. */
  method BuildPositionOffsets(count: nat) returns (r: Option<seq<nat>>)
    ensures r.None? <==> count >= MAX32
    ensures r.Some? ==> Offsets(r.value, count)
  {
    if count >= MAX32 {
      return None;
    }
    var out: seq<nat> := [];
    while |out| < count
      invariant |out| <= count && Offsets(out, |out|)
    {
      out := out + [|out|];
    }
    r := Some(out);
  }

  ghost predicate Offsets(offsets: seq<nat>, count: nat) {
    |offsets| == count && forall i :: 0 <= i < count ==> offsets[i] == i
  }

  /** Nothing rather than a wrapped sum. */
  function AddPositionOffset(start: nat, offset: nat): (r: Option<nat>)
    requires start <= MAX32 && offset <= MAX32
    ensures r.Some? ==> r.value <= MAX32
  {
    if start > MAX32 - offset then None else Some(start + offset)
  }

  // ----- one document

  ghost predicate PositionLists(spans: seq<seq<nat>>) {
    forall t {:trigger PositionList(spans[t])} :: 0 <= t < |spans| ==> PositionList(spans[t])
  }

  ghost predicate AlignedFrom(spans: seq<seq<nat>>, p: nat, from: nat) {
    forall t :: from <= t < |spans| ==> p + t in spans[t]
  }

  /** Does every later term stand at its offset from `start`? */
  method Follows(spans: seq<seq<nat>>, offsets: seq<nat>, start: nat) returns (ok: bool)
    requires spans != [] && PositionLists(spans) && start <= MAX32
    requires Offsets(offsets, |offsets|) && |spans| <= |offsets| < MAX32
    ensures ok <==> AlignedFrom(spans, start, 1)
  {
    for t := 1 to |spans|
      invariant forall u :: 1 <= u < t ==> start + u in spans[u]
    {
      assert PositionList(spans[t]);
      var want := AddPositionOffset(start, offsets[t]);
      if want.None? {
        return false;
      }
      var found := BinarySearch(spans[t], want.value);
      if !found {
        return false;
      }
    }
    ok := true;
  }

  method SpansMatch(spans: seq<seq<nat>>, offsets: seq<nat>) returns (found: bool)
    requires spans != [] && PositionLists(spans) && Offsets(offsets, |offsets|) && |spans| <= |offsets| < MAX32
    ensures found <==> exists p: nat :: AlignedFrom(spans, p, 0)
  {
    assert PositionList(spans[0]);
    for k := 0 to |spans[0]|
      invariant forall x :: 0 <= x < k ==> !AlignedFrom(spans, spans[0][x], 1)
    {
      var ok := Follows(spans, offsets, spans[0][k]);
      if ok {
        assert AlignedFrom(spans, spans[0][k], 0);
        return true;
      }
    }
    forall p: nat | AlignedFrom(spans, p, 0) ensures false {
      assert p + 0 in spans[0] && AlignedFrom(spans, p, 1);
    }
    found := false;
  }

  /** A following term would have to stand at `q`. */
  ghost predicate TailPosition(spans: seq<seq<nat>>, q: nat) {
    |spans| <= q <= MAX32 && AlignedFrom(spans, q - |spans|, 0)
  }

  lemma {:induction false} AlignedAtStart(spans: seq<seq<nat>>, p: nat)
    requires spans != []
    ensures AlignedFrom(spans, p, 0) <==> p in spans[0] && AlignedFrom(spans, p, 1)
  {
    if AlignedFrom(spans, p, 0) {
      assert p + 0 in spans[0];
    }
  }

  /** The tail of the occurrence that starts at `p`, if one does and its tail fits. */
  method TailFrom(spans: seq<seq<nat>>, offsets: seq<nat>, p: nat) returns (r: Option<nat>)
    requires spans != [] && PositionLists(spans) && Offsets(offsets, |spans| + 1) && |offsets| < MAX32
    requires p in spans[0] && p <= MAX32
    ensures r.Some? <==> TailPosition(spans, p + |spans|)
    ensures r.Some? ==> r.value == p + |spans|
  {
    var ok := Follows(spans, offsets, p);
    AlignedAtStart(spans, p);
    assert p + |spans| - |spans| == p;
    r := AddPositionOffset(p, offsets[|spans|]);
    if !ok {
      r := None;
    }
  }

  /** The tails of the occurrences that start at one of the first `k` positions. */
  ghost predicate TailsOf(spans: seq<seq<nat>>, k: nat, tails: seq<nat>) {
    && spans != [] && k <= |spans[0]|
    && (forall q: nat {:trigger TailPosition(spans, q)} :: q in tails ==> TailPosition(spans, q))
    && forall x {:trigger spans[0][x]} :: 0 <= x < k && TailPosition(spans, spans[0][x] + |spans|) ==> spans[0][x] + |spans| in tails
  }

  lemma {:induction false} TailsNext(spans: seq<seq<nat>>, k: nat, tails: seq<nat>, r: Option<nat>)
    requires TailsOf(spans, k, tails) && k < |spans[0]|
    requires r.Some? <==> TailPosition(spans, spans[0][k] + |spans|)
    requires r.Some? ==> r.value == spans[0][k] + |spans|
    ensures TailsOf(spans, k + 1, if r.Some? then tails + [r.value] else tails)
  {
  }

  lemma {:induction false} AllTails(spans: seq<seq<nat>>, tails: seq<nat>, q: nat)
    requires spans != [] && TailsOf(spans, |spans[0]|, tails) && TailPosition(spans, q)
    ensures q in tails
  {
    AlignedAtStart(spans, q - |spans|);
    var x :| 0 <= x < |spans[0]| && spans[0][x] == q - |spans|;
    assert spans[0][x] + |spans| == q;
  }

  /** The tail positions, one per occurrence of the phrase. */
  method TailPositions(spans: seq<seq<nat>>, offsets: seq<nat>) returns (tails: seq<nat>)
    requires spans != [] && PositionLists(spans) && Offsets(offsets, |spans| + 1) && |offsets| < MAX32
    ensures forall q: nat {:trigger TailPosition(spans, q)} {:trigger q in tails} :: q in tails <==> TailPosition(spans, q)
  {
    tails := [];
    assert PositionList(spans[0]);
    for k := 0 to |spans[0]|
      invariant TailsOf(spans, k, tails)
    {
      var tail := TailFrom(spans, offsets, spans[0][k]);
      TailsNext(spans, k, tails, tail);
      if tail.Some? {
        tails := tails + [tail.value];
      }
    }
    forall q: nat | TailPosition(spans, q) ensures q in tails {
      AllTails(spans, tails, q);
    }
  }

  // ----- one cursor per term

  ghost predicate Good(c: Cursor, src: seq<Chunk>, bound: nat)
    reads c
  {
    c.src == src && c.Valid() && c.Behind(bound)
  }

  ghost predicate Ready(cs: seq<Cursor>, srcs: seq<seq<Chunk>>, bound: nat)
    reads cs
  {
    && |cs| == |srcs|
    && (forall i, j :: 0 <= i < j < |cs| ==> cs[i] != cs[j])
    && (forall i {:trigger Good(cs[i], srcs[i], bound)} :: 0 <= i < |cs| ==> Good(cs[i], srcs[i], bound))
  }

  lemma {:induction false} ReadyLater(cs: seq<Cursor>, srcs: seq<seq<Chunk>>, bound: nat, later: nat)
    requires Ready(cs, srcs, bound) && bound <= later
    ensures Ready(cs, srcs, later)
  {
    forall i | 0 <= i < |cs| ensures Good(cs[i], srcs[i], later) {
      assert Good(cs[i], srcs[i], bound);
    }
  }

  ghost predicate AllChunksValid(srcs: seq<seq<Chunk>>) {
    forall t {:trigger ValidChunks(srcs[t])} :: 0 <= t < |srcs| ==> ValidChunks(srcs[t])
  }

  method OpenCursors(srcs: seq<seq<Chunk>>) returns (cs: seq<Cursor>)
    requires AllChunksValid(srcs)
    ensures Ready(cs, srcs, 0) && fresh(cs)
  {
    cs := [];
    for i := 0 to |srcs|
      invariant Ready(cs, srcs[..i], 0) && fresh(cs)
    {
      assert ValidChunks(srcs[i]);
      var c := new Cursor(srcs[i]);
      ghost var was := cs;
      cs := cs + [c];
      forall j | 0 <= j < |cs| ensures Good(cs[j], srcs[..i + 1][j], 0) {
        if j < i {
          assert Good(was[j], srcs[..i][j], 0);
        }
      }
    }
    assert srcs[..|srcs|] == srcs;
  }

  ghost predicate EachHas(srcs: seq<seq<Chunk>>, d: nat) {
    forall t {:trigger Has(srcs[t], d)} :: 0 <= t < |srcs| ==> Has(srcs[t], d)
  }

  ghost predicate SpansAre(spans: seq<seq<nat>>, srcs: seq<seq<Chunk>>, n: nat, d: nat) {
    n <= |srcs| && |spans| == n && forall t {:trigger spans[t]} :: 0 <= t < n ==> spans[t] == PositionsAt(srcs[t], d)
  }

  /** Every cursor moves to `d` and yields its term's positions there. */
  method SpansAt(cs: seq<Cursor>, srcs: seq<seq<Chunk>>, d: nat) returns (r: Result<seq<seq<nat>>>)
    requires Ready(cs, srcs, d) && EachHas(srcs, d)
    modifies cs
    ensures Ready(cs, srcs, d)
    ensures r.Ok? && SpansAre(r.value, srcs, |srcs|, d) && PositionLists(r.value)
  {
    var spans := [];
    for t := 0 to |cs|
      invariant Ready(cs, srcs, d) && SpansAre(spans, srcs, t, d) && PositionLists(spans)
    {
      assert Good(cs[t], srcs[t], d) && Has(srcs[t], d);
      cs[t].Seek(d);
      var ps := cs[t].Positions();
      PositionsWhere(srcs[t], d, cs[t].ci, cs[t].li);
      ghost var was := spans;
      spans := spans + [ps.value];
      assert Good(cs[t], srcs[t], d);
      forall u | 0 <= u < |spans| ensures PositionList(spans[u]) {
        assert u < t ==> PositionList(was[u]);
      }
    }
    r := Ok(spans);
  }

  /** The phrase over the chunks read. */
  ghost predicate PhraseOver(srcs: seq<seq<Chunk>>, d: nat, p: nat) {
    forall k {:trigger srcs[k]} :: 0 <= k < |srcs| ==> p + k in PositionsAt(srcs[k], d)
  }

  lemma {:induction false} AlignedIsPhrase(spans: seq<seq<nat>>, srcs: seq<seq<Chunk>>, d: nat)
    requires SpansAre(spans, srcs, |srcs|, d)
    ensures forall p: nat :: AlignedFrom(spans, p, 0) <==> PhraseOver(srcs, d, p)
  {
    forall p: nat ensures AlignedFrom(spans, p, 0) <==> PhraseOver(srcs, d, p) {
      if AlignedFrom(spans, p, 0) {
        forall k | 0 <= k < |srcs| ensures p + k in PositionsAt(srcs[k], d) {
          assert p + k in spans[k];
        }
      }
      if PhraseOver(srcs, d, p) {
        forall k | 0 <= k < |spans| ensures p + k in spans[k] {
          assert p + k in PositionsAt(srcs[k], d);
        }
      }
    }
  }

  /** One streaming pass: the candidates in which the phrase occurs, ascending. */
  method EmitPhraseStreaming(srcs: seq<seq<Chunk>>, offsets: seq<nat>, candidates: seq<nat>) returns (r: Result<seq<nat>>)
    requires srcs != [] && AllChunksValid(srcs) && Offsets(offsets, |srcs|) && |srcs| < MAX32
    requires Ascending(candidates) && forall x :: 0 <= x < |candidates| ==> EachHas(srcs, candidates[x])
    ensures r.Ok? && Ascending(r.value)
    ensures forall d :: d in r.value <==> d in candidates && exists p: nat :: PhraseOver(srcs, d, p)
  {
    var cs := OpenCursors(srcs);
    var docids := [];
    ghost var bound := 0;
    for n := 0 to |candidates|
      invariant Ready(cs, srcs, bound) && fresh(cs) && (n < |candidates| ==> bound <= candidates[n])
      invariant Ascending(docids) && (docids != [] ==> n > 0 && docids[|docids| - 1] <= candidates[n - 1])
      invariant forall x :: 0 <= x < |docids| ==> docids[x] in candidates && exists p: nat :: PhraseOver(srcs, docids[x], p)
      invariant forall x :: 0 <= x < n && (exists p: nat :: PhraseOver(srcs, candidates[x], p)) ==> candidates[x] in docids
    {
      var d := candidates[n];
      ReadyLater(cs, srcs, bound, d);
      var spans := SpansAt(cs, srcs, d);
      bound := d;
      AlignedIsPhrase(spans.value, srcs, d);
      var found := SpansMatch(spans.value, offsets);
      if found {
        AscendingSnoc(docids, d);
        docids := docids + [d];
      }
    }
    r := Ok(docids);
  }

  // ----- expected tail positions

  datatype Expected = Expected(docid: nat, positions: seq<nat>)

  /** Position `q` comes right after an occurrence of the phrase. */
  ghost predicate TailIn(srcs: seq<seq<Chunk>>, d: nat, q: nat) {
    |srcs| <= q <= MAX32 && PhraseOver(srcs, d, q - |srcs|)
  }

  /** `e` lists the positions after each occurrence of the phrase in its document. */
  ghost predicate ExpectedAt(e: Expected, srcs: seq<seq<Chunk>>) {
    && e.positions != []
    && forall q: nat {:trigger TailIn(srcs, e.docid, q)} {:trigger q in e.positions} :: q in e.positions <==> TailIn(srcs, e.docid, q)
  }

  ghost predicate ByDocid(es: seq<Expected>) {
    forall x, y :: 0 <= x < y < |es| ==> es[x].docid < es[y].docid
  }

  ghost predicate ExpectedList(es: seq<Expected>, srcs: seq<seq<Chunk>>) {
    && ByDocid(es)
    && (forall x {:trigger ExpectedAt(es[x], srcs)} :: 0 <= x < |es| ==> ExpectedAt(es[x], srcs))
  }

  ghost predicate Listed(es: seq<Expected>, d: nat) {
    exists x :: 0 <= x < |es| && es[x].docid == d
  }

  ghost predicate Continues(srcs: seq<seq<Chunk>>, d: nat) {
    exists p: nat :: PhraseOver(srcs, d, p) && p + |srcs| <= MAX32
  }

  /** Exactly the tail positions of a document. */
  ghost predicate TailsAre(tails: seq<nat>, srcs: seq<seq<Chunk>>, d: nat) {
    forall q: nat {:trigger TailIn(srcs, d, q)} {:trigger q in tails} :: q in tails <==> TailIn(srcs, d, q)
  }

  lemma {:induction false} AlignedTails(spans: seq<seq<nat>>, srcs: seq<seq<Chunk>>, d: nat, tails: seq<nat>)
    requires SpansAre(spans, srcs, |srcs|, d)
    requires forall q: nat {:trigger TailPosition(spans, q)} {:trigger q in tails} :: q in tails <==> TailPosition(spans, q)
    ensures TailsAre(tails, srcs, d)
  {
    AlignedIsPhrase(spans, srcs, d);
    assert forall q: nat :: TailPosition(spans, q) <==> TailIn(srcs, d, q);
  }

  /** The positions right after the phrase in one document, by seeking every cursor to it. */
  method TailsAt(cs: seq<Cursor>, srcs: seq<seq<Chunk>>, offsets: seq<nat>, d: nat, ghost bound: nat) returns (tails: seq<nat>)
    requires srcs != [] && Offsets(offsets, |srcs| + 1) && |offsets| < MAX32
    requires Ready(cs, srcs, bound) && bound <= d && EachHas(srcs, d)
    modifies cs
    ensures Ready(cs, srcs, d) && TailsAre(tails, srcs, d)
  {
    ReadyLater(cs, srcs, bound, d);
    var spans := SpansAt(cs, srcs, d);
    tails := TailPositions(spans.value, offsets);
    AlignedTails(spans.value, srcs, d, tails);
  }

  method CollectExpectedTailPositions(srcs: seq<seq<Chunk>>, offsets: seq<nat>, candidates: seq<nat>)
    returns (r: Result<seq<Expected>>)
    requires srcs != [] && AllChunksValid(srcs) && Offsets(offsets, |srcs| + 1) && |offsets| < MAX32
    requires Ascending(candidates) && forall x :: 0 <= x < |candidates| ==> EachHas(srcs, candidates[x])
    ensures r.Ok? && ExpectedList(r.value, srcs)
    ensures forall x :: 0 <= x < |r.value| ==> r.value[x].docid in candidates
    ensures forall d :: d in candidates && Continues(srcs, d) ==> Listed(r.value, d)
  {
    var cs := OpenCursors(srcs);
    var out: seq<Expected> := [];
    ghost var bound := 0;
    for n := 0 to |candidates|
      invariant Ready(cs, srcs, bound) && fresh(cs) && (n < |candidates| ==> bound <= candidates[n])
      invariant Collected(out, srcs, candidates, n)
    {
      var d := candidates[n];
      var tails := TailsAt(cs, srcs, offsets, d, bound);
      bound := d;
      NextCollected(out, srcs, candidates, n, tails);
      if tails != [] {
        out := out + [Expected(d, tails)];
      }
    }
    AllCollected(out, srcs, candidates);
    r := Ok(out);
  }

  /** What the first `n` candidates leave behind. */
  ghost predicate Collected(es: seq<Expected>, srcs: seq<seq<Chunk>>, ds: seq<nat>, n: nat) {
    ExpectedList(es, srcs) && AllListed(es, srcs, ds, n) && Ends(es, ds, n)
  }

  ghost predicate Among(es: seq<Expected>, ds: seq<nat>) {
    forall x :: 0 <= x < |es| ==> es[x].docid in ds
  }

  lemma {:induction false} NextCollected(es: seq<Expected>, srcs: seq<seq<Chunk>>, ds: seq<nat>, n: nat, tails: seq<nat>)
    requires Ascending(ds) && n < |ds| && Collected(es, srcs, ds, n) && TailsAre(tails, srcs, ds[n])
    ensures Collected(if tails != [] then es + [Expected(ds[n], tails)] else es, srcs, ds, n + 1)
  {
    EndsGrow(es, ds, n, tails);
    NextListed(es, srcs, ds, n, tails);
  }

  ghost predicate Ends(es: seq<Expected>, ds: seq<nat>, n: nat) {
    n <= |ds| && (es != [] ==> n > 0 && es[|es| - 1].docid <= ds[n - 1]) && Among(es, ds)
  }

  lemma {:induction false} EndsGrow(es: seq<Expected>, ds: seq<nat>, n: nat, tails: seq<nat>)
    requires Ascending(ds) && n < |ds| && Ends(es, ds, n)
    ensures es != [] ==> es[|es| - 1].docid < ds[n]
    ensures Ends(es, ds, n + 1) && Ends(es + [Expected(ds[n], tails)], ds, n + 1)
  {
    assert n > 0 ==> ds[n - 1] < ds[n];
    AmongSnoc(es, ds, n, tails);
  }

  lemma {:induction false} AmongSnoc(es: seq<Expected>, ds: seq<nat>, n: nat, tails: seq<nat>)
    requires n < |ds| && Among(es, ds)
    ensures Among(es + [Expected(ds[n], tails)], ds)
  {
  }

  lemma {:induction false} AllCollected(es: seq<Expected>, srcs: seq<seq<Chunk>>, ds: seq<nat>)
    requires Collected(es, srcs, ds, |ds|)
    ensures forall d :: d in ds && Continues(srcs, d) ==> Listed(es, d)
  {
    forall d | d in ds && Continues(srcs, d) ensures Listed(es, d) {
      var x :| 0 <= x < |ds| && ds[x] == d;
      assert Continues(srcs, ds[x]);
    }
  }

  lemma {:induction false} ExpectedSnoc(es: seq<Expected>, srcs: seq<seq<Chunk>>, e: Expected)
    requires ExpectedList(es, srcs) && ExpectedAt(e, srcs) && (es != [] ==> es[|es| - 1].docid < e.docid)
    ensures ExpectedList(es + [e], srcs) && Listed(es + [e], e.docid)
  {
    var r := es + [e];
    assert r[|es|].docid == e.docid;
    forall x | 0 <= x < |r| ensures ExpectedAt(r[x], srcs) {
      assert x < |es| ==> ExpectedAt(es[x], srcs);
    }
  }

  lemma {:induction false} NoContinuation(srcs: seq<seq<Chunk>>, d: nat, tails: seq<nat>)
    requires tails == [] && TailsAre(tails, srcs, d)
    ensures !Continues(srcs, d)
  {
    forall p: nat | p + |srcs| <= MAX32 ensures !PhraseOver(srcs, d, p) {
      var q := p + |srcs|;
      assert q !in tails && q - |srcs| == p;
      assert !TailIn(srcs, d, q);
    }
  }

  ghost predicate AllListed(es: seq<Expected>, srcs: seq<seq<Chunk>>, ds: seq<nat>, n: nat) {
    forall x {:trigger Continues(srcs, ds[x])} :: 0 <= x < n <= |ds| && Continues(srcs, ds[x]) ==> Listed(es, ds[x])
  }

  /** The next candidate is listed exactly when it has tail positions. */
  lemma {:induction false} NextListed(es: seq<Expected>, srcs: seq<seq<Chunk>>, ds: seq<nat>, n: nat, tails: seq<nat>)
    requires n < |ds| && ExpectedList(es, srcs) && AllListed(es, srcs, ds, n) && (es != [] ==> es[|es| - 1].docid < ds[n])
    requires TailsAre(tails, srcs, ds[n])
    ensures var es' := if tails != [] then es + [Expected(ds[n], tails)] else es;
            ExpectedList(es', srcs) && AllListed(es', srcs, ds, n + 1)
  {
    if tails == [] {
      NoContinuation(srcs, ds[n], tails);
    } else {
      var e := Expected(ds[n], tails);
      ExpectedSnoc(es, srcs, e);
      var es' := es + [e];
      forall x | 0 <= x < n && Continues(srcs, ds[x]) ensures Listed(es', ds[x]) {
        assert Listed(es, ds[x]);
        var y :| 0 <= y < |es| && es[y].docid == ds[x];
        assert es'[y].docid == ds[x];
      }
    }
  }

  // ----- matching a tail term against them

  method ContainsAny(wanted: seq<nat>, actual: seq<nat>) returns (b: bool)
    requires Sorted(actual)
    ensures b <==> exists q :: q in wanted && q in actual
  {
    for k := 0 to |wanted|
      invariant forall x :: 0 <= x < k ==> wanted[x] !in actual
    {
      var found := BinarySearch(actual, wanted[k]);
      if found {
        return true;
      }
    }
    b := false;
  }

  /** The tail term stands where some occurrence of the phrase expects it. */
  ghost predicate TailHit(e: Expected, src: seq<Chunk>) {
    exists q :: q in e.positions && q in PositionsAt(src, e.docid)
  }

  ghost predicate SomeTailHit(es: seq<Expected>, src: seq<Chunk>, d: nat) {
    exists x :: 0 <= x < |es| && es[x].docid == d && TailHit(es[x], src)
  }

  /** `out` holds the hits among the first `n` expected documents. */
  ghost predicate Hits(es: seq<Expected>, src: seq<Chunk>, n: nat, out: seq<nat>) {
    && Ascending(out) && (out != [] && n < |es| ==> out[|out| - 1] < es[n].docid)
    && (forall x {:trigger SomeTailHit(es, src, out[x])} :: 0 <= x < |out| ==> SomeTailHit(es, src, out[x]))
    && (forall x {:trigger TailHit(es[x], src)} :: 0 <= x < n <= |es| && TailHit(es[x], src) ==> es[x].docid in out)
  }

  lemma {:induction false} HitStep(es: seq<Expected>, src: seq<Chunk>, n: nat, out: seq<nat>, out': seq<nat>)
    requires n < |es| && ByDocid(es) && Hits(es, src, n, out)
    requires out' == if TailHit(es[n], src) then out + [es[n].docid] else out
    ensures Hits(es, src, n + 1, out')
  {
    if TailHit(es[n], src) {
      AscendingSnoc(out, es[n].docid);
      SoundSnoc(es, src, n, out);
    }
    forall x | 0 <= x < n + 1 && TailHit(es[x], src) ensures es[x].docid in out' {
      if x < n {
        assert es[x].docid in out;
      } else {
        assert out'[|out|] == es[x].docid;
      }
    }
  }

  lemma {:induction false} SoundSnoc(es: seq<Expected>, src: seq<Chunk>, n: nat, out: seq<nat>)
    requires n < |es| && TailHit(es[n], src)
    requires forall x {:trigger SomeTailHit(es, src, out[x])} :: 0 <= x < |out| ==> SomeTailHit(es, src, out[x])
    ensures var out' := out + [es[n].docid];
            forall x {:trigger SomeTailHit(es, src, out'[x])} :: 0 <= x < |out'| ==> SomeTailHit(es, src, out'[x])
  {
    var out' := out + [es[n].docid];
    forall x | 0 <= x < |out'| ensures SomeTailHit(es, src, out'[x]) {
      if x < |out| {
        assert SomeTailHit(es, src, out[x]);
      }
    }
  }

  lemma {:induction false} AllHits(es: seq<Expected>, src: seq<Chunk>, n: nat, out: seq<nat>)
    requires n <= |es| && Hits(es, src, n, out) && forall x :: n <= x < |es| ==> !TailHit(es[x], src)
    ensures Ascending(out) && forall d :: d in out <==> SomeTailHit(es, src, d)
  {
    forall d | SomeTailHit(es, src, d) ensures d in out {
      var x :| 0 <= x < |es| && es[x].docid == d && TailHit(es[x], src);
    }
    forall d | d in out ensures SomeTailHit(es, src, d) {
      var x :| 0 <= x < |out| && out[x] == d;
      assert SomeTailHit(es, src, out[x]);
    }
  }

  method TailAt(cursor: Cursor, e: Expected) returns (hit: bool)
    requires cursor.Valid() && cursor.Behind(e.docid) && Has(cursor.src, e.docid)
    modifies cursor
    ensures cursor.Valid() && cursor.Behind(e.docid)
    ensures hit <==> TailHit(e, cursor.src)
  {
    cursor.Seek(e.docid);
    var actual := cursor.Positions();
    PositionsWhere(cursor.src, e.docid, cursor.ci, cursor.li);
    hit := ContainsAny(e.positions, actual.value);
  }

  /** Merges the expected documents with the tail term's own; `cs` is the whole posting,
      `src` what was read of it. */
  method CollectTailMatches(src: seq<Chunk>, candidates: seq<nat>, expected: seq<Expected>, ghost cs: seq<Chunk>)
    returns (r: Result<seq<nat>>)
    requires Retains(src, cs, candidates) && Ascending(candidates) && forall d :: d in candidates <==> Has(cs, d)
    requires ByDocid(expected)
    ensures r.Ok? && Ascending(r.value)
    ensures forall d :: d in r.value <==> SomeTailHit(expected, cs, d)
  {
    var cursor := new Cursor(src);
    var out: seq<nat> := [];
    var ei: nat, ti: nat := 0, 0;
    while ei < |expected| && ti < |candidates|
      invariant ei <= |expected| && ti <= |candidates|
      invariant fresh(cursor) && cursor.src == src && cursor.Valid()
      invariant ei < |expected| ==> cursor.Behind(expected[ei].docid)
      invariant forall y :: 0 <= y < ti && ei < |expected| ==> candidates[y] < expected[ei].docid
      invariant Hits(expected, cs, ei, out)
      decreases |expected| - ei + |candidates| - ti
    {
      var e, tailDoc := expected[ei], candidates[ti];
      if e.docid < tailDoc {
        NotAmong(cs, candidates, ti, e);
        HitStep(expected, cs, ei, out, out);
        ei := ei + 1;
      } else if tailDoc < e.docid {
        ti := ti + 1;
      } else {
        assert tailDoc in candidates && Has(src, tailDoc);
        var hit := TailAt(cursor, e);
        HitStep(expected, cs, ei, out, if hit then out + [e.docid] else out);
        if hit {
          out := out + [e.docid];
        }
        ei, ti := ei + 1, ti + 1;
      }
    }
    RestMiss(cs, candidates, expected, ei, ti);
    AllHits(expected, cs, ei, out);
    r := Ok(out);
  }

  lemma {:induction false} NotAmong(cs: seq<Chunk>, candidates: seq<nat>, ti: nat, e: Expected)
    requires Ascending(candidates) && ti < |candidates| && e.docid < candidates[ti]
    requires forall y :: 0 <= y < ti ==> candidates[y] < e.docid
    requires forall d :: d in candidates <==> Has(cs, d)
    ensures !TailHit(e, cs)
  {
    assert e.docid !in candidates;
    NoPositions(cs, e.docid);
  }

  lemma {:induction false} NoPositions(src: seq<Chunk>, d: nat)
    requires !Has(src, d)
    ensures PositionsAt(src, d) == []
  {
  }

  lemma {:induction false} RestMiss(src: seq<Chunk>, candidates: seq<nat>, expected: seq<Expected>, ei: nat, ti: nat)
    requires ei <= |expected| && (ei < |expected| ==> ti == |candidates|)
    requires ByDocid(expected)
    requires forall y :: 0 <= y < |candidates| && y < ti && ei < |expected| ==> candidates[y] < expected[ei].docid
    requires forall d :: d in candidates <==> Has(src, d)
    ensures forall x :: ei <= x < |expected| ==> !TailHit(expected[x], src)
  {
    forall x | ei <= x < |expected| ensures !TailHit(expected[x], src) {
      assert expected[x].docid !in candidates;
      NoPositions(src, expected[x].docid);
    }
  }
}
