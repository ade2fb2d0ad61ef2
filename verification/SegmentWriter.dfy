/** Writing a whole dictionary: term by term into the posting region, their entries gathered
    into blocks that are closed at any point. */
module SegmentWriter {
  import opened Common
  import opened TermDict
  import opened Dictionary
  import opened WindowedLayout
  import opened WindowedWriter
  import opened SlimEntries
  import DB = DictBlocks
  import D = DictEntries

  // ----- entries in blocks

  lemma {:induction false} HitsPrefix(bs: seq<DB.Block>, b: DB.Block, lo: nat, hi: nat)
    requires lo <= hi <= |bs|
    ensures AllHits(bs + [b], lo, hi) == AllHits(bs, lo, hi)
    decreases hi - lo
  {
    if lo < hi {
      HitsPrefix(bs, b, lo + 1, hi);
    }
  }

  lemma {:induction false} HitsSnoc(bs: seq<DB.Block>, b: DB.Block)
    ensures AllHits(bs + [b], 0, |bs| + 1) == AllHits(bs, 0, |bs|) + HitsOf(b)
  {
    HitsSplit(bs + [b], 0, |bs|, |bs| + 1);
    HitsPrefix(bs, b, 0, |bs|);
    assert AllHits(bs + [b], |bs| + 1, |bs| + 1) == [];
    assert HitsOf(b) + [] == HitsOf(b);
  }

  /** Finished blocks and the one still open. */
  function HitsNow(bs: seq<DB.Block>, open: Option<DB.Block>): seq<Entry<Hit>> {
    AllHits(bs, 0, |bs|) + (if open.Some? then HitsOf(open.value) else [])
  }

  lemma {:induction false} HitAdded(bs: seq<DB.Block>, b: DB.Block, e: D.DictEntry)
    ensures HitsNow(bs, Some(b.(entries := b.entries + [e]))) == HitsNow(bs, Some(b)) + [Entry(e.term, Hit(e, b.frqBase, b.prxBase))]
  {
    assert HitsOf(b.(entries := b.entries + [e])) == HitsOf(b) + [Entry(e.term, Hit(e, b.frqBase, b.prxBase))];
  }

  lemma {:induction false} BlockClosed(bs: seq<DB.Block>, b: DB.Block)
    ensures HitsNow(bs + [b], None) == HitsNow(bs, Some(b))
  {
    HitsSnoc(bs, b);
  }

  // ----- what was written

  ghost predicate HitIs(region: Bytes, h: Entry<Hit>, t: Entry<TermPostings>, f: Features, w: EntryBytes) {
    && h.term == t.term && h.value.frqBase == h.value.prxBase <= |region|
    && EntryWritten(region, h.value.frqBase, h.value.entry, t.term, t.value, f, w)
  }

  ghost predicate HitsAre(region: Bytes, hits: seq<Entry<Hit>>, ts: seq<Entry<TermPostings>>, f: Features, ws: seq<EntryBytes>) {
    && |hits| == |ws| <= |ts|
    && forall i: nat {:trigger HitIs(region, hits[i], ts[i], f, ws[i])} :: i < |hits| ==> HitIs(region, hits[i], ts[i], f, ws[i])
  }

  lemma {:induction false} HitsGrow(region: Bytes, more: Bytes, hits: seq<Entry<Hit>>, ts: seq<Entry<TermPostings>>, f: Features, ws: seq<EntryBytes>)
    requires HitsAre(region, hits, ts, f, ws)
    ensures HitsAre(region + more, hits, ts, f, ws)
  {
    forall i: nat | i < |hits| ensures HitIs(region + more, hits[i], ts[i], f, ws[i]) {
      assert HitIs(region, hits[i], ts[i], f, ws[i]);
      PostingGrows(region, hits[i].value.frqBase, hits[i].value.entry.locator, ts[i].value, f, ws[i], more);
    }
  }

  lemma {:induction false} SameHit(region: Bytes, h: Entry<Hit>, h': Entry<Hit>, t: Entry<TermPostings>, f: Features, w: EntryBytes, w': EntryBytes)
    requires HitIs(region, h, t, f, w) && h' == h && w' == w
    ensures HitIs(region, h', t, f, w')
  {
  }

  /** A hit of the list, in the longer list. */
  lemma {:induction false} HitBefore(region: Bytes, hits: seq<Entry<Hit>>, ts: seq<Entry<TermPostings>>, f: Features, ws: seq<EntryBytes>, more: seq<Entry<Hit>>, with: seq<EntryBytes>, i: nat)
    requires HitsAre(region, hits, ts, f, ws) && i < |hits| && |more| == |with| && hits <= more && ws <= with
    ensures HitIs(region, more[i], ts[i], f, with[i])
  {
    SameHit(region, hits[i], more[i], ts[i], f, ws[i], with[i]);
  }

  lemma {:induction false} HitsSnocAre(region: Bytes, hits: seq<Entry<Hit>>, ts: seq<Entry<TermPostings>>, f: Features, ws: seq<EntryBytes>, more: seq<Entry<Hit>>, with: seq<EntryBytes>)
    requires HitsAre(region, hits, ts, f, ws) && |hits| < |ts| && |more| == |with| == |hits| + 1 && hits <= more && ws <= with
    requires HitIs(region, more[|hits|], ts[|hits|], f, with[|hits|])
    ensures HitsAre(region, more, ts, f, with)
  {
    forall i: nat | i < |hits| ensures HitIs(region, more[i], ts[i], f, with[i]) {
      HitBefore(region, hits, ts, f, ws, more, with, i);
    }
  }

  ghost predicate AllBuildable(bs: seq<DB.Block>, f: Features) {
    forall k {:trigger Dictionary.Buildable(bs[k], f.hasFreq, f.hasPrx)} :: 0 <= k < |bs| ==> Dictionary.Buildable(bs[k], f.hasFreq, f.hasPrx)
  }

  ghost predicate TermGood(t: Entry<TermPostings>, f: Features) {
    WindowedLayout.ValidTerm(t.value, f.hasPrx) && GoodTo(t.value, f, |t.value.docids|)
  }

  ghost predicate AllTyped(ts: seq<Entry<TermPostings>>) {
    forall i: nat {:trigger Typed(ts[i].value)} :: i < |ts| ==> Typed(ts[i].value)
  }

  ghost predicate GoodTerms(ts: seq<Entry<TermPostings>>, f: Features, n: nat) {
    n <= |ts| && forall i: nat {:trigger TermGood(ts[i], f)} :: i < n ==> TermGood(ts[i], f)
  }

  /** The state between two terms. */
  ghost predicate Standing(region: Bytes, bs: seq<DB.Block>, open: Option<DB.Block>, ts: seq<Entry<TermPostings>>, f: Features, ws: seq<EntryBytes>) {
    && HitsAre(region, HitsNow(bs, open), ts, f, ws) && AllBuildable(bs, f)
    && (open.Some? ==> open.value.frqBase == open.value.prxBase <= |region| && Dictionary.Buildable(open.value, f.hasFreq, f.hasPrx))
  }

  /** One term: its posting behind the others, its entry at the end of the open block. */
  method ProcessTerm(t: Entry<TermPostings>, b: DB.Block, f: Features, region: Bytes, ghost bs: seq<DB.Block>, ghost ts: seq<Entry<TermPostings>>, ghost ws: seq<EntryBytes>)
    returns (r: Result<DB.Block>, region': Bytes, ghost w: EntryBytes)
    requires Typed(t.value) && b.interval > 0 && b.rich == f.hasFreq && b.hasPositions == f.hasPrx && b.frqBase == b.prxBase <= |region|
    requires HitsAre(region, HitsNow(bs, Some(b)), ts, f, ws) && |ws| < |ts| && ts[|ws|] == t && AllBuildable(bs, f)
    ensures r.Ok? <==> TermGood(t, f)
    ensures r.Ok? ==> Standing(region', bs, Some(r.value), ts, f, ws + [w])
  {
    var e;
    e, region', w := BuildEntry(t.term, t.value, false, f, region, b.frqBase);
    if e.Error? {
      r := Error(e.status);
      return;
    }
    var b' := b.(entries := b.entries + [e.value]);
    ghost var hits, h := HitsNow(bs, Some(b)), Entry(t.term, Hit(e.value, b.frqBase, b.prxBase));
    HitAdded(bs, b, e.value);
    assert region' == region + region'[|region|..];
    HitsGrow(region, region'[|region|..], hits, ts, f, ws);
    HitsSnocAre(region', hits, ts, f, ws, hits + [h], ws + [w]);
    r := Ok(b');
  }

  /** All terms. A block is opened at the first term after the last was closed, with the
      region's size as its base, and closed whenever `full` says so of its entries. */
  method WriteTerms(ts: seq<Entry<TermPostings>>, f: Features, interval: nat, full: seq<D.DictEntry> -> bool)
    returns (r: Result<seq<DB.Block>>, region: Bytes, ghost ws: seq<EntryBytes>)
    requires AllTyped(ts) && interval > 0
    ensures r.Ok? <==> GoodTerms(ts, f, |ts|)
    ensures r.Ok? ==> AllBuildable(r.value, f) && |ws| == |ts| && HitsAre(region, AllHits(r.value, 0, |r.value|), ts, f, ws)
  {
    region, ws := [], [];
    var bs: seq<DB.Block>, open: Option<DB.Block> := [], None;
    for i := 0 to |ts|
      invariant Standing(region, bs, open, ts, f, ws) && |ws| == i && GoodTerms(ts, f, i)
    {
      var b := if open.Some? then open.value else DB.Block(f.hasFreq, f.hasPrx, |region|, |region|, interval, []);
      assert open.None? ==> HitsNow(bs, open) == HitsNow(bs, Some(b));
      var next;
      ghost var w;
      next, region, w := ProcessTerm(ts[i], b, f, region, bs, ts, ws);
      if next.Error? {
        assert !TermGood(ts[i], f);
        r := Error(next.status);
        return;
      }
      ws, open := ws + [w], Some(next.value);
      if full(next.value.entries) {
        BlockClosed(bs, next.value);
        BuildableSnoc(bs, next.value, f);
        bs, open := bs + [next.value], None;
      }
    }
    if open.Some? {
      BlockClosed(bs, open.value);
      BuildableSnoc(bs, open.value, f);
      bs := bs + [open.value];
    }
    assert HitsNow(bs, None) == AllHits(bs, 0, |bs|);
    r := Ok(bs);
  }

  lemma {:induction false} BuildableSnoc(bs: seq<DB.Block>, b: DB.Block, f: Features)
    requires AllBuildable(bs, f) && Dictionary.Buildable(b, f.hasFreq, f.hasPrx)
    ensures AllBuildable(bs + [b], f)
  {
    forall k | 0 <= k < |bs + [b]| ensures Dictionary.Buildable((bs + [b])[k], f.hasFreq, f.hasPrx) {
      assert k < |bs| ==> Dictionary.Buildable(bs[k], f.hasFreq, f.hasPrx);
    }
  }
}
