/** Looking terms up in a whole dictionary: Bloom filter, sampled index, one block. */
module Dictionary {
  import opened Common
  import opened TermOrder
  import opened TermDict
  import opened DictEntries
  import DB = DictBlocks
  import opened DictBlockReader
  import SampledIndex
  import Bloom

  datatype Filter = Filter(words: seq<Bloom.Word>, numBlocks: nat)

  /** What the reader holds: block bytes, their first terms, and a filter if there is one. */
  datatype Index = Index(blocks: seq<Bytes>, samples: seq<Bytes>, rich: bool, hasPositions: bool, filter: Option<Filter>)

  /** A found entry with the bases of its block. */
  datatype Hit = Hit(entry: DictEntry, frqBase: nat, prxBase: nat)

  // ----- the dictionary a list of blocks stands for

  function HitsOf(b: DB.Block): (r: seq<Entry<Hit>>)
    ensures |r| == |b.entries| && forall i :: 0 <= i < |r| ==> r[i] == Entry(b.entries[i].term, Hit(b.entries[i], b.frqBase, b.prxBase))
  {
    seq(|b.entries|, i requires 0 <= i < |b.entries| => Entry(b.entries[i].term, Hit(b.entries[i], b.frqBase, b.prxBase)))
  }

  /** All entries of blocks lo..hi, in order. */
  function AllHits(bs: seq<DB.Block>, lo: nat, hi: nat): seq<Entry<Hit>>
    requires lo <= hi <= |bs|
    decreases hi - lo
  {
    if lo == hi then [] else HitsOf(bs[lo]) + AllHits(bs, lo + 1, hi)
  }

  /** The 64-bit hash of a term, for any hash function. */
  function HashOf(hash: Bytes -> nat, t: Bytes): (h: nat)
    ensures h < TWO64
  {
    hash(t) % TWO64
  }

  predicate FilterValid(f: Filter) {
    f.numBlocks > 0 && |f.words| == 8 * f.numBlocks
  }

  ghost const NO_BLOCK := DB.Block(false, false, 0, 0, 1, [])

  ghost predicate Holds(idx: Index, k: nat, b: DB.Block)
    requires k < |idx.blocks|
  {
    Carries(b) && idx.blocks[k] == DB.BlockBytes(b) && b.rich == idx.rich && b.hasPositions == idx.hasPositions
  }

  /** Block `k` of the index holds block `k` of the list, sampled by its first term. */
  ghost predicate BlockHeld(idx: Index, bs: seq<DB.Block>, k: nat)
    requires k < |bs| == |idx.blocks| && |idx.samples| == |bs|
  {
    Holds(idx, k, bs[k]) && bs[k].entries != [] && idx.samples[k] == bs[k].entries[0].term
  }

  ghost predicate FilterKnows(f: Filter, hash: Bytes -> nat, es: seq<Entry<Hit>>) {
    && FilterValid(f)
    && forall i {:trigger es[i]} :: 0 <= i < |es| ==> Bloom.Contains(f.words, f.numBlocks, HashOf(hash, es[i].term))
  }

  /** The index was built from these blocks, whose terms ascend across all of them. */
  ghost predicate Built(idx: Index, bs: seq<DB.Block>, hash: Bytes -> nat) {
    && |bs| == |idx.blocks| == |idx.samples|
    && (forall k: nat {:trigger BlockHeld(idx, bs, k)} :: k < |bs| ==> BlockHeld(idx, bs, k))
    && SortedTerms(AllHits(bs, 0, |bs|))
    && (idx.filter.Some? ==> FilterKnows(idx.filter.value, hash, AllHits(bs, 0, |bs|)))
  }

  // ----- facts about the list

  lemma {:induction false} HitsSplit(bs: seq<DB.Block>, lo: nat, mid: nat, hi: nat)
    requires lo <= mid <= hi <= |bs|
    ensures AllHits(bs, lo, hi) == AllHits(bs, lo, mid) + AllHits(bs, mid, hi)
    decreases mid - lo
  {
    if lo < mid {
      HitsSplit(bs, lo + 1, mid, hi);
      JoinHits(HitsOf(bs[lo]), AllHits(bs, lo + 1, mid), AllHits(bs, mid, hi));
    } else {
      assert [] + AllHits(bs, mid, hi) == AllHits(bs, mid, hi);
    }
  }

  lemma {:induction false} JoinHits(a: seq<Entry<Hit>>, b: seq<Entry<Hit>>, c: seq<Entry<Hit>>)
    ensures a + (b + c) == (a + b) + c
  {
  }

  /** The dictionary around block `k`. */
  lemma {:induction false} HitsAround(bs: seq<DB.Block>, k: nat)
    requires k < |bs|
    ensures AllHits(bs, 0, |bs|) == AllHits(bs, 0, k) + (HitsOf(bs[k]) + AllHits(bs, k + 1, |bs|))
  {
    HitsSplit(bs, 0, k, |bs|);
  }

  lemma {:induction false} FindJoin<V>(a: seq<Entry<V>>, b: seq<Entry<V>>, t: Bytes)
    ensures Find(a + b, t) == if Find(a, t).Some? then Find(a, t) else Find(b, t)
  {
    if a == [] {
      assert a + b == b;
    } else {
      assert (a + b)[0] == a[0] && (a + b)[1..] == a[1..] + b;
      FindJoin(a[1..], b, t);
    }
  }

  lemma {:induction false} SortedParts<V>(a: seq<Entry<V>>, b: seq<Entry<V>>)
    requires SortedTerms(a + b)
    ensures SortedTerms(a) && SortedTerms(b)
    ensures forall i, j :: 0 <= i < |a| && 0 <= j < |b| ==> Less(a[i].term, b[j].term)
  {
    var s := a + b;
    assert forall i :: 0 <= i < |a| ==> s[i] == a[i];
    assert forall j :: 0 <= j < |b| ==> s[|a| + j] == b[j];
    forall i, j | 0 <= i < |a| && 0 <= j < |b| ensures Less(a[i].term, b[j].term) {
      assert Less(s[i].term, s[|a| + j].term);
    }
  }

  /** Nothing in a list that ends below the target, and nothing in one that starts above it. */
  lemma {:induction false} FindBelow<V>(a: seq<Entry<V>>, first: Bytes, t: Bytes)
    requires (forall i :: 0 <= i < |a| ==> Less(a[i].term, first)) && !Less(t, first)
    ensures Find(a, t).None?
  {
    FindNone(a, t);
  }

  lemma {:induction false} FindAbove<V>(a: seq<Entry<V>>, t: Bytes)
    requires SortedTerms(a) && (a != [] ==> Less(t, a[0].term))
    ensures Find(a, t).None?
  {
    forall i | 0 <= i < |a| ensures a[i].term != t {
      LessIrreflexive(t);
      if i > 0 && a[i].term == t {
        LessTransitive(a[0].term, t, a[0].term);
        LessIrreflexive(a[0].term);
      }
    }
    FindNone(a, t);
  }

  /** A block's own answer, with its bases attached. */
  function Based(b: DB.Block, r: Option<DictEntry>): Option<Hit> {
    match r case None => None case Some(e) => Some(Hit(e, b.frqBase, b.prxBase))
  }

  lemma {:induction false} FindInBlock(b: DB.Block, t: Bytes)
    requires SortedTerms(HitsOf(b))
    ensures SortedEntries(b.entries) && Find(HitsOf(b), t) == Based(b, Find(Named(b.entries), t))
  {
    var hits, named := HitsOf(b), Named(b.entries);
    forall i, j | 0 <= i < j < |b.entries| ensures Less(b.entries[i].term, b.entries[j].term) {
      assert Less(hits[i].term, hits[j].term);
    }
    NamedSorted(b.entries);
    if Find(named, t).Some? {
      FindIsEntry(named, t);
      var i :| 0 <= i < |named| && named[i] == Entry(t, Find(named, t).value);
      FindAt(hits, i);
    } else {
      FindNone(named, t);
      FindNone(hits, t);
    }
  }

  /** When the samples bracket the term, only block `k` can hold it. */
  lemma {:induction false} OneBlockDecides(idx: Index, bs: seq<DB.Block>, hash: Bytes -> nat, k: nat, t: Bytes)
    requires Built(idx, bs, hash) && k < |bs| && !Less(t, idx.samples[k]) && (k + 1 < |bs| ==> Less(t, idx.samples[k + 1]))
    ensures SortedEntries(bs[k].entries)
    ensures Find(AllHits(bs, 0, |bs|), t) == Based(bs[k], Find(Named(bs[k].entries), t))
  {
    var before, mine, after := AllHits(bs, 0, k), HitsOf(bs[k]), AllHits(bs, k + 1, |bs|);
    HitsAround(bs, k);
    SortedParts(before, mine + after);
    SortedParts(mine, after);
    assert BlockHeld(idx, bs, k);
    assert (mine + after)[0] == mine[0];
    FindBelow(before, mine[0].term, t);
    if k + 1 < |bs| {
      assert BlockHeld(idx, bs, k + 1);
      FirstOfRest(bs, k + 1);
    }
    FindAbove(after, t);
    FindJoin(before, mine + after, t);
    FindJoin(mine, after, t);
    FindInBlock(bs[k], t);
  }

  lemma {:induction false} FirstOfRest(bs: seq<DB.Block>, k: nat)
    requires k < |bs| && bs[k].entries != []
    ensures var rest := AllHits(bs, k, |bs|); rest != [] && rest[0].term == bs[k].entries[0].term
  {
  }

  lemma {:induction false} BeforeEverything(idx: Index, bs: seq<DB.Block>, hash: Bytes -> nat, t: Bytes)
    requires Built(idx, bs, hash) && (idx.samples == [] || Less(t, idx.samples[0]))
    ensures Find(AllHits(bs, 0, |bs|), t).None?
  {
    if bs != [] {
      assert BlockHeld(idx, bs, 0);
      FirstOfRest(bs, 0);
    }
    FindAbove(AllHits(bs, 0, |bs|), t);
  }

  /** The filter turns away only terms that are not there. */
  lemma {:induction false} TurnedAway(f: Filter, hash: Bytes -> nat, es: seq<Entry<Hit>>, t: Bytes)
    requires FilterKnows(f, hash, es) && !Bloom.Contains(f.words, f.numBlocks, HashOf(hash, t))
    ensures Find(es, t).None?
  {
    forall i | 0 <= i < |es| ensures es[i].term != t {
      assert Bloom.Contains(f.words, f.numBlocks, HashOf(hash, es[i].term));
    }
    FindNone(es, t);
  }

  // ----- building

  method BuildFilter(es: seq<Entry<Hit>>, hash: Bytes -> nat, numBlocks: nat) returns (f: Filter)
    requires numBlocks > 0
    ensures FilterKnows(f, hash, es)
  {
    var builder := new Bloom.BsbfBuilder(numBlocks);
    for i := 0 to |es|
      invariant fresh(builder) && builder.Valid()
      invariant forall j {:trigger es[j]} :: 0 <= j < i ==> HashOf(hash, es[j].term) in builder.inserted
    {
      builder.Insert(HashOf(hash, es[i].term));
    }
    f := Filter(builder.words, builder.numBlocks);
  }

  ghost predicate Buildable(b: DB.Block, rich: bool, hasPositions: bool) {
    b.interval > 0 && b.rich == rich && b.hasPositions == hasPositions && b.entries != []
  }

  /** Every block within the sizes its format can hold. */
  ghost predicate AllCarried(bs: seq<DB.Block>) {
    forall k: nat {:trigger Carries(bs[k])} :: k < |bs| ==> Carries(bs[k])
  }

  ghost predicate Serialized(bytes: Bytes, sample: Bytes, b: DB.Block) {
    b.interval > 0 && bytes == DB.BlockBytes(b) && b.entries != [] && sample == b.entries[0].term
  }

  lemma {:induction false} SerializedHeld(idx: Index, bs: seq<DB.Block>, k: nat)
    requires k < |bs| == |idx.blocks| && |idx.samples| == |bs|
    requires Carries(bs[k]) && Buildable(bs[k], idx.rich, idx.hasPositions) && Serialized(idx.blocks[k], idx.samples[k], bs[k])
    ensures BlockHeld(idx, bs, k)
  {
  }

  method BuildOne(b: DB.Block, ghost rich: bool, ghost hasPositions: bool) returns (bytes: Bytes, sample: Bytes)
    requires Buildable(b, rich, hasPositions)
    ensures Serialized(bytes, sample, b)
  {
    bytes := DB.Finish(b);
    sample := b.entries[0].term;
  }

  ghost predicate AllSerialized(blocks: seq<Bytes>, samples: seq<Bytes>, bs: seq<DB.Block>, k: nat) {
    && |blocks| == |samples| == k <= |bs|
    && forall j {:trigger Serialized(blocks[j], samples[j], bs[j])} :: 0 <= j < k ==> Serialized(blocks[j], samples[j], bs[j])
  }

  lemma {:induction false} SerializedSnoc(blocks: seq<Bytes>, samples: seq<Bytes>, bs: seq<DB.Block>, bytes: Bytes, sample: Bytes)
    requires AllSerialized(blocks, samples, bs, |blocks|) && |blocks| < |bs| && Serialized(bytes, sample, bs[|blocks|])
    ensures AllSerialized(blocks + [bytes], samples + [sample], bs, |blocks| + 1)
  {
    var more, with := blocks + [bytes], samples + [sample];
    forall j | 0 <= j < |more| ensures Serialized(more[j], with[j], bs[j]) {
      assert j < |blocks| ==> Serialized(blocks[j], samples[j], bs[j]);
    }
  }

  method SerializeBlocks(bs: seq<DB.Block>, ghost rich: bool, ghost hasPositions: bool) returns (blocks: seq<Bytes>, samples: seq<Bytes>)
    requires forall k {:trigger Buildable(bs[k], rich, hasPositions)} :: 0 <= k < |bs| ==> Buildable(bs[k], rich, hasPositions)
    ensures AllSerialized(blocks, samples, bs, |bs|)
  {
    blocks, samples := [], [];
    for k := 0 to |bs|
      invariant AllSerialized(blocks, samples, bs, k)
    {
      assert Buildable(bs[k], rich, hasPositions);
      var bytes, sample := BuildOne(bs[k], rich, hasPositions);
      SerializedSnoc(blocks, samples, bs, bytes, sample);
      blocks, samples := blocks + [bytes], samples + [sample];
    }
  }

  /** Serializes the blocks, samples their first terms and fills the filter. */
  method BuildIndex(bs: seq<DB.Block>, rich: bool, hasPositions: bool, hash: Bytes -> nat, filterBlocks: nat) returns (idx: Index)
    requires forall k {:trigger Buildable(bs[k], rich, hasPositions)} :: 0 <= k < |bs| ==> Buildable(bs[k], rich, hasPositions)
    requires SortedTerms(AllHits(bs, 0, |bs|))
    ensures AllCarried(bs) ==> Built(idx, bs, hash)
    ensures idx.filter.Some? ==> FilterValid(idx.filter.value)
  {
    var blocks, samples := SerializeBlocks(bs, rich, hasPositions);
    var filter := None;
    if filterBlocks > 0 {
      var f := BuildFilter(AllHits(bs, 0, |bs|), hash, filterBlocks);
      filter := Some(f);
    }
    idx := Index(blocks, samples, rich, hasPositions, filter);
    if AllCarried(bs) {
      AllHeld(idx, bs);
    }
  }

  lemma {:induction false} AllHeld(idx: Index, bs: seq<DB.Block>)
    requires AllSerialized(idx.blocks, idx.samples, bs, |bs|) && AllCarried(bs)
    requires forall k {:trigger Buildable(bs[k], idx.rich, idx.hasPositions)} :: 0 <= k < |bs| ==> Buildable(bs[k], idx.rich, idx.hasPositions)
    ensures forall k: nat {:trigger BlockHeld(idx, bs, k)} :: k < |bs| ==> BlockHeld(idx, bs, k)
  {
    forall k: nat | k < |bs| ensures BlockHeld(idx, bs, k) {
      assert Carries(bs[k]) && Buildable(bs[k], idx.rich, idx.hasPositions) && Serialized(idx.blocks[k], idx.samples[k], bs[k]);
      SerializedHeld(idx, bs, k);
    }
  }

  // ----- the operations

  method OpenBlock(idx: Index, k: nat, ghost b: DB.Block, ghost good: bool) returns (r: Result<Reader>)
    requires good ==> k < |idx.blocks| && Holds(idx, k, b)
    ensures r.Ok? ==> |r.value.anchorTerms| == |r.value.anchorOffsets|
    ensures good ==> r.Ok? && Reads(r.value, b)
  {
    if k >= |idx.blocks| {
      return Error(InvalidArgument("block ordinal out of range"));
    }
    r := Open(idx.blocks[k], idx.rich, idx.hasPositions, b);
  }

  /** One block's answer. */
  method FindInOne(idx: Index, k: nat, term: Bytes, ghost b: DB.Block, ghost good: bool) returns (r: Result<Option<Hit>>)
    requires good ==> k < |idx.blocks| && Holds(idx, k, b) && SortedEntries(b.entries)
    ensures good ==> r == Ok(Based(b, Find(Named(b.entries), term)))
  {
    var reader := OpenBlock(idx, k, b, good);
    if reader.Error? {
      return Error(reader.status);
    }
    var found := FindTerm(reader.value, term, b);
    if found.Error? {
      return Error(found.status);
    }
    r := Ok(if found.value.None? then None else Some(Hit(found.value.value, reader.value.frqBase, reader.value.prxBase)));
  }

  /** What a routing answer must mean: nothing to find, or only this block can tell. */
  ghost predicate Decides(idx: Index, bs: seq<DB.Block>, term: Bytes, k: Option<nat>) {
    match k
    case None => Find(AllHits(bs, 0, |bs|), term).None?
    case Some(k) =>
      && k < |bs| == |idx.blocks| && Holds(idx, k, bs[k]) && SortedEntries(bs[k].entries)
      && Find(AllHits(bs, 0, |bs|), term) == Based(bs[k], Find(Named(bs[k].entries), term))
  }

  predicate Rejects(f: Option<Filter>, h: nat)
    requires h < TWO64 && (f.Some? ==> FilterValid(f.value))
  {
    f.Some? && !Bloom.Contains(f.value.words, f.value.numBlocks, h)
  }

  lemma {:induction false} HeldAt(idx: Index, bs: seq<DB.Block>, hash: Bytes -> nat, k: nat)
    requires Built(idx, bs, hash) && k < |bs|
    ensures Holds(idx, k, bs[k])
  {
    assert BlockHeld(idx, bs, k);
  }

  lemma {:induction false} BlockDecides(idx: Index, bs: seq<DB.Block>, hash: Bytes -> nat, term: Bytes, k: nat)
    requires Built(idx, bs, hash) && k < |bs| && !Less(term, idx.samples[k]) && (k + 1 < |bs| ==> Less(term, idx.samples[k + 1]))
    ensures Decides(idx, bs, term, Some(k))
  {
    HeldAt(idx, bs, hash, k);
    OneBlockDecides(idx, bs, hash, k, term);
  }

  lemma {:induction false} SampleDecides(idx: Index, bs: seq<DB.Block>, hash: Bytes -> nat, term: Bytes, k: Option<nat>)
    requires Built(idx, bs, hash)
    requires k.None? <==> idx.samples == [] || Less(term, idx.samples[0])
    requires k.Some? ==> k.value < |idx.samples| && !Less(term, idx.samples[k.value])
    requires k.Some? && k.value + 1 < |idx.samples| ==> Less(term, idx.samples[k.value + 1])
    ensures Decides(idx, bs, term, k)
  {
    match k
    case None => BeforeEverything(idx, bs, hash, term);
    case Some(v) => BlockDecides(idx, bs, hash, term, v);
  }

  /** Filter and sampled index: the one block that can hold the term, if any. */
  method Route(idx: Index, hash: Bytes -> nat, term: Bytes, ghost bs: seq<DB.Block>) returns (k: Option<nat>)
    requires idx.filter.Some? ==> FilterValid(idx.filter.value)
    ensures Built(idx, bs, hash) ==> Decides(idx, bs, term, k)
  {
    if Rejects(idx.filter, HashOf(hash, term)) {
      if Built(idx, bs, hash) {
        TurnedAway(idx.filter.value, hash, AllHits(bs, 0, |bs|), term);
      }
      return None;
    }
    k := SampledIndex.Locate(idx.samples, term);
    if Built(idx, bs, hash) {
      SampleDecides(idx, bs, hash, term, k);
    }
  }

  /** Exact lookup: filter, sampled index, one block. */
  method Lookup(idx: Index, hash: Bytes -> nat, term: Bytes, ghost bs: seq<DB.Block>) returns (r: Result<Option<Hit>>)
    requires idx.filter.Some? ==> FilterValid(idx.filter.value)
    ensures Built(idx, bs, hash) ==> r == Ok(Find(AllHits(bs, 0, |bs|), term))
  {
    var k := Route(idx, hash, term, bs);
    if k.None? {
      return Ok(None);
    }
    ghost var good := Built(idx, bs, hash);
    r := FindInOne(idx, k.value, term, if good then bs[k.value] else NO_BLOCK, good);
  }

  // ----- prefix enumeration

  lemma {:induction false} PrefixStep(x: Bytes, p: Bytes)
    requires p != []
    ensures HasPrefix(x, p) <==> x != [] && x[0] == p[0] && HasPrefix(x[1..], p[1..])
  {
    if |p| <= |x| {
      assert x[..|p|] == [x[0]] + x[1..][..|p| - 1] && p == [p[0]] + p[1..];
      assert x[..|p|][1..] == x[1..][..|p| - 1];
    }
  }

  /** A term at or above the prefix that lacks it is above every term that has it. */
  lemma {:induction false} PrefixRun(p: Bytes, t: Bytes, u: Bytes)
    requires !Less(t, p) && !HasPrefix(t, p) && Less(t, u)
    ensures !HasPrefix(u, p)
    decreases |p|
  {
    assert t[..0] == [];
    if p != [] {
      PrefixStep(t, p);
      PrefixStep(u, p);
      if t != [] && u != [] && t[0] == p[0] == u[0] {
        PrefixRun(p[1..], t[1..], u[1..]);
      }
    }
  }

  /** A term below the prefix lacks it. */
  lemma {:induction false} BelowPrefix(t: Bytes, p: Bytes)
    requires Less(t, p)
    ensures !HasPrefix(t, p)
    decreases |p|
  {
    PrefixStep(t, p);
    if t != [] && t[0] == p[0] {
      BelowPrefix(t[1..], p[1..]);
    }
  }

  lemma {:induction false} NoneWithPrefix<V>(es: seq<Entry<V>>, p: Bytes)
    requires forall i :: 0 <= i < |es| ==> !HasPrefix(es[i].term, p)
    ensures WithPrefix(es, p) == []
  {
    if es != [] {
      NoneWithPrefix(es[1..], p);
    }
  }

  /** Past the end of the run, nothing carries the prefix any more. */
  lemma {:induction false} RunEnds<V>(es: seq<Entry<V>>, i: nat, p: Bytes)
    requires SortedTerms(es) && i < |es| && !Less(es[i].term, p) && !HasPrefix(es[i].term, p)
    ensures WithPrefix(es[i..], p) == []
  {
    forall j | 0 <= j < |es[i..]| ensures !HasPrefix(es[i..][j].term, p) {
      if j > 0 {
        PrefixRun(p, es[i].term, es[i + j].term);
      }
    }
    NoneWithPrefix(es[i..], p);
  }

  /** One block's share of the enumeration: what it adds, and whether the run has ended. */
  datatype Share = Share(hits: seq<Entry<Hit>>, ended: bool)

  ghost predicate BeyondRun(es: seq<Entry<Hit>>, p: Bytes) {
    exists i :: 0 <= i < |es| && !Less(es[i].term, p) && !HasPrefix(es[i].term, p)
  }

  /** Skips terms below the prefix, keeps those that carry it, stops at the first beyond. */
  method TakeShare(entries: seq<DictEntry>, frqBase: nat, prxBase: nat, prefix: Bytes, ghost es: seq<Entry<Hit>>, ghost good: bool)
    returns (s: Share)
    requires good ==> SortedTerms(es) && |es| == |entries|
    requires good ==> forall i {:trigger es[i]} :: 0 <= i < |es| ==> es[i] == Entry(entries[i].term, Hit(entries[i], frqBase, prxBase))
    ensures good ==> s.hits == WithPrefix(es, prefix) && (s.ended ==> BeyondRun(es, prefix))
  {
    var hits := [];
    for i := 0 to |entries|
      invariant good ==> hits == WithPrefix(es[..i], prefix)
    {
      var t := entries[i].term;
      if good {
        PrefixSnoc(es, i, prefix);
        assert es[i].term == t;
      }
      if Less(t, prefix) {
        BelowPrefix(t, prefix);
      } else if HasPrefix(t, prefix) {
        hits := hits + [Entry(t, Hit(entries[i], frqBase, prxBase))];
      } else {
        if good {
          RunEnds(es, i, prefix);
          PrefixCut(es, i, prefix);
        }
        return Share(hits, true);
      }
    }
    assert good ==> es[..|entries|] == es;
    s := Share(hits, false);
  }

  /** One block, opened, decoded whole and filtered. */
  method BlockShare(idx: Index, k: nat, prefix: Bytes, ghost b: DB.Block, ghost good: bool) returns (r: Result<Share>)
    requires good ==> k < |idx.blocks| && Holds(idx, k, b) && SortedTerms(HitsOf(b))
    ensures good ==> r.Ok? && r.value.hits == WithPrefix(HitsOf(b), prefix) && (r.value.ended ==> BeyondRun(HitsOf(b), prefix))
  {
    var reader := OpenBlock(idx, k, b, good);
    if reader.Error? {
      return Error(reader.status);
    }
    var entries := DecodeAll(reader.value, b);
    if entries.Error? {
      return Error(entries.status);
    }
    var share := TakeShare(entries.value, reader.value.frqBase, reader.value.prxBase, prefix, HitsOf(b), good);
    r := Ok(share);
  }

  lemma {:induction false} BlockSorted(bs: seq<DB.Block>, k: nat)
    requires k < |bs| && SortedTerms(AllHits(bs, 0, |bs|))
    ensures SortedTerms(HitsOf(bs[k]))
  {
    HitsAround(bs, k);
    SortedParts(AllHits(bs, 0, k), HitsOf(bs[k]) + AllHits(bs, k + 1, |bs|));
    SortedParts(HitsOf(bs[k]), AllHits(bs, k + 1, |bs|));
  }

  lemma {:induction false} ShareAdds(bs: seq<DB.Block>, k: nat, p: Bytes)
    requires k < |bs|
    ensures WithPrefix(AllHits(bs, 0, k + 1), p) == WithPrefix(AllHits(bs, 0, k), p) + WithPrefix(HitsOf(bs[k]), p)
  {
    HitsSplit(bs, 0, k, k + 1);
    assert AllHits(bs, k + 1, k + 1) == [];
    assert HitsOf(bs[k]) + [] == HitsOf(bs[k]);
    WithPrefixConcat(AllHits(bs, 0, k), HitsOf(bs[k]), p);
  }

  /** Once a block has passed the run, the later ones add nothing. */
  lemma {:induction false} RunOver(bs: seq<DB.Block>, k: nat, p: Bytes)
    requires k < |bs| && SortedTerms(AllHits(bs, 0, |bs|)) && BeyondRun(HitsOf(bs[k]), p)
    ensures WithPrefix(AllHits(bs, 0, |bs|), p) == WithPrefix(AllHits(bs, 0, k + 1), p)
  {
    var mine, after := HitsOf(bs[k]), AllHits(bs, k + 1, |bs|);
    HitsAround(bs, k);
    SortedParts(AllHits(bs, 0, k), mine + after);
    SortedParts(mine, after);
    var i :| 0 <= i < |mine| && !Less(mine[i].term, p) && !HasPrefix(mine[i].term, p);
    forall j | 0 <= j < |after| ensures !HasPrefix(after[j].term, p) {
      PrefixRun(p, mine[i].term, after[j].term);
    }
    NoneWithPrefix(after, p);
    HitsSplit(bs, 0, k + 1, |bs|);
    WithPrefixConcat(AllHits(bs, 0, k + 1), after, p);
    assert WithPrefix(AllHits(bs, 0, k + 1), p) + [] == WithPrefix(AllHits(bs, 0, k + 1), p);
  }

  /** Where enumeration starts: the block whose first term is the last at or before the prefix. */
  method StartBlock(idx: Index, prefix: Bytes, ghost bs: seq<DB.Block>, ghost hash: Bytes -> nat) returns (start: nat)
    ensures Built(idx, bs, hash) ==> start <= |bs| && WithPrefix(AllHits(bs, 0, start), prefix) == []
  {
    start := 0;
    if prefix != [] {
      var k := SampledIndex.Locate(idx.samples, prefix);
      if k.Some? {
        start := k.value;
        if Built(idx, bs, hash) {
          NothingBefore(idx, bs, hash, start, prefix);
        }
      }
    }
  }

  /** Adds block `ord`'s share to what the earlier blocks gave. */
  method AddShare(idx: Index, ord: nat, prefix: Bytes, out: seq<Entry<Hit>>, ghost bs: seq<DB.Block>, ghost hash: Bytes -> nat, ghost good: bool)
    returns (r: Result<Share>)
    requires good ==> Built(idx, bs, hash) && ord < |bs| && out == WithPrefix(AllHits(bs, 0, ord), prefix)
    ensures good ==> r.Ok? && r.value.hits == WithPrefix(AllHits(bs, 0, ord + 1), prefix)
    ensures good ==> r.value.ended ==> r.value.hits == WithPrefix(AllHits(bs, 0, |bs|), prefix)
  {
    ghost var b := NO_BLOCK;
    if good {
      assert BlockHeld(idx, bs, ord);
      b := bs[ord];
      BlockSorted(bs, ord);
      ShareAdds(bs, ord, prefix);
    }
    var share := BlockShare(idx, ord, prefix, b, good);
    if share.Error? {
      return Error(share.status);
    }
    if good && share.value.ended {
      RunOver(bs, ord, prefix);
    }
    r := Ok(Share(out + share.value.hits, share.value.ended));
  }

  /** All terms with the prefix, in order. */
  method PrefixTerms(idx: Index, prefix: Bytes, ghost bs: seq<DB.Block>, ghost hash: Bytes -> nat) returns (r: Result<seq<Entry<Hit>>>)
    ensures Built(idx, bs, hash) ==> r == Ok(WithPrefix(AllHits(bs, 0, |bs|), prefix))
  {
    ghost var good := Built(idx, bs, hash);
    var start := StartBlock(idx, prefix, bs, hash);
    var out: seq<Entry<Hit>> := [];
    var ord := start;
    while ord < |idx.blocks|
      invariant good ==> start <= ord <= |bs| && out == WithPrefix(AllHits(bs, 0, ord), prefix)
    {
      var share := AddShare(idx, ord, prefix, out, bs, hash, good);
      if share.Error? {
        return Error(share.status);
      }
      out := share.value.hits;
      if share.value.ended {
        return Ok(out);
      }
      ord := ord + 1;
    }
    r := Ok(out);
  }

  lemma {:induction false} PrefixSnoc<V>(es: seq<Entry<V>>, i: nat, p: Bytes)
    requires i < |es|
    ensures WithPrefix(es[..i + 1], p) == WithPrefix(es[..i], p) + if HasPrefix(es[i].term, p) then [es[i]] else []
  {
    assert es[..i + 1] == es[..i] + [es[i]];
    WithPrefixConcat(es[..i], [es[i]], p);
    var one := [es[i]];
    assert one[1..] == [];
  }

  lemma {:induction false} PrefixCut<V>(es: seq<Entry<V>>, i: nat, p: Bytes)
    requires i <= |es| && WithPrefix(es[i..], p) == []
    ensures WithPrefix(es, p) == WithPrefix(es[..i], p)
  {
    assert es == es[..i] + es[i..];
    WithPrefixConcat(es[..i], es[i..], p);
  }

  /** Everything before the start block lacks the prefix. */
  lemma {:induction false} NothingBefore(idx: Index, bs: seq<DB.Block>, hash: Bytes -> nat, k: nat, p: Bytes)
    requires Built(idx, bs, hash) && k < |bs| && !Less(p, idx.samples[k])
    ensures WithPrefix(AllHits(bs, 0, k), p) == []
  {
    var before, rest := AllHits(bs, 0, k), AllHits(bs, k, |bs|);
    HitsSplit(bs, 0, k, |bs|);
    SortedParts(before, rest);
    assert BlockHeld(idx, bs, k);
    FirstOfRest(bs, k);
    forall i | 0 <= i < |before| ensures !HasPrefix(before[i].term, p) {
      LessUpTo(before[i].term, rest[0].term, p);
      BelowPrefix(before[i].term, p);
    }
    NoneWithPrefix(before, p);
  }

  lemma {:induction false} LessUpTo(a: Bytes, b: Bytes, c: Bytes)
    requires Less(a, b) && !Less(c, b)
    ensures Less(a, c)
  {
    LessTotal(b, c);
    if b != c {
      LessTransitive(a, b, c);
    }
  }
}
