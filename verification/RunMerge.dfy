/** The k-way merge of spilled runs, term by term in dictionary order, with boundary
    documents folded and wide terms' positions streamed from the parked readers. */
module RunMerge {
  import opened Postings
  import opened FlatPostings
  import opened TermChain
  import opened TermOrder
  import opened SpimiSpec

  // ----- the streamed position source

  function Join(bs: seq<seq<nat>>): seq<nat> {
    if bs == [] then [] else bs[0] + Join(bs[1..])
  }

  /** Taking from the front of one block takes from the front of the rest. */
  lemma {:induction false} JoinTake(bs: seq<seq<nat>>, c: nat, take: nat)
    requires c < |bs| && take <= |bs[c]|
    ensures Join(bs[c..]) == bs[c][..take] + Join(bs[c := bs[c][take..]][c..])
  {
    var bs' := bs[c := bs[c][take..]];
    assert bs[c..][1..] == bs'[c..][1..] && bs[c] == bs[c][..take] + bs[c][take..];
    CutEnds(bs[c][..take], bs[c][take..], Join(bs[c..][1..]));
  }

  lemma {:induction false} CutEnds(a: seq<nat>, b: seq<nat>, c: seq<nat>)
    ensures a + (b + c) == (a + b) + c
  {
  }

  lemma {:induction false} CutAt(a: seq<nat>, b: seq<nat>, all: seq<nat>)
    requires a + b == all
    ensures all[..|a|] == a && all[|a|..] == b && (b == [] ==> all == a)
  {
  }

  /** `dst` is `left` with zeros behind. */
  ghost predicate Padded(left: seq<nat>, dst: seq<nat>) {
    left <= dst && forall i :: |left| <= i < |dst| ==> dst[i] == 0
  }

  function Pad(s: seq<nat>, n: nat): (r: seq<nat>)
    requires |s| <= n
    ensures |r| == n && Padded(s, r)
  {
    s + seq(n - |s|, i => 0)
  }

  /** Walks the readers parked at one term's position blocks, in run order. */
  class RunPump {
    var remaining: seq<seq<nat>>
    var cursor: nat

    ghost predicate Valid()
      reads this
    {
      cursor <= |remaining|
    }

    /** The positions still to come. */
    ghost function Left(): seq<nat>
      requires Valid()
      reads this
    {
      Join(remaining[cursor..])
    }

    constructor (blocks: seq<seq<nat>>)
      ensures Valid() && Left() == Join(blocks)
    {
      remaining, cursor := blocks, 0;
      new;
      assert blocks[0..] == blocks;
    }

    /** The next `n` positions; zeros where the runs hold fewer. */
    method Pull(n: nat) returns (dst: seq<nat>)
      requires Valid()
      modifies this
      ensures Valid() && |dst| == n
      ensures n <= |old(Left())| ==> dst == old(Left())[..n] && Left() == old(Left())[n..]
      ensures n > |old(Left())| ==> Padded(old(Left()), dst) && Left() == []
    {
      dst := [];
      while |dst| < n
        invariant Valid() && |dst| <= n && dst + Left() == old(Left())
        decreases n - |dst|
      {
        SkipDrained();
        if cursor >= |remaining| {
          break;
        }
        var take := if n - |dst| < |remaining[cursor]| then n - |dst| else |remaining[cursor]|;
        JoinTake(remaining, cursor, take);
        CutEnds(dst, remaining[cursor][..take], Join(remaining[cursor := remaining[cursor][take..]][cursor..]));
        dst := dst + remaining[cursor][..take];
        remaining := remaining[cursor := remaining[cursor][take..]];
      }
      CutAt(dst, Left(), old(Left()));
      if |dst| < n {
        dst := Pad(dst, n);
      }
    }

    /** Moves to the next reader with positions to yield. */
    method SkipDrained()
      requires Valid()
      modifies `cursor
      ensures Valid() && Left() == old(Left())
      ensures cursor < |remaining| ==> remaining[cursor] != []
      ensures cursor >= |remaining| ==> Left() == []
    {
      while cursor < |remaining| && remaining[cursor] == []
        invariant Valid() && Left() == old(Left())
        decreases |remaining| - cursor
      {
        assert remaining[cursor..][0] == [] && remaining[cursor..][1..] == remaining[cursor + 1..];
        cursor := cursor + 1;
      }
    }
  }

  // ----- one term

  /** Runs' documents of one term, concatenated in run order. */
  ghost function Fold(gs: seq<seq<Doc>>): seq<Doc> {
    if gs == [] then [] else Concat(Fold(gs[..|gs| - 1]), gs[|gs| - 1])
  }

  ghost predicate Slices(fs: seq<Flat>, gs: seq<seq<Doc>>, hasPos: bool) {
    |fs| == |gs| && forall k :: 0 <= k < |fs| ==> fs[k] == FlatOf(gs[k], hasPos)
  }

  function Blocks(fs: seq<Flat>): (r: seq<seq<nat>>)
    ensures |r| == |fs| && forall k :: 0 <= k < |fs| ==> r[k] == fs[k].positions
  {
    seq(|fs|, k requires 0 <= k < |fs| => fs[k].positions)
  }

  lemma {:induction false} JoinSnoc(bs: seq<seq<nat>>, b: seq<nat>)
    ensures Join(bs + [b]) == Join(bs) + b
  {
    if bs == [] {
      assert bs + [b] == [b];
    } else {
      assert (bs + [b])[1..] == bs[1..] + [b];
      JoinSnoc(bs[1..], b);
    }
  }

  /** The blocks in run order are the coalesced positions, byte for byte. */
  lemma {:induction false} FoldPositions(fs: seq<Flat>, gs: seq<seq<Doc>>)
    requires Slices(fs, gs, true)
    ensures AllPositions(Fold(gs)) == Join(Blocks(fs))
  {
    if gs != [] {
      var n := |gs| - 1;
      FoldPositions(fs[..n], gs[..n]);
      ConcatAllPositions(Fold(gs[..n]), gs[n]);
      JoinSnoc(Blocks(fs[..n]), fs[n].positions);
      assert Blocks(fs) == Blocks(fs[..n]) + [fs[n].positions];
    }
  }

  method FoldArrays(fs: seq<Flat>, hasPos: bool, ghost gs: seq<seq<Doc>>) returns (f: Flat)
    requires Slices(fs, gs, hasPos)
    ensures f == FlatOf(Fold(gs), hasPos)
  {
    f := Flat([], [], []);
    for k := 0 to |fs|
      invariant f == FlatOf(Fold(gs[..k]), hasPos)
    {
      assert gs[..k + 1][..k] == gs[..k];
      f := ConcatRuns(f, fs[k], hasPos, Fold(gs[..k]), gs[k]);
    }
    assert gs[..|fs|] == gs;
  }

  method FoldDocsFreqs(fs: seq<Flat>, hasPos: bool, ghost gs: seq<seq<Doc>>) returns (f: Flat)
    requires Slices(fs, gs, hasPos)
    ensures f == FlatOf(Fold(gs), false)
  {
    f := Flat([], [], []);
    for k := 0 to |fs|
      invariant f == FlatOf(Fold(gs[..k]), false)
    {
      assert gs[..k + 1][..k] == gs[..k];
      SameArrays(gs[k], hasPos);
      f := ConcatDocsFreqs(f, fs[k], Fold(gs[..k]), gs[k]);
    }
    assert gs[..|fs|] == gs;
  }

  method Totals(fs: seq<Flat>) returns (docs: nat, poss: nat)
    ensures poss == |Join(Blocks(fs))|
  {
    docs, poss := 0, 0;
    assert Blocks(fs)[..0] == [];
    for k := 0 to |fs|
      invariant poss == |Join(Blocks(fs)[..k])|
    {
      assert Blocks(fs)[..k + 1] == Blocks(fs)[..k] + [fs[k].positions];
      JoinSnoc(Blocks(fs)[..k], fs[k].positions);
      docs, poss := docs + |fs[k].docids|, poss + |fs[k].positions|;
    }
    assert Blocks(fs)[..|fs|] == Blocks(fs);
  }

  /** Merges one term. It streams only when the folded document count, the one the writer
      dispatches on, reaches the slim threshold; the gate before folding may be passed and
      then withdrawn. */
  method MergeTerm(fs: seq<Flat>, hasPos: bool, allowStream: bool, ghost gs: seq<seq<Doc>>)
    returns (f: Flat, pump: RunPump?)
    requires Slices(fs, gs, hasPos)
    ensures pump == null ==> f == FlatOf(Fold(gs), hasPos)
    ensures pump != null ==>
              && fresh(pump) && pump.Valid() && allowStream && hasPos && |f.docids| >= SLIM_DF
              && f == FlatOf(Fold(gs), false) && pump.Left() == AllPositions(Fold(gs))
  {
    pump := null;
    var docs, poss := Totals(fs);
    if !(allowStream && hasPos && poss != 0 && docs >= SLIM_DF) {
      f := FoldArrays(fs, hasPos, gs);
      return;
    }
    f := FoldDocsFreqs(fs, hasPos, gs);
    FoldPositions(fs, gs);
    if |f.docids| < SLIM_DF {
      SameArrays(Fold(gs), hasPos);
      f := f.(positions := Join(Blocks(fs)));
      return;
    }
    pump := new RunPump(Blocks(fs));
  }

  /** The pump has handed out the first `done` of all positions. */
  ghost predicate Pumped(pump: RunPump, all: seq<nat>, done: nat)
    reads pump
  {
    pump.Valid() && done <= |all| && pump.Left() == all[done..]
  }

  /** As many positions as the window's frequencies add up to. */
  method PullWindow(pump: RunPump, freqs: seq<nat>, start: nat, end: nat, ghost all: seq<nat>, ghost done: nat) returns (piece: seq<nat>)
    requires start <= end <= |freqs| && SumFreqs(freqs) == |all| && done == SumFreqs(freqs[..start]) && Pumped(pump, all, done)
    modifies pump
    ensures done + |piece| == SumFreqs(freqs[..end]) <= |all| && piece == all[done..done + |piece|] && Pumped(pump, all, done + |piece|)
  {
    var winPos := SumRange(freqs, start, end);
    WithinTotal(freqs, end);
    piece := pump.Pull(winPos);
    NextPiece(all, done, winPos);
  }

  lemma {:induction false} NextPiece(all: seq<nat>, done: nat, n: nat)
    requires done + n <= |all|
    ensures all[done..][..n] == all[done..done + n] && all[done..][n..] == all[done + n..]
    ensures all[..done] + all[done..done + n] == all[..done + n]
  {
  }

  /** The windowed writer's consumption: as many positions per window as its frequencies
      add up to. */
  method PullByWindows(pump: RunPump, freqs: seq<nat>, unit: nat) returns (out: seq<nat>)
    requires pump.Valid() && unit > 0 && SumFreqs(freqs) == |pump.Left()|
    modifies pump
    ensures out == old(pump.Left())
  {
    ghost var all := pump.Left();
    out := [];
    var start := 0;
    assert freqs[..0] == [];
    while start < |freqs|
      invariant 0 <= start <= |freqs| && |out| == SumFreqs(freqs[..start])
      invariant Pumped(pump, all, |out|) && out == all[..|out|]
    {
      var end := if unit < |freqs| - start then start + unit else |freqs|;
      var piece := PullWindow(pump, freqs, start, end, all, |out|);
      NextPiece(all, |out|, |piece|);
      out, start := out + piece, end;
    }
    assert freqs[..start] == freqs && all[..|all|] == all;
  }

  // ----- all terms

  ghost predicate AscendingRuns(m: seq<nat>) {
    forall i, j :: 0 <= i < j < |m| ==> m[i] < m[j]
  }

  /** `m` lists, in order, the runs whose segment has tokens. */
  ghost predicate ListsNonEmpty(m: seq<nat>, segs: seq<seq<Tok>>) {
    && AscendingRuns(m)
    && (forall i :: 0 <= i < |m| ==> m[i] < |segs| && segs[m[i]] != [])
    && (forall k :: 0 <= k < |segs| && segs[k] != [] ==> k in m)
  }

  ghost function DrainedAt(segs: seq<seq<Tok>>, m: seq<nat>): (r: seq<seq<Doc>>)
    requires forall i :: 0 <= i < |m| ==> m[i] < |segs|
    ensures |r| == |m| && forall i :: 0 <= i < |m| ==> r[i] == Drained(segs[m[i]])
  {
    seq(|m|, i requires 0 <= i < |m| => Drained(segs[m[i]]))
  }

  lemma {:induction false} DropEmptyRun(segs: seq<seq<Tok>>, m: seq<nat>)
    requires segs != [] && segs[|segs| - 1] == [] && ListsNonEmpty(m, segs)
    ensures ListsNonEmpty(m, segs[..|segs| - 1])
    ensures DrainedAt(segs[..|segs| - 1], m) == DrainedAt(segs, m)
  {
    var n := |segs| - 1;
    assert forall i :: 0 <= i < |m| ==> m[i] != n;
  }

  lemma {:induction false} DropLastRun(segs: seq<seq<Tok>>, m: seq<nat>)
    requires segs != [] && segs[|segs| - 1] != [] && ListsNonEmpty(m, segs)
    ensures m != [] && m[|m| - 1] == |segs| - 1
    ensures ListsNonEmpty(m[..|m| - 1], segs[..|segs| - 1])
    ensures DrainedAt(segs, m)[..|m| - 1] == DrainedAt(segs[..|segs| - 1], m[..|m| - 1])
  {
    var n := |segs| - 1;
    assert n in m;
    var j :| 0 <= j < |m| && m[j] == n;
    assert m[j] <= m[|m| - 1] <= n;
    assert j == |m| - 1;
    var m' := m[..j];
    forall k | 0 <= k < n && segs[k] != [] ensures k in m' {
      assert k in m;
      var i :| 0 <= i < |m| && m[i] == k;
      assert m'[i] == k;
    }
  }

  /** Runs without the term do not matter. */
  lemma {:induction false} FoldIsMerged(segs: seq<seq<Tok>>, m: seq<nat>)
    requires ListsNonEmpty(m, segs)
    ensures Fold(DrainedAt(segs, m)) == Merged(segs)
    decreases |segs|
  {
    if segs == [] {
      assert m == [];
    } else {
      var n := |segs| - 1;
      if segs[n] == [] {
        DropEmptyRun(segs, m);
        FoldIsMerged(segs[..n], m);
        assert Drained([]) == [];
      } else {
        DropLastRun(segs, m);
        FoldIsMerged(segs[..n], m[..|m| - 1]);
      }
    }
  }

  /** What run `k` still holds when the merge has passed `p` terms of the order. */
  ghost function RestOf(order: seq<nat>, p: nat, fill: seq<Token>, hasPos: bool): seq<Entry>
    requires p <= |order|
  {
    Entries(Filter(order[p..], Active(fill)), [fill], hasPos)
  }

  lemma {:induction false} RestHead(order: seq<nat>, rank: seq<nat>, p: nat, fill: seq<Token>, hasPos: bool, x: nat)
    requires p <= |order| && TermOrder.Ranked(rank, order) && x in order[p..] && x in Active(fill)
    ensures var rest := RestOf(order, p, fill, hasPos);
            rest != [] && rest[0].term < |rank| && rank[rest[0].term] <= rank[x]
  {
    FilterHead(order[p..], rank, Active(fill), x);
  }

  lemma {:induction false} FilterHead(order: seq<nat>, rank: seq<nat>, s: set<nat>, x: nat)
    requires TermOrder.Ranked(rank, order) && x in order && x in s
    ensures Filter(order, s) != [] && Filter(order, s)[0] in order && rank[Filter(order, s)[0]] <= rank[x]
  {
    var k :| 0 <= k < |order| && order[k] == x;
    if order[0] in s {
    } else {
      assert order[1..][k - 1] == x;
      FilterHead(order[1..], rank, s, x);
    }
  }

  /** Passing the terms before `q`, none of them in the fill, and then the one at `q`. */
  lemma {:induction false} RestAdvances(order: seq<nat>, p: nat, q: nat, fill: seq<Token>, hasPos: bool)
    requires p <= q < |order| && forall i :: p <= i < q ==> order[i] !in Active(fill)
    ensures var rest, next := RestOf(order, p, fill, hasPos), RestOf(order, q + 1, fill, hasPos);
            if order[q] in Active(fill) then rest == [EntryOf(order[q], [fill], hasPos)] + next else rest == next
  {
    SkipTo(order, p, q, Active(fill));
    var tail := Filter(order[q + 1..], Active(fill));
    EntriesCons(order[q], tail, [fill], hasPos);
    assert [] + tail == tail;
  }

  lemma {:induction false} EntriesCons(id: nat, ids: seq<nat>, fills: seq<seq<Token>>, hasPos: bool)
    ensures Entries([id] + ids, fills, hasPos) == [EntryOf(id, fills, hasPos)] + Entries(ids, fills, hasPos)
  {
  }

  lemma {:induction false} SkipTo(order: seq<nat>, p: nat, q: nat, s: set<nat>)
    requires p <= q < |order| && forall i :: p <= i < q ==> order[i] !in s
    ensures Filter(order[p..], s) == (if order[q] in s then [order[q]] else []) + Filter(order[q + 1..], s)
    decreases q - p
  {
    assert order[p..][1..] == order[p + 1..];
    if p < q {
      SkipTo(order, p + 1, q, s);
    }
  }

  lemma {:induction false} PrefixAdvances(order: seq<nat>, p: nat, q: nat, s: set<nat>)
    requires p <= q < |order| && order[q] in s && forall i :: p <= i < q ==> order[i] !in s
    ensures Filter(order[..q + 1], s) == Filter(order[..p], s) + [order[q]]
  {
    var mid := order[p..q];
    FilterNone(mid, s);
    var last := [order[q]];
    assert last[1..] == [];
    assert order[..q + 1] == order[..p] + mid + last;
    FilterConcat(order[..p] + mid, last, s);
    FilterConcat(order[..p], mid, s);
  }

  lemma {:induction false} SeenInFill(fills: seq<seq<Token>>, k: nat, x: nat)
    requires k < |fills| && TokensOf(fills[k], x) != []
    ensures TokensOf(AllTokens(fills), x) != []
  {
    var n := |fills| - 1;
    TokensOfConcat(AllTokens(fills[..n]), fills[n], x);
    if k < n {
      assert fills[..n][k] == fills[k];
      SeenInFill(fills[..n], k, x);
    }
  }

  lemma {:induction false} SomeFillSaw(fills: seq<seq<Token>>, x: nat) returns (k: nat)
    requires TokensOf(AllTokens(fills), x) != []
    ensures k < |fills| && TokensOf(fills[k], x) != []
  {
    var n := |fills| - 1;
    TokensOfConcat(AllTokens(fills[..n]), fills[n], x);
    if TokensOf(fills[n], x) != [] {
      k := n;
    } else {
      k := SomeFillSaw(fills[..n], x);
    }
  }

  ghost predicate ReaderAt(rests: seq<seq<Entry>>, order: seq<nat>, p: nat, fills: seq<seq<Token>>, hasPos: bool, k: nat)
    requires p <= |order| && |rests| == |fills| && k < |rests|
  {
    rests[k] == RestOf(order, p, fills[k], hasPos)
  }

  /** Every reader stands at its first term not before position `p` of the order. */
  ghost predicate AtTerm(rests: seq<seq<Entry>>, order: seq<nat>, p: nat, fills: seq<seq<Token>>, hasPos: bool) {
    && p <= |order| && |rests| == |fills|
    && forall k {:trigger ReaderAt(rests, order, p, fills, hasPos, k)} :: 0 <= k < |rests| ==>
         ReaderAt(rests, order, p, fills, hasPos, k)
  }

  /** No fill has seen a term between positions `p` and `q` of the order. */
  ghost predicate Gap(order: seq<nat>, p: nat, q: nat, fills: seq<seq<Token>>) {
    && p <= q < |order|
    && (forall i, j :: p <= i < q && 0 <= j < |fills| ==> order[i] !in Active(fills[j]))
    && (forall i :: q < i < |order| ==> order[i] != order[q])
  }

  /** The heap holds exactly the readers that are not exhausted. */
  ghost predicate HeapOf(heap: set<nat>, rests: seq<seq<Entry>>) {
    forall k: nat :: k in heap <==> k < |rests| && rests[k] != []
  }

  /** The readers standing at term `id`. */
  ghost predicate Matches(matching: seq<nat>, rests: seq<seq<Entry>>, id: nat) {
    forall k: nat :: k in matching <==> k < |rests| && rests[k] != [] && rests[k][0].term == id
  }

  /** The heap holds the readers that are not exhausted, with ids in the vocabulary. */
  ghost predicate HeapGood(heap: set<nat>, rests: seq<seq<Entry>>, rank: seq<nat>) {
    forall k :: k in heap ==> k < |rests| && rests[k] != [] && rests[k][0].term < |rank|
  }

  predicate Before(rests: seq<seq<Entry>>, rank: seq<nat>, j: nat, k: nat)
    requires j < |rests| && rests[j] != [] && rests[j][0].term < |rank|
    requires k < |rests| && rests[k] != [] && rests[k][0].term < |rank|
  {
    var a, b := rank[rests[j][0].term], rank[rests[k][0].term];
    a < b || (a == b && j <= k)
  }

  /** The heap's top: the least string, ties to the earliest run. */
  method Top(rests: seq<seq<Entry>>, rank: seq<nat>, heap: set<nat>) returns (top: nat)
    requires heap != {} && HeapGood(heap, rests, rank)
    ensures top in heap && forall k :: k in heap ==> Before(rests, rank, top, k)
  {
    top :| top in heap;
    var rest := heap - {top};
    while rest != {}
      invariant top in heap && rest <= heap
      invariant forall k :: k in heap && k !in rest ==> Before(rests, rank, top, k)
      decreases rest
    {
      var k :| k in rest;
      if !Before(rests, rank, top, k) {
        top := k;
      }
      rest := rest - {k};
    }
  }

  /** Pops every reader whose term is the least one, in run order. */
  method PopMatching(rests: seq<seq<Entry>>, rank: seq<nat>, heap: set<nat>)
    returns (id: nat, matching: seq<nat>, heap': set<nat>)
    requires heap != {} && HeapGood(heap, rests, rank)
    requires forall j, k :: j in heap && k in heap && rank[rests[j][0].term] == rank[rests[k][0].term] ==>
               rests[j][0].term == rests[k][0].term
    ensures id < |rank| && AscendingRuns(matching) && heap' == heap - SetOf(matching)
    ensures forall k :: k in matching <==> k in heap && rests[k][0].term == id
    ensures exists k :: k in heap && rests[k][0].term == id
    ensures forall k :: k in heap ==> rank[id] <= rank[rests[k][0].term]
  {
    var top := Top(rests, rank, heap);
    id, matching, heap' := rests[top][0].term, [], heap;
    while heap' != {}
      invariant heap' == heap - SetOf(matching) && AscendingRuns(matching)
      invariant forall k :: k in matching ==> k in heap && rests[k][0].term == id
      invariant forall j, k :: j in matching && k in heap' && rests[k][0].term == id ==> j < k
      decreases heap'
    {
      var next := Top(rests, rank, heap');
      if rests[next][0].term != id {
        forall k | k in heap' ensures rests[k][0].term != id {
          assert Before(rests, rank, next, k) && Before(rests, rank, top, next);
        }
        break;
      }
      forall k | k in heap' - {next} && rests[k][0].term == id ensures next < k {
        assert Before(rests, rank, next, k);
      }
      assert SetOf(matching + [next]) == SetOf(matching) + {next};
      assert forall i :: 0 <= i < |matching| ==> matching[i] in matching;
      heap' := heap' - {next};
      matching := matching + [next];
    }
    assert forall k :: k in heap' ==> rests[k][0].term != id;
    assert forall k :: k in heap && k !in heap' ==> k in SetOf(matching);
  }

  /** A reader whose head is no smaller than the term at `q` has nothing before `q`. */
  lemma {:induction false} NoneBefore(rests: seq<seq<Entry>>, rank: seq<nat>, order: seq<nat>, p: nat, q: nat,
                                      fills: seq<seq<Token>>, hasPos: bool, i: nat, j: nat)
    requires AtTerm(rests, order, p, fills, hasPos) && TermOrder.Ranked(rank, order)
    requires p <= i < q < |order| && j < |fills|
    requires rests[j] != [] ==> rests[j][0].term < |rank| && rank[order[q]] <= rank[rests[j][0].term]
    ensures order[i] !in Active(fills[j])
  {
    assert order[p..][i - p] == order[i];
    assert ReaderAt(rests, order, p, fills, hasPos, j);
    assert rank[order[i]] < rank[order[q]];
    if order[i] in Active(fills[j]) {
      RestHead(order, rank, p, fills[j], hasPos, order[i]);
    }
  }

  /** The least head is the next term of the order that any fill has seen. */
  lemma {:induction false} NextTerm(rests: seq<seq<Entry>>, rank: seq<nat>, order: seq<nat>, p: nat,
                                    fills: seq<seq<Token>>, hasPos: bool, id: nat, k: nat) returns (q: nat)
    requires AtTerm(rests, order, p, fills, hasPos) && TermOrder.Ranked(rank, order)
    requires k < |rests| && rests[k] != [] && rests[k][0].term == id < |rank|
    requires forall j :: 0 <= j < |rests| && rests[j] != [] ==> rests[j][0].term < |rank| && rank[id] <= rank[rests[j][0].term]
    ensures Gap(order, p, q, fills) && order[q] == id && id in Active(fills[k])
  {
    assert ReaderAt(rests, order, p, fills, hasPos, k);
    FilterMembers(order[p..], Active(fills[k]));
    var ids := Filter(order[p..], Active(fills[k]));
    assert ids[0] == id && id in ids && id in order[p..];
    q :| p <= q < |order| && order[q] == id;
    forall i, j | p <= i < q && 0 <= j < |fills| ensures order[i] !in Active(fills[j]) {
      NoneBefore(rests, rank, order, p, q, fills, hasPos, i, j);
    }
  }

  /** A reader is at `id` exactly when its fill has seen `id`. */
  lemma {:induction false} HeadsAt(order: seq<nat>, p: nat, q: nat, fill: seq<Token>, hasPos: bool)
    requires p <= q < |order| && forall i :: p <= i < q ==> order[i] !in Active(fill)
    requires forall i :: q < i < |order| ==> order[i] != order[q]
    ensures var rest := RestOf(order, p, fill, hasPos);
            && (order[q] in Active(fill) <==> rest != [] && rest[0].term == order[q])
            && (order[q] in Active(fill) ==> rest[0] == EntryOf(order[q], [fill], hasPos)
                                             && rest[1..] == RestOf(order, q + 1, fill, hasPos))
            && (order[q] !in Active(fill) ==> rest == RestOf(order, q + 1, fill, hasPos))
  {
    RestAdvances(order, p, q, fill, hasPos);
    var tail := Filter(order[q + 1..], Active(fill));
    FilterMembers(order[q + 1..], Active(fill));
    if order[q] !in Active(fill) && tail != [] {
      assert tail[0] in tail;
    }
  }

  /** Moves the matching readers past their term. */
  method AdvanceReaders(rests: seq<seq<Entry>>, matching: seq<nat>) returns (rests': seq<seq<Entry>>)
    requires AscendingRuns(matching) && forall k :: k in matching ==> k < |rests| && rests[k] != []
    ensures |rests'| == |rests|
    ensures forall k :: 0 <= k < |rests| ==> rests'[k] == if k in matching then rests[k][1..] else rests[k]
  {
    rests' := rests;
    for i := 0 to |matching|
      invariant |rests'| == |rests|
      invariant forall k :: 0 <= k < |rests| ==> rests'[k] == if k in matching[..i] then rests[k][1..] else rests[k]
    {
      var k := matching[i];
      assert k in matching;
      assert forall j :: 0 <= j < i ==> matching[j] != k;
      assert matching[..i + 1] == matching[..i] + [k];
      rests' := rests'[k := rests'[k][1..]];
    }
    assert matching[..|matching|] == matching;
  }

  /** Merges the term the matching readers stand at, and hands it to the consumer, which
      pulls streamed positions in windows of `unit` documents. */
  method EmitTerm(id: nat, slices: seq<Flat>, hasPos: bool, allowStream: bool, unit: nat,
                  ghost matching: seq<nat>, ghost fills: seq<seq<Token>>) returns (e: Entry)
    requires unit > 0 && ListsNonEmpty(matching, Segments(fills, id))
    requires Slices(slices, DrainedAt(Segments(fills, id), matching), hasPos)
    ensures e == EntryOf(id, fills, hasPos)
  {
    ghost var segs := Segments(fills, id);
    ghost var gs := DrainedAt(segs, matching);
    FoldIsMerged(segs, matching);
    var f, pump := MergeTerm(slices, hasPos, allowStream, gs);
    if pump != null {
      SumIsTokens(Fold(gs));
      var positions := PullByWindows(pump, f.freqs, unit);
      SameArrays(Fold(gs), true);
      f := f.(positions := positions);
    }
    e := Entry(id, f);
  }

  lemma {:induction false} MatchingListsAll(rests: seq<seq<Entry>>, order: seq<nat>, p: nat, q: nat,
                                            fills: seq<seq<Token>>, hasPos: bool, matching: seq<nat>)
    requires AtTerm(rests, order, p, fills, hasPos) && Gap(order, p, q, fills)
    requires AscendingRuns(matching) && Matches(matching, rests, order[q])
    ensures ListsNonEmpty(matching, Segments(fills, order[q]))
    ensures forall i :: 0 <= i < |matching| ==>
              && matching[i] < |rests| && rests[matching[i]] != []
              && rests[matching[i]][0].postings == FlatOf(Drained(TokensOf(fills[matching[i]], order[q])), hasPos)
  {
    var id := order[q];
    forall k: nat | k < |fills| ensures k in matching <==> TokensOf(fills[k], id) != [] {
      if k < |rests| {
        assert ReaderAt(rests, order, p, fills, hasPos, k);
      }
      HeadsAt(order, p, q, fills[k], hasPos);
    }
    forall i | 0 <= i < |matching|
      ensures matching[i] < |rests| && rests[matching[i]] != []
      ensures rests[matching[i]][0].postings == FlatOf(Drained(TokensOf(fills[matching[i]], id)), hasPos)
    {
      var k := matching[i];
      assert k in matching;
      assert ReaderAt(rests, order, p, fills, hasPos, k);
      HeadsAt(order, p, q, fills[k], hasPos);
      OneFill(fills[k], id);
    }
  }

  lemma {:induction false} ReadersAdvanced(rests: seq<seq<Entry>>, rests': seq<seq<Entry>>, order: seq<nat>, p: nat, q: nat,
                                           fills: seq<seq<Token>>, hasPos: bool, matching: seq<nat>)
    requires AtTerm(rests, order, p, fills, hasPos) && Gap(order, p, q, fills) && |rests'| == |rests|
    requires Matches(matching, rests, order[q])
    requires forall k :: 0 <= k < |rests| ==> rests'[k] == if k in matching then rests[k][1..] else rests[k]
    ensures AtTerm(rests', order, q + 1, fills, hasPos)
  {
    var next := q + 1;
    forall k | 0 <= k < |rests| ensures ReaderAt(rests', order, next, fills, hasPos, k) {
      assert ReaderAt(rests, order, p, fills, hasPos, k);
      HeadsAt(order, p, q, fills[k], hasPos);
    }
  }

  lemma {:induction false} OutputGrows(order: seq<nat>, p: nat, q: nat, fills: seq<seq<Token>>, hasPos: bool, k: nat)
    requires Gap(order, p, q, fills) && k < |fills| && order[q] in Active(fills[k])
    ensures var s := Active(AllTokens(fills));
            Entries(Filter(order[..q + 1], s), fills, hasPos)
            == Entries(Filter(order[..p], s), fills, hasPos) + [EntryOf(order[q], fills, hasPos)]
  {
    var s := Active(AllTokens(fills));
    SeenInFill(fills, k, order[q]);
    forall i | p <= i < q ensures order[i] !in s {
      if order[i] in s {
        var j := SomeFillSaw(fills, order[i]);
        assert false;
      }
    }
    PrefixAdvances(order, p, q, s);
  }

  function Remaining(rests: seq<seq<Entry>>): nat {
    if rests == [] then 0 else |rests[0]| + Remaining(rests[1..])
  }

  lemma {:induction false} RemainingFalls(rests: seq<seq<Entry>>, rests': seq<seq<Entry>>, k: nat)
    requires |rests| == |rests'| && k < |rests| && |rests'[k]| < |rests[k]|
    requires forall j :: 0 <= j < |rests| ==> |rests'[j]| <= |rests[j]|
    ensures Remaining(rests') < Remaining(rests)
  {
    if k == 0 {
      RemainingBounded(rests[1..], rests'[1..]);
    } else {
      RemainingFalls(rests[1..], rests'[1..], k - 1);
    }
  }

  lemma {:induction false} RemainingBounded(rests: seq<seq<Entry>>, rests': seq<seq<Entry>>)
    requires |rests| == |rests'| && forall j :: 0 <= j < |rests| ==> |rests'[j]| <= |rests[j]|
    ensures Remaining(rests') <= Remaining(rests)
  {
    if rests != [] {
      RemainingBounded(rests[1..], rests'[1..]);
    }
  }

  /** The readers' current postings of one term, in run order. */
  function Current(rests: seq<seq<Entry>>, matching: seq<nat>): (fs: seq<Flat>)
    requires forall i :: 0 <= i < |matching| ==> matching[i] < |rests| && rests[matching[i]] != []
    ensures |fs| == |matching| && forall i :: 0 <= i < |fs| ==> fs[i] == rests[matching[i]][0].postings
  {
    seq(|matching|, i requires 0 <= i < |matching| => rests[matching[i]][0].postings)
  }

  /** One turn of the merge: the next term of the order, emitted whole. */
  method MergeStep(rests: seq<seq<Entry>>, heap: set<nat>, rank: seq<nat>, hasPos: bool, allowStream: bool, unit: nat,
                   ghost order: seq<nat>, ghost p: nat, ghost fills: seq<seq<Token>>)
    returns (e: Entry, rests': seq<seq<Entry>>, heap': set<nat>, ghost q: nat)
    requires unit > 0 && heap != {} && TermOrder.Ranked(rank, order) && AtTerm(rests, order, p, fills, hasPos)
    requires HeapOf(heap, rests)
    ensures p <= q < |order| && AtTerm(rests', order, q + 1, fills, hasPos) && HeapOf(heap', rests')
    ensures var s := Active(AllTokens(fills));
            Entries(Filter(order[..q + 1], s), fills, hasPos) == Entries(Filter(order[..p], s), fills, hasPos) + [e]
    ensures Remaining(rests') < Remaining(rests)
  {
    var id, matching, left;
    ghost var k;
    id, matching, left, q, k := LeastTerm(rests, heap, rank, hasPos, order, p, fills);
    e := EmitMatching(id, rests, matching, hasPos, allowStream, unit, order, p, q, fills);
    rests' := AdvanceMatching(rests, matching, id, order, p, q, fills, hasPos, k);
    OutputGrows(order, p, q, fills, hasPos, k);
    heap' := Reseed(left, heap, matching, rests, rests');
  }

  /** Moves the matching readers past the term; all then stand beyond it. */
  method AdvanceMatching(rests: seq<seq<Entry>>, matching: seq<nat>, id: nat,
                         ghost order: seq<nat>, ghost p: nat, ghost q: nat, ghost fills: seq<seq<Token>>, ghost hasPos: bool, ghost k: nat)
    returns (rests': seq<seq<Entry>>)
    requires AtTerm(rests, order, p, fills, hasPos) && Gap(order, p, q, fills) && id == order[q]
    requires AscendingRuns(matching) && Matches(matching, rests, id) && k in matching
    ensures |rests'| == |rests| && (forall j :: j in matching ==> j < |rests|)
    ensures forall j :: 0 <= j < |rests| && j !in matching ==> rests'[j] == rests[j]
    ensures AtTerm(rests', order, q + 1, fills, hasPos) && Remaining(rests') < Remaining(rests)
  {
    rests' := AdvanceReaders(rests, matching);
    ReadersAdvanced(rests, rests', order, p, q, fills, hasPos, matching);
    RemainingFalls(rests, rests', k);
  }

  /** The least term's entry, from the readers that stand at it. */
  method EmitMatching(id: nat, rests: seq<seq<Entry>>, matching: seq<nat>, hasPos: bool, allowStream: bool, unit: nat,
                      ghost order: seq<nat>, ghost p: nat, ghost q: nat, ghost fills: seq<seq<Token>>) returns (e: Entry)
    requires unit > 0 && AtTerm(rests, order, p, fills, hasPos) && Gap(order, p, q, fills) && id == order[q]
    requires AscendingRuns(matching) && Matches(matching, rests, id)
    ensures e == EntryOf(id, fills, hasPos)
  {
    MatchingListsAll(rests, order, p, q, fills, hasPos, matching);
    e := EmitTerm(id, Current(rests, matching), hasPos, allowStream, unit, matching, fills);
  }

  /** Pops the least term and locates it in the order. */
  method LeastTerm(rests: seq<seq<Entry>>, heap: set<nat>, rank: seq<nat>, hasPos: bool,
                   ghost order: seq<nat>, ghost p: nat, ghost fills: seq<seq<Token>>)
    returns (id: nat, matching: seq<nat>, left: set<nat>, ghost q: nat, ghost k: nat)
    requires heap != {} && TermOrder.Ranked(rank, order) && AtTerm(rests, order, p, fills, hasPos)
    requires HeapOf(heap, rests)
    ensures Gap(order, p, q, fills) && order[q] == id && k < |fills| && id in Active(fills[k]) && k in matching
    ensures AscendingRuns(matching) && Matches(matching, rests, id) && left == heap - SetOf(matching)
  {
    HeadsInOrder(rests, order, p, fills, hasPos);
    assert HeapGood(heap, rests, rank);
    id, matching, left := PopMatching(rests, rank, heap);
    k :| k in heap && rests[k][0].term == id;
    q := NextTerm(rests, rank, order, p, fills, hasPos, id, k);
  }

  /** Puts the advanced readers back on the heap. */
  function Reseed(left: set<nat>, heap: set<nat>, matching: seq<nat>, rests: seq<seq<Entry>>, rests': seq<seq<Entry>>): (r: set<nat>)
    requires HeapOf(heap, rests) && left == heap - SetOf(matching) && |rests'| == |rests|
    requires forall k :: k in matching ==> k < |rests|
    requires forall k :: 0 <= k < |rests| && k !in matching ==> rests'[k] == rests[k]
    ensures HeapOf(r, rests')
  {
    left + set j | j in matching && rests'[j] != []
  }

  lemma {:induction false} HeadsInOrder(rests: seq<seq<Entry>>, order: seq<nat>, p: nat, fills: seq<seq<Token>>, hasPos: bool)
    requires AtTerm(rests, order, p, fills, hasPos)
    ensures forall k :: 0 <= k < |rests| && rests[k] != [] ==> rests[k][0].term in order
  {
    forall k | 0 <= k < |rests| && rests[k] != [] ensures rests[k][0].term in order {
      assert ReaderAt(rests, order, p, fills, hasPos, k);
      var ids := Filter(order[p..], Active(fills[k]));
      FilterMembers(order[p..], Active(fills[k]));
      assert ids[0] in ids;
    }
  }

  lemma {:induction false} ReadersStart(runs: seq<seq<Entry>>, order: seq<nat>, fills: seq<seq<Token>>, hasPos: bool)
    requires RunsGood(runs, fills, order, hasPos)
    ensures AtTerm(runs, order, 0, fills, hasPos)
    ensures Entries(Filter(order[..0], Active(AllTokens(fills))), fills, hasPos) == []
  {
    var p := 0;
    assert order[p..] == order;
    forall k | 0 <= k < |runs| ensures ReaderAt(runs, order, p, fills, hasPos, k) {
      assert RunIs(runs, fills, order, hasPos, k);
      OneFill(fills[k], 0);
    }
  }

  /** The merge of the fills' runs is the specified stream, whether or not positions are
      streamed and however the consumer's windows are cut. */
  method MergeRuns(runs: seq<seq<Entry>>, rank: seq<nat>, hasPos: bool, allowStream: bool, unit: nat,
                   ghost order: seq<nat>, ghost fills: seq<seq<Token>>) returns (out: seq<Entry>)
    requires unit > 0 && TermOrder.Ranked(rank, order)
    requires RunsGood(runs, fills, order, hasPos)
    ensures out == Stream(order, fills, hasPos)
  {
    var rests := runs;
    var heap := set k: nat | k < |runs| && runs[k] != [];
    out := [];
    ghost var p: nat := 0;
    ReadersStart(runs, order, fills, hasPos);
    ghost var s := Active(AllTokens(fills));
    while heap != {}
      invariant AtTerm(rests, order, p, fills, hasPos) && HeapOf(heap, rests)
      invariant out == Entries(Filter(order[..p], s), fills, hasPos)
      decreases Remaining(rests)
    {
      var e, rests', heap', q := MergeStep(rests, heap, rank, hasPos, allowStream, unit, order, p, fills);
      out := out + [e];
      rests, heap, p := rests', heap', q + 1;
    }
    NothingLeft(rests, order, p, fills, hasPos);
  }

  /** A term still to come has some reader with entries left. */
  lemma {:induction false} UnseenGone(rests: seq<seq<Entry>>, order: seq<nat>, p: nat, fills: seq<seq<Token>>, hasPos: bool, x: nat)
    requires AtTerm(rests, order, p, fills, hasPos) && x in order[p..] && x in Active(AllTokens(fills))
    ensures exists k :: 0 <= k < |rests| && rests[k] != []
  {
    var j := SomeFillSaw(fills, x);
    assert ReaderAt(rests, order, p, fills, hasPos, j);
    FilterMembers(order[p..], Active(fills[j]));
    assert x in Filter(order[p..], Active(fills[j]));
  }

  lemma {:induction false} AllSeen(rests: seq<seq<Entry>>, order: seq<nat>, p: nat, fills: seq<seq<Token>>, hasPos: bool, x: nat)
    requires AtTerm(rests, order, p, fills, hasPos) && (forall k :: 0 <= k < |rests| ==> rests[k] == []) && x in order[p..]
    ensures x !in Active(AllTokens(fills))
  {
    if x in Active(AllTokens(fills)) {
      UnseenGone(rests, order, p, fills, hasPos, x);
    }
  }

  lemma {:induction false} PrefixIsAll(order: seq<nat>, p: nat, s: set<nat>)
    requires p <= |order| && forall x :: x in order[p..] ==> x !in s
    ensures Filter(order[..p], s) == Filter(order, s)
  {
    FilterNone(order[p..], s);
    FilterConcat(order[..p], order[p..], s);
    assert order[..p] + order[p..] == order;
  }

  lemma {:induction false} NothingLeft(rests: seq<seq<Entry>>, order: seq<nat>, p: nat, fills: seq<seq<Token>>, hasPos: bool)
    requires AtTerm(rests, order, p, fills, hasPos) && forall k :: 0 <= k < |rests| ==> rests[k] == []
    ensures Filter(order[..p], Active(AllTokens(fills))) == Filter(order, Active(AllTokens(fills)))
  {
    var s := Active(AllTokens(fills));
    forall x | x in order[p..] ensures x !in s {
      AllSeen(rests, order, p, fills, hasPos, x);
    }
    PrefixIsAll(order, p, s);
  }
}
