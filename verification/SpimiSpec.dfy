/** What an index build must emit: for every term seen, in dictionary order, its postings.
    Stated over the fills of the buffer, that is over any spill schedule. */
module SpimiSpec {
  import opened Common
  import opened Postings
  import opened FlatPostings
  import opened TermOrder

  datatype Token = Token(term: nat, docid: nat, pos: nat)
  datatype Entry = Entry(term: nat, postings: Flat)

  /** One term's occurrences, in arrival order. */
  function TokensOf(tokens: seq<Token>, id: nat): seq<Tok> {
    if tokens == [] then []
    else
      var t := tokens[|tokens| - 1];
      TokensOf(tokens[..|tokens| - 1], id) + (if t.term == id then [Tok(t.docid, t.pos)] else [])
  }

  function Active(tokens: seq<Token>): (s: set<nat>)
    ensures forall id :: id in s <==> TokensOf(tokens, id) != []
  {
    if tokens == [] then {} else Active(tokens[..|tokens| - 1]) + {tokens[|tokens| - 1].term}
  }

  lemma {:induction false} TokensOfConcat(a: seq<Token>, b: seq<Token>, id: nat)
    ensures TokensOf(a + b, id) == TokensOf(a, id) + TokensOf(b, id)
  {
    if b == [] {
      assert a + b == a;
    } else {
      assert (a + b)[..|a + b| - 1] == a + b[..|b| - 1];
      TokensOfConcat(a, b[..|b| - 1], id);
    }
  }

  /** All tokens of consecutive fills. */
  function AllTokens(fills: seq<seq<Token>>): seq<Token> {
    if fills == [] then [] else AllTokens(fills[..|fills| - 1]) + fills[|fills| - 1]
  }

  /** One term's tokens, fill by fill. */
  function Segments(fills: seq<seq<Token>>, id: nat): (r: seq<seq<Tok>>)
    ensures |r| == |fills| && forall k :: 0 <= k < |fills| ==> r[k] == TokensOf(fills[k], id)
  {
    seq(|fills|, k requires 0 <= k < |fills| => TokensOf(fills[k], id))
  }

  lemma {:induction false} SegmentsFlatten(fills: seq<seq<Token>>, id: nat)
    ensures Flatten(Segments(fills, id)) == TokensOf(AllTokens(fills), id)
  {
    if fills != [] {
      var init := fills[..|fills| - 1];
      SegmentsFlatten(init, id);
      assert Segments(fills, id)[..|fills| - 1] == Segments(init, id);
      TokensOfConcat(AllTokens(init), fills[|fills| - 1], id);
    }
  }

  /** What is emitted for one term: its fills' postings merged in order. */
  ghost function EntryOf(id: nat, fills: seq<seq<Token>>, hasPos: bool): Entry {
    Entry(id, FlatOf(Merged(Segments(fills, id)), hasPos))
  }

  ghost function Entries(ids: seq<nat>, fills: seq<seq<Token>>, hasPos: bool): (r: seq<Entry>)
    ensures |r| == |ids| && forall i :: 0 <= i < |ids| ==> r[i] == EntryOf(ids[i], fills, hasPos)
  {
    seq(|ids|, i requires 0 <= i < |ids| => EntryOf(ids[i], fills, hasPos))
  }

  /** The whole stream: every term seen, once, in dictionary order. */
  ghost function Stream(order: seq<nat>, fills: seq<seq<Token>>, hasPos: bool): seq<Entry> {
    Entries(Filter(order, Active(AllTokens(fills))), fills, hasPos)
  }

  /** What a spill writes: the fill's terms in dictionary order. */
  ghost function RunOf(order: seq<nat>, fill: seq<Token>, hasPos: bool): seq<Entry> {
    Stream(order, [fill], hasPos)
  }

  ghost predicate RunIs(runs: seq<seq<Entry>>, fills: seq<seq<Token>>, order: seq<nat>, hasPos: bool, k: nat)
    requires |runs| == |fills| && k < |runs|
  {
    runs[k] == RunOf(order, fills[k], hasPos)
  }

  /** The runs on disk are those of the fills so far. */
  ghost predicate RunsGood(runs: seq<seq<Entry>>, fills: seq<seq<Token>>, order: seq<nat>, hasPos: bool) {
    && |runs| == |fills|
    && forall k {:trigger RunIs(runs, fills, order, hasPos, k)} :: 0 <= k < |runs| ==> RunIs(runs, fills, order, hasPos, k)
  }

  // ----- where the fills end

  /** The fills closed by the verdicts: `cuts[i]` ends a fill behind token `i`. */
  function Closed(tokens: seq<Token>, cuts: seq<bool>): seq<seq<Token>>
    requires |cuts| == |tokens|
  {
    if tokens == [] then []
    else
      var n := |tokens| - 1;
      Closed(tokens[..n], cuts[..n]) + (if cuts[n] then [Open(tokens[..n], cuts[..n]) + [tokens[n]]] else [])
  }

  /** The tokens behind the last verdict. */
  function Open(tokens: seq<Token>, cuts: seq<bool>): seq<Token>
    requires |cuts| == |tokens|
  {
    if tokens == [] || cuts[|tokens| - 1] then []
    else
      var n := |tokens| - 1;
      Open(tokens[..n], cuts[..n]) + [tokens[n]]
  }

  /** The fills a drain merges: an open fill counts if it holds a token or is the only one. */
  function Schedule(fills: seq<seq<Token>>, fill: seq<Token>): seq<seq<Token>> {
    if fills != [] && fill == [] then fills else fills + [fill]
  }

  lemma {:induction false} CutSnoc(tokens: seq<Token>, cuts: seq<bool>, t: Token, cut: bool)
    requires |cuts| == |tokens|
    ensures Closed(tokens + [t], cuts + [cut]) == if cut then Closed(tokens, cuts) + [Open(tokens, cuts) + [t]] else Closed(tokens, cuts)
    ensures Open(tokens + [t], cuts + [cut]) == if cut then [] else Open(tokens, cuts) + [t]
  {
    assert (tokens + [t])[..|tokens|] == tokens && (cuts + [cut])[..|tokens|] == cuts;
  }

  /** Without a verdict there is one fill. */
  lemma {:induction false} NoCuts(tokens: seq<Token>, cuts: seq<bool>)
    requires |cuts| == |tokens| && true !in cuts
    ensures Schedule(Closed(tokens, cuts), Open(tokens, cuts)) == [tokens]
  {
    NoneClosed(tokens, cuts);
  }

  lemma {:induction false} NoneClosed(tokens: seq<Token>, cuts: seq<bool>)
    requires |cuts| == |tokens| && true !in cuts
    ensures Closed(tokens, cuts) == [] && Open(tokens, cuts) == tokens
  {
    if tokens != [] {
      var n := |tokens| - 1;
      NoneClosed(tokens[..n], cuts[..n]);
      assert cuts[n] in cuts;
    }
  }

  /** A fill is closed behind every token with a verdict, and nowhere else; later tokens do not
      change it. */
  lemma {:induction false} CutBehind(tokens: seq<Token>, cuts: seq<bool>, i: nat)
    requires |cuts| == |tokens| && i < |tokens|
    ensures Closed(tokens[..i + 1], cuts[..i + 1]) <= Closed(tokens, cuts)
    ensures cuts[i] <==> |Closed(tokens[..i + 1], cuts[..i + 1])| == |Closed(tokens[..i], cuts[..i])| + 1
  {
    var n := |tokens| - 1;
    if i < n {
      CutBehind(tokens[..n], cuts[..n], i);
      assert tokens[..n][..i + 1] == tokens[..i + 1] && cuts[..n][..i + 1] == cuts[..i + 1];
      assert tokens[..n][..i] == tokens[..i] && cuts[..n][..i] == cuts[..i];
    } else {
      assert tokens[..i + 1] == tokens && cuts[..i + 1] == cuts;
    }
  }

  // ----- spill-schedule independence

  /** Every term's docids never step back. */
  ghost predicate InOrderFeed(tokens: seq<Token>) {
    forall id :: NonDecreasing(TokensOf(tokens, id))
  }

  ghost predicate SplitsInto(fills: seq<seq<Token>>, tokens: seq<Token>) {
    AllTokens(fills) == tokens
  }

  ghost predicate AnySchedule(order: seq<nat>, tokens: seq<Token>, hasPos: bool) {
    forall fills {:trigger SplitsInto(fills, tokens)} :: SplitsInto(fills, tokens) ==>
      Stream(order, fills, hasPos) == Stream(order, [tokens], hasPos)
  }

  lemma {:induction false} OneFill(tokens: seq<Token>, id: nat)
    ensures AllTokens([tokens]) == tokens && Merged(Segments([tokens], id)) == Drained(TokensOf(tokens, id))
  {
    var fills := [tokens];
    assert fills[..0] == [];
    assert AllTokens(fills) == [] + tokens == tokens;
    var segs := Segments(fills, id);
    assert segs[..0] == [];
  }

  lemma {:induction false} EntryAnySchedule(id: nat, fills: seq<seq<Token>>, tokens: seq<Token>, hasPos: bool)
    requires SplitsInto(fills, tokens) && NonDecreasing(TokensOf(tokens, id))
    ensures EntryOf(id, fills, hasPos) == EntryOf(id, [tokens], hasPos)
  {
    SegmentsFlatten(fills, id);
    CutsAgree(TokensOf(tokens, id), Segments(fills, id));
    OneFill(tokens, id);
  }

  /** Whatever the spill points, the merged stream equals the no-spill drain. */
  lemma {:induction false} StreamAnySchedule(order: seq<nat>, fills: seq<seq<Token>>, tokens: seq<Token>, hasPos: bool)
    requires SplitsInto(fills, tokens) && InOrderFeed(tokens)
    ensures Stream(order, fills, hasPos) == Stream(order, [tokens], hasPos)
  {
    OneFill(tokens, 0);
    var ids := Filter(order, Active(tokens));
    forall i | 0 <= i < |ids| ensures EntryOf(ids[i], fills, hasPos) == EntryOf(ids[i], [tokens], hasPos) {
      EntryAnySchedule(ids[i], fills, tokens, hasPos);
    }
  }

  /** The exact condition, with positions or without: independence of the schedule holds
      if and only if no term's docids step back. */
  lemma {:induction false} AnyScheduleIff(order: seq<nat>, tokens: seq<Token>, hasPos: bool)
    requires forall id :: id in Active(tokens) ==> id in order
    ensures AnySchedule(order, tokens, hasPos) <==> InOrderFeed(tokens)
  {
    if InOrderFeed(tokens) {
      forall fills | SplitsInto(fills, tokens) ensures Stream(order, fills, hasPos) == Stream(order, [tokens], hasPos) {
        StreamAnySchedule(order, fills, tokens, hasPos);
      }
    } else {
      var id :| !NonDecreasing(TokensOf(tokens, id));
      var fills := CutForTerm(order, tokens, id, hasPos);
    }
  }

  /** A spill between the two tokens of a backward step of `id`. */
  lemma {:induction false} CutForTerm(order: seq<nat>, tokens: seq<Token>, id: nat, hasPos: bool)
    returns (fills: seq<seq<Token>>)
    requires !NonDecreasing(TokensOf(tokens, id)) && id in order
    ensures SplitsInto(fills, tokens) && Stream(order, fills, hasPos) != Stream(order, [tokens], hasPos)
  {
    var i := StepBack(TokensOf(tokens, id));
    var n := PrefixWith(tokens, id, i + 1);
    fills := [tokens[..n], tokens[n..]];
    TwoFills(tokens, n, id);
    CutEntry(tokens, n, id, i, hasPos);
    OneFill(tokens, id);
    StreamsDiffer(order, tokens, fills, id, hasPos);
  }

  lemma {:induction false} CutEntry(tokens: seq<Token>, n: nat, id: nat, i: nat, hasPos: bool)
    requires n <= |tokens| && i + 1 < |TokensOf(tokens, id)|
    requires TokensOf(tokens, id)[i].docid > TokensOf(tokens, id)[i + 1].docid
    requires TokensOf(tokens[..n], id) == TokensOf(tokens, id)[..i + 1]
    ensures EntryOf(id, [tokens[..n], tokens[n..]], hasPos) != EntryOf(id, [tokens], hasPos)
  {
    var ts, fills := TokensOf(tokens, id), [tokens[..n], tokens[n..]];
    TokensOfConcat(tokens[..n], tokens[n..], id);
    assert tokens == tokens[..n] + tokens[n..];
    assert Segments(fills, id) == [ts[..i + 1], ts[i + 1..]];
    OneFill(tokens, id);
    DrainedCanonical(ts);
    CutUnsorted(ts, i);
    DocidsDiffer(Merged(Segments(fills, id)), Drained(ts), hasPos);
  }

  lemma {:induction false} StreamsDiffer(order: seq<nat>, tokens: seq<Token>, fills: seq<seq<Token>>, id: nat, hasPos: bool)
    requires AllTokens(fills) == tokens && AllTokens([tokens]) == tokens && id in order && TokensOf(tokens, id) != []
    requires EntryOf(id, fills, hasPos) != EntryOf(id, [tokens], hasPos)
    ensures Stream(order, fills, hasPos) != Stream(order, [tokens], hasPos)
  {
    var ids := Filter(order, Active(tokens));
    FilterMembers(order, Active(tokens));
    assert id in ids;
    var k :| 0 <= k < |ids| && ids[k] == id;
    assert Stream(order, fills, hasPos)[k] != Stream(order, [tokens], hasPos)[k];
  }

  lemma {:induction false} AllTokensSnoc(fills: seq<seq<Token>>)
    requires fills != []
    ensures AllTokens(fills) == AllTokens(fills[..|fills| - 1]) + fills[|fills| - 1]
  {
  }

  lemma {:induction false} TwoTokens(a: seq<Token>, b: seq<Token>)
    requires AllTokens([a]) == a
    ensures AllTokens([a, b]) == a + b
  {
    var fills := [a, b];
    assert fills[..1] == [a] && fills[1] == b;
    AllTokensSnoc(fills);
  }

  lemma {:induction false} TwoFills(tokens: seq<Token>, n: nat, id: nat)
    requires n <= |tokens|
    ensures AllTokens([tokens[..n], tokens[n..]]) == tokens
  {
    var a, b := tokens[..n], tokens[n..];
    assert tokens == a + b;
    OneFill(a, id);
    TwoTokens(a, b);
  }

  /** A prefix of the tokens with exactly `m` of the term's. */
  lemma {:induction false} PrefixWith(tokens: seq<Token>, id: nat, m: nat) returns (n: nat)
    requires m <= |TokensOf(tokens, id)|
    ensures n <= |tokens| && TokensOf(tokens[..n], id) == TokensOf(tokens, id)[..m]
  {
    n := |tokens|;
    assert tokens[..n] == tokens;
    while |TokensOf(tokens[..n], id)| > m
      invariant n <= |tokens| && m <= |TokensOf(tokens[..n], id)| <= |TokensOf(tokens, id)|
      invariant TokensOf(tokens[..n], id) == TokensOf(tokens, id)[..|TokensOf(tokens[..n], id)|]
      decreases n
    {
      assert tokens[..n][..n - 1] == tokens[..n - 1];
      n := n - 1;
    }
  }

  lemma {:induction false} CutUnsorted(ts: seq<Tok>, i: nat)
    requires i + 1 < |ts| && ts[i].docid > ts[i + 1].docid
    ensures !StrictlyAscending(Merged([ts[..i + 1], ts[i + 1..]]))
  {
    var a, b := ts[..i + 1], ts[i + 1..];
    var segs, front := [a, b], [a];
    assert segs[..1] == front && front[..0] == [];
    assert Merged(front) == Drained(a);
    DrainedCanonical(a);
    DrainedCanonical(b);
    Reaches(a, a[i]);
    Reaches(b, b[0]);
    ConcatAscends(Drained(a), Drained(b));
  }

  lemma {:induction false} DocidsDiffer(g: seq<Doc>, h: seq<Doc>, hasPos: bool)
    requires !StrictlyAscending(g) && StrictlyAscending(h)
    ensures FlatOf(g, hasPos) != FlatOf(h, hasPos)
  {
    var x, y := FlatOf(g, hasPos).docids, FlatOf(h, hasPos).docids;
    assert forall i :: 0 <= i < |g| ==> x[i] == g[i].docid;
    assert forall i :: 0 <= i < |h| ==> y[i] == h[i].docid;
  }

  // ----- what the stream says

  /** The entry holds one strictly ascending record per document of the term, with its
      token count and its positions in arrival order. */
  ghost predicate Means(e: Entry, tokens: seq<Token>, hasPos: bool) {
    exists g :: Canonical(g, TokensOf(tokens, e.term)) && e.postings == FlatOf(g, hasPos)
  }

  ghost predicate Emits(out: seq<Entry>, id: nat) {
    exists i :: 0 <= i < |out| && out[i].term == id
  }

  /** Terms come in dictionary order, each once, exactly those seen, with their meaning. */
  lemma {:induction false} StreamMeaning(vocab: seq<Bytes>, order: seq<nat>, rank: seq<nat>, fills: seq<seq<Token>>, hasPos: bool)
    requires RankTable(vocab, order, rank) && InOrderFeed(AllTokens(fills))
    ensures var out, tokens := Stream(order, fills, hasPos), AllTokens(fills);
            && (forall i :: 0 <= i < |out| ==> out[i].term < |vocab| && Means(out[i], tokens, hasPos))
            && (forall i, j :: 0 <= i < j < |out| ==> Less(vocab[out[i].term], vocab[out[j].term]))
            && (forall id: nat :: id < |vocab| ==> (Emits(out, id) <==> TokensOf(tokens, id) != []))
  {
    var tokens, out := AllTokens(fills), Stream(order, fills, hasPos);
    var ids := Filter(order, Active(tokens));
    FilterSorted(vocab, order, Active(tokens));
    forall id: nat | id < |vocab| ensures Emits(out, id) <==> TokensOf(tokens, id) != [] {
      EmitsActive(order, rank, fills, id, hasPos);
    }
    forall i | 0 <= i < |out| ensures Means(out[i], tokens, hasPos) {
      SegmentsFlatten(fills, ids[i]);
      MergedCanonical(Segments(fills, ids[i]));
    }
  }

  lemma {:induction false} EmitsActive(order: seq<nat>, rank: seq<nat>, fills: seq<seq<Token>>, id: nat, hasPos: bool)
    requires id < |rank| && rank[id] < |order| && order[rank[id]] == id
    ensures Emits(Stream(order, fills, hasPos), id) <==> TokensOf(AllTokens(fills), id) != []
  {
    var tokens, out := AllTokens(fills), Stream(order, fills, hasPos);
    var ids := Filter(order, Active(tokens));
    FilterMembers(order, Active(tokens));
    if TokensOf(tokens, id) != [] {
      assert id in order && id in ids;
      var k :| 0 <= k < |ids| && ids[k] == id;
      assert out[k].term == id;
    }
    if Emits(out, id) {
      var i :| 0 <= i < |out| && out[i].term == id;
      assert ids[i] in ids;
    }
  }

  lemma {:induction false} FilterSorted(vocab: seq<Bytes>, order: seq<nat>, s: set<nat>)
    requires SortedIds(vocab, order)
    ensures SortedIds(vocab, Filter(order, s))
  {
    if order != [] {
      FilterSorted(vocab, order[1..], s);
      FilterMembers(order[1..], s);
      var t := Filter(order[1..], s);
      forall j | 0 <= j < |t| ensures Less(vocab[order[0]], vocab[t[j]]) {
        assert t[j] in t;
        var k :| 0 <= k < |order[1..]| && order[1..][k] == t[j];
        assert order[k + 1] == t[j];
      }
    }
  }
}
