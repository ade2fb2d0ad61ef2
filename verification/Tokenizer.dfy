/** Interning a corpus in parallel: contiguous shards with local vocabularies, merged in
    shard order, against one sequential first-occurrence pass. */
module Tokenizer {
  import opened Common

  datatype Corpus = Corpus(vocab: seq<Bytes>, docs: seq<seq<nat>>)

  // ----- the sequential pass

  function Add(vocab: seq<Bytes>, t: Bytes): seq<Bytes> {
    if t in vocab then vocab else vocab + [t]
  }

  /** The vocabulary after reading the tokens: each new one appended when first met. */
  function Intern(vocab: seq<Bytes>, toks: seq<Bytes>): seq<Bytes> {
    if toks == [] then vocab else Add(Intern(vocab, toks[..|toks| - 1]), toks[|toks| - 1])
  }

  function IndexOf(vocab: seq<Bytes>, t: Bytes): (i: nat)
    requires t in vocab
    ensures i < |vocab| && vocab[i] == t
  {
    if vocab[0] == t then 0 else 1 + IndexOf(vocab[1..], t)
  }

  ghost predicate Known(vocab: seq<Bytes>, toks: seq<Bytes>) {
    forall i :: 0 <= i < |toks| ==> toks[i] in vocab
  }

  function Ids(vocab: seq<Bytes>, toks: seq<Bytes>): (r: seq<nat>)
    requires Known(vocab, toks)
    ensures |r| == |toks| && forall i :: 0 <= i < |toks| ==> r[i] == IndexOf(vocab, toks[i])
  {
    seq(|toks|, i requires 0 <= i < |toks| => IndexOf(vocab, toks[i]))
  }

  function Flatten(docs: seq<seq<Bytes>>): seq<Bytes> {
    if docs == [] then [] else Flatten(docs[..|docs| - 1]) + docs[|docs| - 1]
  }

  function VocabOf(docs: seq<seq<Bytes>>): seq<Bytes> {
    Intern([], Flatten(docs))
  }

  /** The corpus is the sequential pass's. */
  ghost predicate Sequential(c: Corpus, docs: seq<seq<Bytes>>) {
    && c.vocab == VocabOf(docs) && DocsDone(c.docs, c.vocab, docs, |docs|)
  }

  ghost predicate DocDone(ids: seq<nat>, vocab: seq<Bytes>, toks: seq<Bytes>) {
    Known(vocab, toks) && ids == Ids(vocab, toks)
  }

  ghost predicate DocsDone(out: seq<seq<nat>>, vocab: seq<Bytes>, docs: seq<seq<Bytes>>, n: nat) {
    && |out| == n <= |docs|
    && forall d {:trigger DocDone(out[d], vocab, docs[d])} :: 0 <= d < n ==> DocDone(out[d], vocab, docs[d])
  }

  // ----- facts about interning

  lemma {:induction false} InternMembers(vocab: seq<Bytes>, toks: seq<Bytes>)
    ensures vocab <= Intern(vocab, toks)
    ensures forall x :: x in Intern(vocab, toks) <==> x in vocab || x in toks
  {
    if toks != [] {
      var n := |toks| - 1;
      InternMembers(vocab, toks[..n]);
      assert toks == toks[..n] + [toks[n]];
    }
  }

  lemma {:induction false} InternConcat(vocab: seq<Bytes>, a: seq<Bytes>, b: seq<Bytes>)
    ensures Intern(vocab, a + b) == Intern(Intern(vocab, a), b)
  {
    if b == [] {
      assert a + b == a;
    } else {
      var n := |b| - 1;
      InternConcat(vocab, a, b[..n]);
      assert (a + b)[..|a + b| - 1] == a + b[..n];
    }
  }

  /** Merging a local vocabulary is reading the shard's tokens. */
  lemma {:induction false} InternLocal(vocab: seq<Bytes>, toks: seq<Bytes>)
    ensures Intern(vocab, Intern([], toks)) == Intern(vocab, toks)
  {
    if toks != [] {
      var n := |toks| - 1;
      var local, t := Intern([], toks[..n]), toks[n];
      InternLocal(vocab, toks[..n]);
      InternMembers([], toks[..n]);
      InternMembers(vocab, toks[..n]);
      if t !in local {
        assert (local + [t])[..|local|] == local;
      }
    }
  }

  lemma {:induction false} InternDistinct(vocab: seq<Bytes>, toks: seq<Bytes>)
    requires Distinct(vocab)
    ensures Distinct(Intern(vocab, toks))
  {
    if toks != [] {
      InternDistinct(vocab, toks[..|toks| - 1]);
    }
  }

  /** An id stays what it was when the vocabulary grows. */
  lemma {:induction false} IndexStable(vocab: seq<Bytes>, more: seq<Bytes>, t: Bytes)
    requires t in vocab && vocab <= more
    ensures t in more && IndexOf(more, t) == IndexOf(vocab, t)
  {
    assert more == vocab + more[|vocab|..];
    if vocab[0] != t {
      assert t in vocab[1..];
      IndexStable(vocab[1..], more[1..], t);
    }
  }

  lemma {:induction false} IndexAt(vocab: seq<Bytes>, i: nat)
    requires Distinct(vocab) && i < |vocab|
    ensures IndexOf(vocab, vocab[i]) == i
  {
    var k := IndexOf(vocab, vocab[i]);
  }

  lemma {:induction false} DocStable(ids: seq<nat>, vocab: seq<Bytes>, more: seq<Bytes>, toks: seq<Bytes>)
    requires DocDone(ids, vocab, toks) && vocab <= more
    ensures DocDone(ids, more, toks)
  {
    forall i | 0 <= i < |toks| ensures toks[i] in more && IndexOf(more, toks[i]) == ids[i] {
      IndexStable(vocab, more, toks[i]);
    }
  }

  lemma {:induction false} InternSnoc(vocab: seq<Bytes>, toks: seq<Bytes>, i: nat)
    requires i < |toks|
    ensures Intern(vocab, toks[..i + 1]) == Add(Intern(vocab, toks[..i]), toks[i])
  {
    assert toks[..i + 1][..i] == toks[..i];
  }

  lemma {:induction false} DocSnoc(ids: seq<nat>, vocab: seq<Bytes>, more: seq<Bytes>, toks: seq<Bytes>, i: nat, id: nat)
    requires i < |toks| && DocDone(ids, vocab, toks[..i]) && vocab <= more && toks[i] in more && id == IndexOf(more, toks[i])
    ensures DocDone(ids + [id], more, toks[..i + 1])
  {
    DocStable(ids, vocab, more, toks[..i]);
    assert toks[..i + 1] == toks[..i] + [toks[i]];
  }

  // ----- interning through a hash index

  ghost predicate Indexes(index: map<Bytes, nat>, vocab: seq<Bytes>) {
    && Distinct(vocab)
    && (forall t :: t in index <==> t in vocab)
    && (forall t :: t in index ==> index[t] < |vocab| && vocab[index[t]] == t)
  }

  /** Finds or appends the token. */
  method InternOne(vocab: seq<Bytes>, index: map<Bytes, nat>, t: Bytes)
    returns (vocab': seq<Bytes>, index': map<Bytes, nat>, id: nat)
    requires Indexes(index, vocab)
    ensures vocab' == Add(vocab, t) && Indexes(index', vocab') && id == IndexOf(vocab', t)
  {
    if t in index {
      vocab', index', id := vocab, index, index[t];
    } else {
      id := |vocab|;
      vocab', index' := vocab + [t], index[t := |vocab|];
      assert vocab'[id] == t;
    }
    IndexAt(vocab', id);
  }

  datatype Shard = Shard(vocab: seq<Bytes>, docs: seq<seq<nat>>)

  /** One worker: its documents against a vocabulary of its own. */
  method TokenizeShard(docs: seq<seq<Bytes>>) returns (s: Shard)
    ensures s.vocab == VocabOf(docs) && DocsDone(s.docs, s.vocab, docs, |docs|)
  {
    var vocab: seq<Bytes>, index: map<Bytes, nat>, out: seq<seq<nat>> := [], map[], [];
    assert docs[..0] == [];
    for d := 0 to |docs|
      invariant vocab == VocabOf(docs[..d]) && Indexes(index, vocab) && DocsDone(out, vocab, docs, d)
    {
      var ids;
      ghost var was, had := vocab, out;
      vocab, index, ids := InternDoc(vocab, index, docs[d]);
      VocabSnoc(docs, d);
      InternMembers(was, docs[d]);
      out := out + [ids];
      DocsGrow(had, was, vocab, docs, d, ids);
    }
    assert docs[..|docs|] == docs;
    s := Shard(vocab, out);
  }

  method InternDoc(vocab: seq<Bytes>, index: map<Bytes, nat>, toks: seq<Bytes>)
    returns (vocab': seq<Bytes>, index': map<Bytes, nat>, ids: seq<nat>)
    requires Indexes(index, vocab)
    ensures vocab' == Intern(vocab, toks) && Indexes(index', vocab') && DocDone(ids, vocab', toks)
  {
    vocab', index', ids := vocab, index, [];
    assert toks[..0] == [];
    for i := 0 to |toks|
      invariant vocab' == Intern(vocab, toks[..i]) && Indexes(index', vocab') && DocDone(ids, vocab', toks[..i])
    {
      var id;
      ghost var was := vocab';
      vocab', index', id := InternOne(vocab', index', toks[i]);
      InternSnoc(vocab, toks, i);
      DocSnoc(ids, was, vocab', toks, i, id);
      ids := ids + [id];
    }
    assert toks[..|toks|] == toks;
  }

  lemma {:induction false} VocabSnoc(docs: seq<seq<Bytes>>, d: nat)
    requires d < |docs|
    ensures VocabOf(docs[..d + 1]) == Intern(VocabOf(docs[..d]), docs[d])
  {
    assert docs[..d + 1][..d] == docs[..d];
    InternConcat([], Flatten(docs[..d]), docs[d]);
  }

  lemma {:induction false} DocsGrow(out: seq<seq<nat>>, vocab: seq<Bytes>, more: seq<Bytes>, docs: seq<seq<Bytes>>, d: nat, ids: seq<nat>)
    requires DocsDone(out, vocab, docs, d) && vocab <= more && d < |docs| && DocDone(ids, more, docs[d])
    ensures DocsDone(out + [ids], more, docs, d + 1)
  {
    var out' := out + [ids];
    forall x | 0 <= x < d + 1 ensures DocDone(out'[x], more, docs[x]) {
      if x < d {
        assert DocDone(out[x], vocab, docs[x]);
        DocStable(out[x], vocab, more, docs[x]);
      }
    }
  }

  // ----- shard bounds

  /** Where shard `s` of `t` starts: the first n % t shards get one extra document. */
  function ShardLo(n: nat, t: nat, s: nat): nat
    requires t > 0
  {
    s * (n / t) + Min(s, n % t)
  }

  lemma {:induction false} ShardSpan(n: nat, t: nat, s: nat)
    requires t > 0
    ensures ShardLo(n, t, s + 1) == ShardLo(n, t, s) + n / t + if s < n % t then 1 else 0
  {
    assert (s + 1) * (n / t) == s * (n / t) + n / t;
  }

  lemma {:induction false} ShardEnds(n: nat, t: nat)
    requires t > 0
    ensures ShardLo(n, t, 0) == 0 && ShardLo(n, t, t) == n
  {
    assert t * (n / t) + n % t == n;
  }

  lemma {:induction false} ShardInside(n: nat, t: nat, s: nat)
    requires t > 0 && s <= t
    ensures ShardLo(n, t, s) <= n
    decreases t - s
  {
    if s == t {
      ShardEnds(n, t);
    } else {
      ShardSpan(n, t, s);
      ShardInside(n, t, s + 1);
    }
  }

  // ----- the merge

  /** Maps a shard's local ids to global ones, appending the terms it saw first. */
  method MergeVocab(vocab: seq<Bytes>, index: map<Bytes, nat>, local: seq<Bytes>)
    returns (r: Result<seq<Bytes>>, index': map<Bytes, nat>, remap: seq<nat>)
    requires Indexes(index, vocab)
    ensures r.Ok? <==> |Intern(vocab, local)| <= MAX32 || |Intern(vocab, local)| == |vocab|
    ensures r.Ok? ==> r.value == Intern(vocab, local) && Indexes(index', r.value)
    ensures r.Ok? ==> DocDone(remap, r.value, local)
  {
    var global := vocab;
    index', remap := index, [];
    assert local[..0] == [];
    for i := 0 to |local|
      invariant global == Intern(vocab, local[..i]) && Indexes(index', global) && DocDone(remap, global, local[..i])
      invariant |global| <= MAX32 || |global| == |vocab|
    {
      InternSnoc(vocab, local, i);
      if local[i] !in index' && |global| >= MAX32 {
        TooLarge(vocab, local, i);
        return Error(InvalidArgument("vocab size exceeds uint32 range")), index', remap;
      }
      ghost var was := global;
      var id;
      global, index', id := InternOne(global, index', local[i]);
      DocSnoc(remap, was, global, local, i, id);
      remap := remap + [id];
    }
    assert local[..|local|] == local;
    r := Ok(global);
  }

  lemma {:induction false} TooLarge(vocab: seq<Bytes>, local: seq<Bytes>, i: nat)
    requires i < |local| && |Intern(vocab, local[..i])| >= MAX32 && local[i] !in Intern(vocab, local[..i])
    ensures |Intern(vocab, local)| > MAX32 && |Intern(vocab, local)| > |vocab|
  {
    InternSnoc(vocab, local, i);
    InternMembers(vocab, local[..i]);
    assert local == local[..i + 1] + local[i + 1..];
    InternConcat(vocab, local[..i + 1], local[i + 1..]);
    InternMembers(Intern(vocab, local[..i + 1]), local[i + 1..]);
  }

  /** Rewrites one document's local ids. */
  method RemapDoc(ids: seq<nat>, remap: seq<nat>, ghost local: seq<Bytes>, ghost global: seq<Bytes>, ghost toks: seq<Bytes>)
    returns (out: seq<nat>)
    requires DocDone(ids, local, toks) && DocDone(remap, global, local)
    ensures DocDone(out, global, toks)
  {
    out := [];
    for i := 0 to |ids|
      invariant |out| == i && forall j :: 0 <= j < i ==> toks[j] in global && out[j] == IndexOf(global, toks[j])
    {
      assert local[ids[i]] == toks[i];
      out := out + [remap[ids[i]]];
    }
  }

  /** Merges one shard behind the documents already merged. */
  method MergeShard(c: Corpus, index: map<Bytes, nat>, s: Shard, ghost docs: seq<seq<Bytes>>, ghost lo: nat, ghost hi: nat)
    returns (r: Result<Corpus>, index': map<Bytes, nat>)
    requires lo <= hi <= |docs| && c.vocab == VocabOf(docs[..lo]) && Indexes(index, c.vocab) && DocsDone(c.docs, c.vocab, docs, lo)
    requires s.vocab == VocabOf(docs[lo..hi]) && DocsDone(s.docs, s.vocab, docs[lo..hi], hi - lo)
    ensures r.Ok? <==> |VocabOf(docs[..hi])| <= MAX32 || |VocabOf(docs[..hi])| == |c.vocab|
    ensures r.Ok? ==> r.value.vocab == VocabOf(docs[..hi]) && Indexes(index', r.value.vocab) && DocsDone(r.value.docs, r.value.vocab, docs, hi)
  {
    VocabJoin(docs, lo, hi);
    InternMembers(c.vocab, s.vocab);
    var merged, remap;
    merged, index', remap := MergeVocab(c.vocab, index, s.vocab);
    if merged.Error? {
      return Error(merged.status), index';
    }
    DocsKeep(c.docs, c.vocab, merged.value, docs, lo);
    var out := AppendDocs(c.docs, s, remap, merged.value, docs, lo, hi);
    r := Ok(Corpus(merged.value, out));
  }

  /** The shard's documents behind the others, in global ids. */
  method AppendDocs(done: seq<seq<nat>>, s: Shard, remap: seq<nat>, ghost vocab: seq<Bytes>, ghost docs: seq<seq<Bytes>>, ghost lo: nat, ghost hi: nat)
    returns (out: seq<seq<nat>>)
    requires lo <= hi <= |docs| && DocsDone(done, vocab, docs, lo) && DocDone(remap, vocab, s.vocab)
    requires DocsDone(s.docs, s.vocab, docs[lo..hi], hi - lo)
    ensures DocsDone(out, vocab, docs, hi)
  {
    out := done;
    for i := 0 to |s.docs|
      invariant DocsDone(out, vocab, docs, lo + i)
    {
      assert DocDone(s.docs[i], s.vocab, docs[lo..hi][i]) && docs[lo..hi][i] == docs[lo + i];
      var ids := RemapDoc(s.docs[i], remap, s.vocab, vocab, docs[lo + i]);
      DocsGrow(out, vocab, vocab, docs, lo + i, ids);
      out := out + [ids];
    }
  }

  lemma {:induction false} DocsKeep(out: seq<seq<nat>>, vocab: seq<Bytes>, more: seq<Bytes>, docs: seq<seq<Bytes>>, n: nat)
    requires DocsDone(out, vocab, docs, n) && vocab <= more
    ensures DocsDone(out, more, docs, n)
  {
    forall x | 0 <= x < n ensures DocDone(out[x], more, docs[x]) {
      assert DocDone(out[x], vocab, docs[x]);
      DocStable(out[x], vocab, more, docs[x]);
    }
  }

  lemma {:induction false} FlattenConcat(a: seq<seq<Bytes>>, b: seq<seq<Bytes>>)
    ensures Flatten(a + b) == Flatten(a) + Flatten(b)
  {
    if b == [] {
      assert a + b == a;
    } else {
      assert (a + b)[..|a + b| - 1] == a + b[..|b| - 1];
      FlattenConcat(a, b[..|b| - 1]);
    }
  }

  /** The next shard's vocabulary, merged, is the pass's vocabulary at its end. */
  lemma {:induction false} VocabJoin(docs: seq<seq<Bytes>>, lo: nat, hi: nat)
    requires lo <= hi <= |docs|
    ensures VocabOf(docs[..hi]) == Intern(VocabOf(docs[..lo]), VocabOf(docs[lo..hi]))
  {
    assert docs[..hi] == docs[..lo] + docs[lo..hi];
    FlattenConcat(docs[..lo], docs[lo..hi]);
    InternConcat([], Flatten(docs[..lo]), Flatten(docs[lo..hi]));
    InternLocal(VocabOf(docs[..lo]), Flatten(docs[lo..hi]));
  }

  /** The parallel pass, for any number of threads. */
  method TokenizeCorpus(docs: seq<seq<Bytes>>, threads: nat) returns (r: Result<Corpus>)
    ensures r.Ok? ==> Sequential(r.value, docs)
    ensures r.Ok? <==> |docs| < MAX32 && |VocabOf(docs)| <= MAX32
  {
    var n := |docs|;
    if n >= MAX32 {
      return Error(InvalidArgument("doc count exceeds uint32 range"));
    }
    if n == 0 {
      return Ok(Corpus([], []));
    }
    var t := Min(if threads == 0 then 1 else threads, n);
    var shards := RunShards(docs, t);
    var c, index := Corpus([], []), map[];
    ShardEnds(n, t);
    assert docs[..0] == [] && docs[..n] == docs;
    for s := 0 to t
      invariant ShardLo(n, t, s) <= n && c.vocab == VocabOf(docs[..ShardLo(n, t, s)]) && Indexes(index, c.vocab)
      invariant DocsDone(c.docs, c.vocab, docs, ShardLo(n, t, s)) && |c.vocab| <= MAX32
    {
      ghost var lo, hi := ShardLo(n, t, s), ShardLo(n, t, s + 1);
      ShardSpan(n, t, s);
      ShardInside(n, t, s + 1);
      assert ShardDone(shards[s], docs, t, s);
      var merged;
      merged, index := MergeShard(c, index, shards[s], docs, lo, hi);
      if merged.Error? {
        VocabGrows(docs, hi);
        return Error(merged.status);
      }
      c := merged.value;
    }
    r := Ok(c);
  }

  lemma {:induction false} VocabGrows(docs: seq<seq<Bytes>>, hi: nat)
    requires hi <= |docs|
    ensures |VocabOf(docs[..hi])| <= |VocabOf(docs)|
  {
    VocabJoin(docs, hi, |docs|);
    assert docs[..|docs|] == docs;
    InternMembers(VocabOf(docs[..hi]), VocabOf(docs[hi..]));
  }

  ghost predicate ShardDone(s: Shard, docs: seq<seq<Bytes>>, t: nat, k: nat)
    requires t > 0
  {
    var lo, hi := ShardLo(|docs|, t, k), ShardLo(|docs|, t, k + 1);
    && lo <= hi <= |docs| && s.vocab == VocabOf(docs[lo..hi]) && DocsDone(s.docs, s.vocab, docs[lo..hi], hi - lo)
  }

  lemma {:induction false} ShardBounds(n: nat, t: nat, k: nat)
    requires t > 0 && k < t
    ensures ShardLo(n, t, k) <= ShardLo(n, t, k + 1) <= n
  {
    ShardSpan(n, t, k);
    ShardInside(n, t, k + 1);
  }

  method RunShard(docs: seq<seq<Bytes>>, t: nat, k: nat) returns (s: Shard)
    requires t > 0 && k < t
    ensures ShardDone(s, docs, t, k)
  {
    ShardBounds(|docs|, t, k);
    var lo, hi := ShardLo(|docs|, t, k), ShardLo(|docs|, t, k + 1);
    s := TokenizeShard(docs[lo..hi]);
  }

  /** The workers share nothing, so their order does not matter; here they run in turn. */
  method RunShards(docs: seq<seq<Bytes>>, t: nat) returns (shards: seq<Shard>)
    requires t > 0
    ensures |shards| == t
    ensures forall k: nat {:trigger ShardDone(shards[k], docs, t, k)} :: k < t ==> ShardDone(shards[k], docs, t, k)
  {
    shards := [];
    for k := 0 to t
      invariant |shards| == k
      invariant forall j: nat {:trigger ShardDone(shards[j], docs, t, j)} :: j < k ==> ShardDone(shards[j], docs, t, j)
    {
      var s := RunShard(docs, t, k);
      ghost var was := shards;
      shards := shards + [s];
      forall j: nat | j < k + 1 ensures ShardDone(shards[j], docs, t, j) {
        assert j < k ==> ShardDone(was[j], docs, t, j);
      }
    }
  }
}
