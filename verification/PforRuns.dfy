/** Long arrays as PFOR runs of 256 values. The number of runs is not stored: both sides
    derive it from the length. */
module PforRuns {
  import opened Common
  import opened Varint
  import opened ByteStreams
  import opened Pieces
  import opened Pfor

  function NumRuns(n: nat): nat {
    (n + 255) / 256
  }

  function RunEnd(k: nat, n: nat): nat {
    if 256 * k + 256 <= n then 256 * k + 256 else n
  }

  /** Piece `k` codes the k-th run. */
  ghost predicate RunGood(ps: seq<Bytes>, vs: seq<nat>, k: nat)
    requires k < |ps| && |ps| <= NumRuns(|vs|)
  {
    IsCode(ps[k], vs[256 * k..RunEnd(k, |vs|)])
  }

  ghost predicate RunsGood(ps: seq<Bytes>, vs: seq<nat>, n: nat) {
    && |ps| == n <= NumRuns(|vs|)
    && forall k: nat {:trigger RunGood(ps, vs, k)} :: k < n ==> RunGood(ps, vs, k)
  }

  /** The byte form of the whole array. */
  ghost predicate IsRuns(bytes: Bytes, vs: seq<nat>, ps: seq<Bytes>) {
    RunsGood(ps, vs, NumRuns(|vs|)) && bytes == Join(ps, 0, |ps|)
  }

  ghost predicate Coded(bytes: Bytes, vs: seq<nat>) {
    exists ps :: IsRuns(bytes, vs, ps)
  }

  lemma {:induction false} RunsSnoc(ps: seq<Bytes>, vs: seq<nat>, p: Bytes)
    requires |ps| < NumRuns(|vs|) && RunsGood(ps, vs, |ps|) && IsCode(p, vs[256 * |ps|..RunEnd(|ps|, |vs|)])
    ensures RunsGood(ps + [p], vs, |ps| + 1)
  {
    var n := |ps| + 1;
    var more := ps + [p];
    forall k: nat | k < n ensures RunGood(more, vs, k) {
      if k < |ps| {
        assert RunGood(ps, vs, k);
      }
    }
  }

  method EncodeRuns(vs: seq<nat>) returns (bytes: Bytes)
    requires Values(vs)
    ensures Coded(bytes, vs)
  {
    bytes := [];
    ghost var ps: seq<Bytes> := [];
    for k := 0 to NumRuns(|vs|)
      invariant RunsGood(ps, vs, k) && bytes == Join(ps, 0, k)
    {
      var piece := PforEncode(vs[256 * k..RunEnd(k, |vs|)]);
      RunsSnoc(ps, vs, piece);
      JoinGrows(ps, piece, k);
      ps := ps + [piece];
      JoinSnoc(ps, k);
      bytes := bytes + piece;
    }
    assert IsRuns(bytes, vs, ps);
  }

  /** One run off the front. */
  method DecodeRun(src: Bytes, k: nat, n: nat, ghost vs: seq<nat>, ghost ps: seq<Bytes>, ghost rest: Bytes, ghost good: bool)
    returns (r: Result<Read<seq<nat>>>)
    requires k < NumRuns(n)
    requires good ==> Values(vs) && n == |vs| && RunsGood(ps, vs, NumRuns(n)) && src == Join(ps, k, |ps|) + rest
    ensures r.Ok? ==> |r.value.value| == RunEnd(k, n) - 256 * k
    ensures good ==> r == Ok(Read(vs[256 * k..RunEnd(k, n)], Join(ps, k + 1, |ps|) + rest))
  {
    ghost var run: seq<nat>, piece: Bytes, tail: Bytes := [], [], [];
    if good {
      assert RunGood(ps, vs, k);
      run, piece, tail := vs[256 * k..RunEnd(k, n)], ps[k], Join(ps, k + 1, |ps|) + rest;
      assert src == piece + tail;
    }
    r := PforDecode(src, RunEnd(k, n) - 256 * k, run, piece, tail);
  }

  /** Reads `n` values back from as many runs as `n` calls for. */
  method DecodeRuns(src: Bytes, n: nat, ghost vs: seq<nat>, ghost bytes: Bytes, ghost rest: Bytes, ghost good: bool)
    returns (r: Result<Read<seq<nat>>>)
    requires good ==> Values(vs) && n == |vs| && Coded(bytes, vs) && src == bytes + rest
    ensures r.Ok? ==> |r.value.value| == n
    ensures good ==> r == Ok(Read(vs, rest))
  {
    ghost var ps: seq<Bytes> := [];
    if good {
      ps :| IsRuns(bytes, vs, ps);
    }
    var s, out: seq<nat> := src, [];
    for k := 0 to NumRuns(n)
      invariant |out| == if 256 * k <= n then 256 * k else n
      invariant good ==> s == Join(ps, k, |ps|) + rest && out == vs[..|out|]
    {
      var run := DecodeRun(s, k, n, vs, ps, rest, good);
      if run.Error? {
        return Error(run.status);
      }
      if good {
        PrefixGrows(vs, 256 * k, RunEnd(k, n));
      }
      s, out := run.value.rest, out + run.value.value;
    }
    if good {
      assert [] + rest == rest && vs[..n] == vs;
    }
    r := Ok(Read(out, s));
  }

  lemma {:induction false} PrefixGrows(vs: seq<nat>, i: nat, j: nat)
    requires i <= j <= |vs|
    ensures vs[..i] + vs[i..j] == vs[..j]
  {
  }

  // ----- sizes

  /** An exception of a run: its place takes at most two bytes, its value at most five. */
  ghost predicate Small(e: Exc) {
    e.index < 256 && e.value < TWO32
  }

  lemma {:induction false} PairLength(d: nat, v: nat, tail: Bytes)
    requires d < 256 && v < TWO32
    ensures |Encode(d) + (Encode(v) + tail)| <= 7 + |tail|
  {
    FiveDigits();
    EncodedLength(d, 2);
    EncodedLength(v, 5);
  }

  lemma {:induction false} FiveDigits()
    ensures Scale(2) == 16384 && Scale(5) == 0x8_0000_0000
  {
    assert Scale(1) == 128 && Scale(2) == 128 * 128;
    assert Scale(3) == 128 * Scale(2) && Scale(4) == 128 * Scale(3);
    assert Scale(5) == 128 * Scale(4);
  }

  lemma {:induction false} ExcStep(exc: seq<Exc>, i: nat)
    requires i < |exc| && Rising(exc) && Small(exc[i])
    ensures |PutExc(exc, i)| <= 7 + |PutExc(exc, i + 1)|
  {
    assert i > 0 ==> exc[i - 1].index < exc[i].index;
    PairLength(exc[i].index - PrevIndex(exc, i), exc[i].value, PutExc(exc, i + 1));
  }

  lemma {:induction false} ExcLength(exc: seq<Exc>, i: nat)
    requires i <= |exc| && Rising(exc) && forall k {:trigger Small(exc[k])} :: 0 <= k < |exc| ==> Small(exc[k])
    ensures |PutExc(exc, i)| <= 7 * (|exc| - i)
    decreases |exc| - i
  {
    if i < |exc| {
      assert Small(exc[i]);
      ExcStep(exc, i);
      ExcLength(exc, i + 1);
    }
  }

  /** The cheapest width costs no more than three bytes a value and six per value that
      needs more. */
  lemma {:induction false} CheapestBound(vs: seq<nat>, w: nat)
    requires Cheapest(vs, w)
    ensures PackedLen(w, |vs|) + 6 * Wide(vs, w, |vs|) <= 3 * |vs| + 6 * Wide(vs, 24, |vs|)
  {
    assert Cost(vs, w) <= Cost(vs, 24);
    assert Off(24, |vs|) == 24 * |vs|;
  }

  lemma {:induction false} CodeParts(bytes: Bytes, vs: seq<nat>, w: nat, packed: Bytes)
    requires Values(vs) && |vs| <= 256 && Codes(bytes, vs, w, packed)
    ensures |bytes| <= 3 + PackedLen(w, |vs|) + 7 * Wide(vs, w, |vs|)
  {
    var exc := ExcOf(vs, w, |vs|);
    ExcOfGood(vs, w, |vs|);
    ExcCount(vs, w, |vs|);
    ExcLength(exc, 0);
    FiveDigits();
    EncodedLength(|exc|, 2);
    HeadLength(w as byte, Encode(|exc|), packed, PutExc(exc, 0));
  }

  lemma {:induction false} HeadLength(w: byte, count: Bytes, packed: Bytes, tail: Bytes)
    ensures |[w] + (count + (packed + tail))| == 1 + |count| + |packed| + |tail|
  {
  }

  /** A run takes at most 899 bytes and seven more per value of more than 24 bits. */
  lemma {:induction false} CodeLength(bytes: Bytes, vs: seq<nat>)
    requires Values(vs) && |vs| <= 256 && IsCode(bytes, vs)
    ensures |bytes| <= 899 + 7 * Wide(vs, 24, |vs|)
  {
    var w: nat, packed: Bytes :| Codes(bytes, vs, w, packed);
    CodeParts(bytes, vs, w, packed);
    CheapestBound(vs, w);
  }

  lemma {:induction false} WideCut(vs: seq<nat>, w: nat, i: nat, j: nat)
    requires i <= j <= |vs|
    ensures Wide(vs, w, j) == Wide(vs, w, i) + Wide(vs[i..j], w, j - i)
    decreases j
  {
    if i < j {
      WideCut(vs, w, i, j - 1);
      WidePrefix(vs[i..j - 1], vs[i..j], w, j - 1 - i);
    }
  }

  lemma {:induction false} WidePrefix(a: seq<nat>, b: seq<nat>, w: nat, n: nat)
    requires n <= |a| && n <= |b| && forall k :: 0 <= k < n ==> a[k] == b[k]
    ensures Wide(a, w, n) == Wide(b, w, n)
  {
    if n > 0 {
      WidePrefix(a, b, w, n - 1);
    }
  }

  lemma {:induction false} JoinLength(ps: seq<Bytes>, vs: seq<nat>, k: nat)
    requires Values(vs) && RunsGood(ps, vs, NumRuns(|vs|)) && k <= |ps|
    ensures |Join(ps, 0, k)| <= 899 * k + 7 * Wide(vs, 24, if 256 * k <= |vs| then 256 * k else |vs|)
  {
    if k > 0 {
      assert RunGood(ps, vs, k - 1);
      JoinLength(ps, vs, k - 1);
      JoinSnoc(ps, k - 1);
      CodeLength(ps[k - 1], vs[256 * (k - 1)..RunEnd(k - 1, |vs|)]);
      WideCut(vs, 24, 256 * (k - 1), RunEnd(k - 1, |vs|));
    }
  }

  /** The whole array: 899 bytes a run and seven per value of more than 24 bits. */
  lemma {:induction false} CodedLength(bytes: Bytes, vs: seq<nat>)
    requires Values(vs) && Coded(bytes, vs)
    ensures |bytes| <= 899 * NumRuns(|vs|) + 7 * Wide(vs, 24, |vs|)
  {
    var ps :| IsRuns(bytes, vs, ps);
    JoinLength(ps, vs, |ps|);
  }

  /** A window of at most 1024 values takes at most four runs. */
  lemma {:induction false} RunsLength(bytes: Bytes, vs: seq<nat>)
    requires Values(vs) && |vs| <= 1024 && Coded(bytes, vs)
    ensures |bytes| <= 24620
  {
    CodedLength(bytes, vs);
    ExcCount(vs, 24, |vs|);
  }
}
