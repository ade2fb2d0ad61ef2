/** The sampled term index: the first term of every dictionary block, front-coded on disk,
    and the choice of the one block that can hold a term. */
module SampledIndex {
  import opened Common
  import opened Varint
  import opened ByteStreams
  import Pieces
  import opened TermOrder
  import opened DictEntries

  // ----- the payload

  function PrevKey(terms: seq<Bytes>, i: nat): Bytes
    requires i < |terms|
  {
    if i == 0 then [] else terms[i - 1]
  }

  /** The keys from `i` on, each coded against the one before. */
  function Keys(terms: seq<Bytes>, i: nat): Bytes
    requires i <= |terms|
    decreases |terms| - i
  {
    if i == |terms| then [] else PutTermKey(terms[i], PrevKey(terms, i)) + Keys(terms, i + 1)
  }

  function Payload(terms: seq<Bytes>): Bytes {
    Encode(|terms|) + if terms == [] then [] else PutTermKey(terms[0], []) + (PutTermKey(terms[|terms| - 1], []) + Keys(terms, 0))
  }

  lemma {:induction false} KeysSnoc(terms: seq<Bytes>, i: nat, out: Bytes, key: Bytes)
    requires i < |terms| && key == PutTermKey(terms[i], PrevKey(terms, i))
    ensures out + Keys(terms, i) == (out + key) + Keys(terms, i + 1)
  {
    Pieces.Cat2(out, key, Keys(terms, i + 1));
  }

  method Finish(terms: seq<Bytes>) returns (payload: Bytes)
    ensures payload == Payload(terms)
  {
    payload := Encode(|terms|);
    if terms == [] {
      assert payload + [] == payload;
      return;
    }
    var keys, prev: Bytes := [], [];
    for i := 0 to |terms|
      invariant keys + Keys(terms, i) == Keys(terms, 0) && (i < |terms| ==> prev == PrevKey(terms, i))
    {
      var key := PutTermKey(terms[i], prev);
      KeysSnoc(terms, i, keys, key);
      keys, prev := keys + key, terms[i];
    }
    assert keys + [] == keys;
    payload := payload + (PutTermKey(terms[0], []) + (PutTermKey(terms[|terms| - 1], []) + keys));
  }

  ghost predicate TermsFit(terms: seq<Bytes>) {
    |terms| < TWO32 && forall i :: 0 <= i < |terms| ==> |terms[i]| < TWO32
  }

  /** One key off the front of the rest. */
  method NextKey(src: Bytes, prev: Bytes, ghost terms: seq<Bytes>, ghost i: nat, ghost good: bool)
    returns (r: Result<Read<Bytes>>)
    requires good ==> TermsFit(terms) && i < |terms| && src == Keys(terms, i) && prev == PrevKey(terms, i)
    ensures good ==> r == Ok(Read(terms[i], Keys(terms, i + 1)))
  {
    if good {
      TermKeyRoundTrip(terms[i], prev, Keys(terms, i + 1));
    }
    r := GetTermKey(src, prev);
  }

  method GetKeys(bytes: Bytes, n: nat, ghost terms: seq<Bytes>, ghost good: bool) returns (r: Result<seq<Bytes>>)
    requires good ==> TermsFit(terms) && n == |terms| && bytes == Keys(terms, 0)
    ensures good ==> r == Ok(terms)
    ensures r.Ok? ==> |r.value| == n
  {
    var src, prev, out: seq<Bytes> := bytes, [], [];
    for i := 0 to n
      invariant |out| == i
      invariant good ==> src == Keys(terms, i) && out == terms[..i] && (i < n ==> prev == PrevKey(terms, i))
    {
      var key := NextKey(src, prev, terms, i, good);
      if key.Error? {
        return Error(key.status);
      }
      src, prev, out := key.value.rest, key.value.value, out + [key.value.value];
    }
    if src != [] {
      return Error(Corruption("payload contains trailing bytes"));
    }
    assert good ==> terms[..n] == terms;
    r := Ok(out);
  }

  /** Reads the payload back; the two boundary keys must agree with the list. */
  method Parse(payload: Bytes, ghost terms: seq<Bytes>) returns (r: Result<seq<Bytes>>)
    ensures payload == Payload(terms) && TermsFit(terms) ==> r == Ok(terms)
  {
    ghost var good := payload == Payload(terms) && TermsFit(terms);
    if good {
      CountFirst(terms);
    }
    var n := GetVarint32(payload);
    if n.Error? {
      return Error(n.status);
    }
    if n.value.value == 0 {
      if n.value.rest != [] {
        return Error(Corruption("empty index contains trailing bytes"));
      }
      return Ok([]);
    }
    if good {
      BoundsFirst(terms);
    }
    var low := GetTermKey(n.value.rest, []);
    if low.Error? {
      return Error(low.status);
    }
    var high := GetTermKey(low.value.rest, []);
    if high.Error? {
      return Error(high.status);
    }
    var out := GetKeys(high.value.rest, n.value.value, terms, good);
    if out.Error? {
      return Error(out.status);
    }
    if out.value[0] != low.value.value || out.value[|out.value| - 1] != high.value.value {
      return Error(Corruption("min/max inconsistent with sample_terms"));
    }
    r := Ok(out.value);
  }

  /** The bytes behind the count. */
  function Body(terms: seq<Bytes>): Bytes {
    if terms == [] then [] else PutTermKey(terms[0], []) + (PutTermKey(terms[|terms| - 1], []) + Keys(terms, 0))
  }

  lemma {:induction false} CountFirst(terms: seq<Bytes>)
    requires TermsFit(terms)
    ensures GetVarint32(Payload(terms)) == Ok(Read(|terms|, Body(terms)))
  {
    VarintFirst(|terms|, Body(terms));
  }

  lemma {:induction false} BoundsFirst(terms: seq<Bytes>)
    requires TermsFit(terms) && terms != []
    ensures var tail := PutTermKey(terms[|terms| - 1], []) + Keys(terms, 0);
            && GetTermKey(Body(terms), []) == Ok(Read(terms[0], tail))
            && GetTermKey(tail, []) == Ok(Read(terms[|terms| - 1], Keys(terms, 0)))
  {
    TermKeyRoundTrip(terms[0], [], PutTermKey(terms[|terms| - 1], []) + Keys(terms, 0));
    TermKeyRoundTrip(terms[|terms| - 1], [], Keys(terms, 0));
  }

  // ----- locating

  /** The last block whose first term is at or before the target; none before the first. */
  method Locate(samples: seq<Bytes>, target: Bytes) returns (k: Option<nat>)
    ensures k.None? <==> samples == [] || Less(target, samples[0])
    ensures k.Some? ==> k.value < |samples| && !Less(target, samples[k.value])
    ensures k.Some? && k.value + 1 < |samples| ==> Less(target, samples[k.value + 1])
  {
    if samples == [] || Less(target, samples[0]) {
      return None;
    }
    var lo: nat, hi: nat := 1, |samples|;
    while lo < hi
      invariant 1 <= lo <= hi <= |samples| && !Less(target, samples[lo - 1]) && (hi < |samples| ==> Less(target, samples[hi]))
    {
      var mid := lo + (hi - lo) / 2;
      if Less(target, samples[mid]) {
        hi := mid;
      } else {
        lo := mid + 1;
      }
    }
    k := Some(lo - 1);
  }
}
