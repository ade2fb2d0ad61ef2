/** The forward-only cursor over the chunks read for a term. It decodes each chunk's
    positions into two flat arrays at most once, when the first of them is asked for. */
module PostingCursor {
  import opened Common
  import opened DocidSets
  import opened PositionalPostings

  ghost predicate Cut(flat: seq<nat>, lo: nat, hi: nat, list: seq<nat>) {
    lo <= hi <= |flat| && flat[lo..hi] == list
  }

  /** `off` cuts `flat` into the documents' position lists. */
  ghost predicate Csr(prx: seq<seq<nat>>, flat: seq<nat>, off: seq<nat>) {
    && |off| == |prx| + 1
    && forall j {:trigger Cut(flat, off[j], off[j + 1], prx[j])} :: 0 <= j < |prx| ==> Cut(flat, off[j], off[j + 1], prx[j])
  }

  lemma {:induction false} CsrSnoc(prx: seq<seq<nat>>, flat: seq<nat>, off: seq<nat>, list: seq<nat>)
    requires Csr(prx, flat, off) && off[|prx|] == |flat|
    ensures Csr(prx + [list], flat + list, off + [|flat + list|])
  {
    var prx', flat', off' := prx + [list], flat + list, off + [|flat + list|];
    forall j | 0 <= j < |prx'| ensures Cut(flat', off'[j], off'[j + 1], prx'[j]) {
      if j < |prx| {
        assert Cut(flat, off[j], off[j + 1], prx[j]);
        assert flat'[off[j]..off[j + 1]] == flat[off[j]..off[j + 1]];
      }
    }
  }

  method DecodeCsr(prx: seq<seq<nat>>) returns (flat: seq<nat>, off: seq<nat>)
    ensures Csr(prx, flat, off)
  {
    flat, off := [], [0];
    for d := 0 to |prx|
      invariant Csr(prx[..d], flat, off) && off[d] == |flat|
    {
      assert prx[..d + 1] == prx[..d] + [prx[d]];
      CsrSnoc(prx[..d], flat, off, prx[d]);
      flat := flat + prx[d];
      off := off + [|flat|];
    }
    assert prx[..|prx|] == prx;
  }

  /** (i, j) comes before (ci, li) in reading order. */
  predicate Earlier(i: nat, j: nat, ci: nat, li: nat) {
    i < ci || (i == ci && j < li)
  }

  /** Every document before (ci, li) is below `target`. */
  ghost predicate AllBelow(cs: seq<Chunk>, ci: nat, li: nat, target: nat) {
    forall d: nat, i: nat, j: nat :: Located(cs, d, i, j) && Earlier(i, j, ci, li) ==> d < target
  }

  class Cursor {
    const src: seq<Chunk>
    var ci: nat
    var li: nat
    var decodedChunk: Option<nat>
    var flat: seq<nat>
    var off: seq<nat>
    /** The chunks whose positions have been decoded, in order. */
    ghost var decodes: seq<nat>

    ghost predicate Valid()
      reads this
    {
      && ValidChunks(src)
      && (decodedChunk.Some? ==>
            && decodedChunk.value < |src| && decodes != [] && decodes[|decodes| - 1] == decodedChunk.value
            && Csr(src[decodedChunk.value].prx, flat, off))
      && (decodes != [] ==> decodedChunk == Some(decodes[|decodes| - 1]))
      && Ascending(decodes) && (decodes != [] ==> decodes[|decodes| - 1] <= ci)
    }

    /** Everything passed so far is below `target`. */
    ghost predicate Behind(target: nat)
      reads this
    {
      AllBelow(src, ci, li, target)
    }

    constructor (src: seq<Chunk>)
      requires ValidChunks(src)
      ensures Valid() && this.src == src && forall target :: Behind(target)
    {
      this.src := src;
      ci, li, decodedChunk, flat, off, decodes := 0, 0, None, [], [], [];
    }

    /** Moves forward only; lands on `target` whenever the chunks have it. */
    method Seek(target: nat)
      requires Valid() && Behind(target)
      modifies this`ci, this`li
      ensures Valid() && Behind(target)
      ensures ci >= old(ci) && (ci == old(ci) ==> li >= old(li))
      ensures Has(src, target) ==> Located(src, target, ci, li)
    {
      while ci < |src| && (src[ci].docids == [] || src[ci].docids[|src[ci].docids| - 1] < target)
        invariant Valid() && Behind(target)
        invariant ci >= old(ci) && (ci == old(ci) ==> li >= old(li))
        decreases |src| - ci
      {
        ChunkPassed(src, ci, li, target);
        ci, li := ci + 1, 0;
      }
      if ci < |src| {
        var docids := src[ci].docids;
        while li < |docids| && docids[li] < target
          invariant ci < |src| && src[ci].docids == docids != [] && docids[|docids| - 1] >= target
          invariant Valid() && Behind(target)
          invariant ci >= old(ci) && (ci == old(ci) ==> li >= old(li))
          decreases |docids| - li
        {
          DocPassed(src, ci, li, target);
          li := li + 1;
        }
      }
      if Has(src, target) {
        Lands(src, ci, li, target);
      }
    }

    /** The positions of the current document; an error when there is none. */
    method Positions() returns (r: Result<seq<nat>>)
      requires Valid()
      modifies this`decodedChunk, this`flat, this`off, this`decodes
      ensures Valid()
      ensures r.Ok? <==> ci < |src| && li < |src[ci].docids|
      ensures r.Ok? ==> li < |src[ci].prx| && r.value == src[ci].prx[li]
    {
      if ci >= |src| || li >= |src[ci].docids| {
        return Error(Corruption("cursor positions out of range"));
      }
      assert ValidChunk(src[ci]);
      if decodedChunk != Some(ci) {
        AscendingSnoc(decodes, ci);
        flat, off := DecodeCsr(src[ci].prx);
        decodedChunk, decodes := Some(ci), decodes + [ci];
      }
      assert Cut(flat, off[li], off[li + 1], src[ci].prx[li]);
      r := Ok(flat[off[li]..off[li + 1]]);
    }
  }

  lemma {:induction false} ChunkPassed(cs: seq<Chunk>, ci: nat, li: nat, target: nat)
    requires ValidChunks(cs) && ci < |cs| && AllBelow(cs, ci, li, target)
    requires cs[ci].docids == [] || cs[ci].docids[|cs[ci].docids| - 1] < target
    ensures AllBelow(cs, ci + 1, 0, target)
  {
    assert ValidChunk(cs[ci]);
    forall d: nat, i: nat, j: nat | Located(cs, d, i, j) && Earlier(i, j, ci + 1, 0) ensures d < target {
      assert i < ci ==> Earlier(i, j, ci, li);
    }
  }

  lemma {:induction false} DocPassed(cs: seq<Chunk>, ci: nat, li: nat, target: nat)
    requires AllBelow(cs, ci, li, target) && ci < |cs| && li < |cs[ci].docids| && cs[ci].docids[li] < target
    ensures AllBelow(cs, ci, li + 1, target)
  {
    forall d: nat, i: nat, j: nat | Located(cs, d, i, j) && Earlier(i, j, ci, li + 1) ensures d < target {
      assert Earlier(i, j, ci, li) || (i == ci && j == li);
    }
  }

  /** Stopped at the first document at or after `target`, the cursor is on it. */
  lemma {:induction false} Lands(cs: seq<Chunk>, ci: nat, li: nat, target: nat)
    requires ValidChunks(cs) && AllBelow(cs, ci, li, target) && Has(cs, target)
    requires ci < |cs| ==> cs[ci].docids != [] && cs[ci].docids[|cs[ci].docids| - 1] >= target
    requires ci < |cs| && li < |cs[ci].docids| ==> cs[ci].docids[li] >= target
    ensures Located(cs, target, ci, li)
  {
    var i: nat, j: nat :| Located(cs, target, i, j);
    assert !Earlier(i, j, ci, li);
    if i > ci {
      ChunkOrder(cs, ci, |cs[ci].docids| - 1, i, j);
    } else {
      assert ValidChunk(cs[ci]);
    }
  }
}
