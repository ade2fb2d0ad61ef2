/** A term's posting as the reader sees it, in chunks of docids with their positions, and
    what it means for a phrase to occur in a document. */
module PositionalPostings {
  import opened Common
  import opened DocidSets
  import opened WindowDirectory

  /** One decoded window (or a whole slim posting): `prx[j]` are the positions of `docids[j]`. */
  datatype Chunk = Chunk(docids: seq<nat>, prx: seq<seq<nat>>)

  /** A slim or inline posting is one chunk; a windowed one has a directory over many. */
  datatype Posting = Flat(df: nat, chunk: Chunk) | Windowed(df: nat, windows: seq<Chunk>, directory: Directory)

  function Chunks(p: Posting): seq<Chunk> {
    match p
    case Flat(_, chunk) => [chunk]
    case Windowed(_, windows, _) => windows
  }

  // ----- well-formed postings

  ghost predicate PositionList(ps: seq<nat>) {
    Sorted(ps) && forall i :: 0 <= i < |ps| ==> ps[i] < TWO32
  }

  ghost predicate ValidChunk(c: Chunk) {
    && |c.prx| == |c.docids| && Ascending(c.docids)
    && forall j {:trigger PositionList(c.prx[j])} :: 0 <= j < |c.prx| ==> PositionList(c.prx[j])
  }

  /** Every docid of `a` is below every docid of `b`. */
  ghost predicate Precedes(a: Chunk, b: Chunk) {
    forall x, y :: 0 <= x < |a.docids| && 0 <= y < |b.docids| ==> a.docids[x] < b.docids[y]
  }

  ghost predicate ValidChunks(cs: seq<Chunk>) {
    && (forall i {:trigger ValidChunk(cs[i])} :: 0 <= i < |cs| ==> ValidChunk(cs[i]))
    && (forall i, j {:trigger Precedes(cs[i], cs[j])} :: 0 <= i < j < |cs| ==> Precedes(cs[i], cs[j]))
  }

  /** The directory records each window's last docid. */
  ghost predicate Records(w: Chunk, last: nat) {
    w.docids != [] && last == w.docids[|w.docids| - 1]
  }

  ghost predicate ValidPosting(p: Posting) {
    && ValidChunks(Chunks(p))
    && match p
       case Flat(_, _) => true
       case Windowed(_, windows, directory) =>
         && WindowDirectory.Valid(directory) && |directory.lasts| == |windows|
         && forall i {:trigger Records(windows[i], directory.lasts[i])} :: 0 <= i < |windows| ==>
              Records(windows[i], directory.lasts[i])
  }

  ghost predicate AllValid(ps: seq<Posting>) {
    forall t {:trigger ValidPosting(ps[t])} :: 0 <= t < |ps| ==> ValidPosting(ps[t])
  }

  // ----- where a document is

  ghost predicate Located(cs: seq<Chunk>, d: nat, i: nat, j: nat) {
    i < |cs| && j < |cs[i].docids| && cs[i].docids[j] == d
  }

  ghost predicate Has(cs: seq<Chunk>, d: nat) {
    exists i: nat, j: nat :: Located(cs, d, i, j)
  }

  lemma {:induction false} ChunkOrder(cs: seq<Chunk>, i: nat, j: nat, i': nat, j': nat)
    requires ValidChunks(cs) && i < i' < |cs| && j < |cs[i].docids| && j' < |cs[i'].docids|
    ensures cs[i].docids[j] < cs[i'].docids[j']
  {
    assert Precedes(cs[i], cs[i']);
  }

  lemma {:induction false} LocatedOnce(cs: seq<Chunk>, d: nat, i: nat, j: nat, i': nat, j': nat)
    requires ValidChunks(cs) && Located(cs, d, i, j) && Located(cs, d, i', j')
    ensures i == i' && j == j'
  {
    if i < i' {
      ChunkOrder(cs, i, j, i', j');
    } else if i' < i {
      ChunkOrder(cs, i', j', i, j);
    } else {
      assert ValidChunk(cs[i]);
    }
  }

  /** The positions of a term in a document; none when the document lacks the term. */
  ghost function PositionsAt(cs: seq<Chunk>, d: nat): seq<nat> {
    if exists i: nat, j: nat :: Located(cs, d, i, j) && j < |cs[i].prx| then
      var i: nat, j: nat :| Located(cs, d, i, j) && j < |cs[i].prx|;
      cs[i].prx[j]
    else []
  }

  lemma {:induction false} PositionsWhere(cs: seq<Chunk>, d: nat, i: nat, j: nat)
    requires ValidChunks(cs) && Located(cs, d, i, j)
    ensures j < |cs[i].prx| && PositionsAt(cs, d) == cs[i].prx[j] && PositionList(cs[i].prx[j])
  {
    assert ValidChunk(cs[i]);
    var i': nat, j': nat :| Located(cs, d, i', j') && j' < |cs[i'].prx| && PositionsAt(cs, d) == cs[i'].prx[j'];
    LocatedOnce(cs, d, i, j, i', j');
  }

  lemma {:induction false} PositionsFit(cs: seq<Chunk>, d: nat)
    requires ValidChunks(cs)
    ensures PositionList(PositionsAt(cs, d))
  {
    if Has(cs, d) {
      var i: nat, j: nat :| Located(cs, d, i, j);
      PositionsWhere(cs, d, i, j);
    }
  }

  // ----- what the queries promise

  ghost predicate HasAll(ps: seq<Posting>, d: nat) {
    forall t {:trigger Chunks(ps[t])} :: 0 <= t < |ps| ==> Has(Chunks(ps[t]), d)
  }

  /** The phrase starts at `p`: term k stands at position p + k. */
  ghost predicate StartsAt(ps: seq<Posting>, d: nat, p: nat) {
    forall k {:trigger Chunks(ps[k])} :: 0 <= k < |ps| ==> p + k in PositionsAt(Chunks(ps[k]), d)
  }

  ghost predicate PhraseIn(ps: seq<Posting>, d: nat) {
    exists p: nat :: StartsAt(ps, d, p)
  }

  lemma {:induction false} PhraseNeedsAll(ps: seq<Posting>, d: nat)
    requires PhraseIn(ps, d)
    ensures HasAll(ps, d)
  {
    var p: nat :| StartsAt(ps, d, p);
    forall t | 0 <= t < |ps| ensures Has(Chunks(ps[t]), d) {
      assert p + t in PositionsAt(Chunks(ps[t]), d);
      var cs := Chunks(ps[t]);
      var i: nat, j: nat :| Located(cs, d, i, j) && j < |cs[i].prx|;
    }
  }

  // ----- keeping some of the chunks

  /** The chunks read for a term say the same about every candidate as the whole posting. */
  ghost predicate Retains(sub: seq<Chunk>, cs: seq<Chunk>, candidates: seq<nat>) {
    && ValidChunks(sub)
    && forall d {:trigger Has(sub, d)} :: d in candidates ==> Has(sub, d) && PositionsAt(sub, d) == PositionsAt(cs, d)
  }

  ghost predicate Increasing(sel: seq<nat>, n: nat) {
    Ascending(sel) && forall k :: 0 <= k < |sel| ==> sel[k] < n
  }

  function Select(cs: seq<Chunk>, sel: seq<nat>): (r: seq<Chunk>)
    requires forall k :: 0 <= k < |sel| ==> sel[k] < |cs|
    ensures |r| == |sel| && forall k :: 0 <= k < |sel| ==> r[k] == cs[sel[k]]
  {
    seq(|sel|, k requires 0 <= k < |sel| => cs[sel[k]])
  }

  lemma {:induction false} SelectValid(cs: seq<Chunk>, sel: seq<nat>)
    requires ValidChunks(cs) && Increasing(sel, |cs|)
    ensures ValidChunks(Select(cs, sel))
  {
    var r := Select(cs, sel);
    forall i | 0 <= i < |r| ensures ValidChunk(r[i]) {
      assert ValidChunk(cs[sel[i]]);
    }
    forall i, j | 0 <= i < j < |r| ensures Precedes(r[i], r[j]) {
      assert Precedes(cs[sel[i]], cs[sel[j]]);
    }
  }

  /** A selected chunk keeps its documents' positions. */
  lemma {:induction false} SelectedAt(cs: seq<Chunk>, sel: seq<nat>, d: nat, k: nat, j: nat)
    requires ValidChunks(cs) && Increasing(sel, |cs|) && k < |sel| && Located(cs, d, sel[k], j)
    ensures Has(Select(cs, sel), d) && PositionsAt(Select(cs, sel), d) == PositionsAt(cs, d)
  {
    SelectValid(cs, sel);
    assert Located(Select(cs, sel), d, k, j);
    PositionsWhere(cs, d, sel[k], j);
    PositionsWhere(Select(cs, sel), d, k, j);
  }

  lemma {:induction false} SelectHas(cs: seq<Chunk>, sel: seq<nat>, d: nat)
    requires Increasing(sel, |cs|) && Has(Select(cs, sel), d)
    ensures Has(cs, d)
  {
    var k: nat, j: nat :| Located(Select(cs, sel), d, k, j);
    assert Located(cs, d, sel[k], j);
  }
}
