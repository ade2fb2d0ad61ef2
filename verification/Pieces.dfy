/** Byte strings laid end to end: offsets and cuts. */
module Pieces {
  import opened Common

  // ----- fields in front of a rest

  lemma {:induction false} Cat2(a: Bytes, b: Bytes, rest: Bytes)
    ensures (a + b) + rest == a + (b + rest)
  {
  }

  lemma {:induction false} Cat3(a: Bytes, b: Bytes, c: Bytes, rest: Bytes)
    ensures (a + b + c) + rest == a + (b + (c + rest))
  {
  }

  lemma {:induction false} Cat4(a: Bytes, b: Bytes, c: Bytes, d: Bytes, rest: Bytes)
    ensures (a + b + c + d) + rest == a + (b + (c + (d + rest)))
  {
  }

  lemma {:induction false} Cat5(a: Bytes, b: Bytes, c: Bytes, d: Bytes, e: Bytes, rest: Bytes)
    ensures (a + b + c + d + e) + rest == a + (b + (c + (d + (e + rest))))
  {
  }

  lemma {:induction false} Nest3(a: Bytes, b: Bytes, c: Bytes, rest: Bytes)
    ensures (a + (b + c)) + rest == a + (b + (c + rest))
  {
  }

  lemma {:induction false} Nest4(a: Bytes, b: Bytes, c: Bytes, d: Bytes, rest: Bytes)
    ensures (a + (b + (c + d))) + rest == a + (b + (c + (d + rest)))
  {
  }

  // ----- lists of byte strings

  function Join(ps: seq<Bytes>, lo: nat, hi: nat): Bytes
    requires lo <= hi <= |ps|
    decreases hi - lo
  {
    if lo == hi then [] else ps[lo] + Join(ps, lo + 1, hi)
  }

  lemma {:induction false} JoinSplit(ps: seq<Bytes>, lo: nat, mid: nat, hi: nat)
    requires lo <= mid <= hi <= |ps|
    ensures Join(ps, lo, hi) == Join(ps, lo, mid) + Join(ps, mid, hi)
    decreases mid - lo
  {
    if lo < mid {
      JoinSplit(ps, lo + 1, mid, hi);
      assert ps[lo] + (Join(ps, lo + 1, mid) + Join(ps, mid, hi)) == (ps[lo] + Join(ps, lo + 1, mid)) + Join(ps, mid, hi);
    } else {
      assert [] + Join(ps, mid, hi) == Join(ps, mid, hi);
    }
  }

  lemma {:induction false} JoinSnoc(ps: seq<Bytes>, i: nat)
    requires i < |ps|
    ensures Join(ps, 0, i + 1) == Join(ps, 0, i) + ps[i]
  {
    JoinSplit(ps, 0, i, i + 1);
    assert Join(ps, i + 1, i + 1) == [];
    assert ps[i] + [] == ps[i];
  }

  /** Byte offset of piece `i` behind a header of `base` bytes. */
  function At(ps: seq<Bytes>, base: nat, i: nat): nat
    requires i <= |ps|
  {
    base + |Join(ps, 0, i)|
  }

  /** Cutting the joined bytes at two pieces yields the pieces between. */
  lemma {:induction false} CutPieces(head: Bytes, ps: seq<Bytes>, tail: Bytes, lo: nat, hi: nat)
    requires lo <= hi <= |ps|
    ensures var s := head + Join(ps, 0, |ps|) + tail;
            At(ps, |head|, lo) <= At(ps, |head|, hi) <= |s| && s[At(ps, |head|, lo)..At(ps, |head|, hi)] == Join(ps, lo, hi)
  {
    var n, s := |ps|, head + Join(ps, 0, |ps|) + tail;
    JoinSplit(ps, 0, lo, n);
    JoinSplit(ps, lo, hi, n);
    JoinSplit(ps, 0, lo, hi);
    var a, m, z := head + Join(ps, 0, lo), Join(ps, lo, hi), Join(ps, hi, n) + tail;
    assert s == a + m + z;
    assert (a + m + z)[|a|..|a| + |m|] == m;
  }

  ghost predicate NonEmptyPieces(ps: seq<Bytes>) {
    forall i :: 0 <= i < |ps| ==> ps[i] != []
  }

  lemma {:induction false} OffsetsAscend(ps: seq<Bytes>, base: nat, i: nat, j: nat)
    requires NonEmptyPieces(ps) && i < j <= |ps|
    ensures At(ps, base, i) < At(ps, base, j)
  {
    JoinSplit(ps, 0, i, j);
    assert Join(ps, i, j) == ps[i] + Join(ps, i + 1, j);
  }

  lemma {:induction false} JoinGrows(ps: seq<Bytes>, p: Bytes, n: nat)
    requires n <= |ps|
    ensures Join(ps + [p], 0, n) == Join(ps, 0, n)
  {
    JoinSame(ps + [p], ps, 0, n);
  }

  lemma {:induction false} JoinSame(a: seq<Bytes>, b: seq<Bytes>, lo: nat, hi: nat)
    requires lo <= hi <= |a| && hi <= |b| && forall i :: lo <= i < hi ==> a[i] == b[i]
    ensures Join(a, lo, hi) == Join(b, lo, hi)
    decreases hi - lo
  {
    if lo < hi {
      JoinSame(a, b, lo + 1, hi);
    }
  }
}
