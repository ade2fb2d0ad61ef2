/** BM25 over the reals and the block-max bound a window records: the bound holds for
    every posting of the window, so the cursors built from an index are valid for WAND. */
module BlockMax {
  import opened Common
  import opened Wand
  import opened WandSafety

  /** The collection average length, the free parameters and the term's idf. */
  datatype Scorer = Scorer(idf: real, k1: real, b: real, avgdl: real)

  predicate Proper(s: Scorer) {
    s.idf >= 0.0 && s.k1 > 0.0 && 0.0 <= s.b <= 1.0 && s.avgdl > 0.0
  }

  function DecodeNorm(encoded: byte): real {
    if encoded == 0 then 1.0 else encoded as real
  }

  function Scaled(b: real, c: real, x: real): real
    requires c > 0.0
  {
    b * x / c
  }

  /** The length factor in BM25's denominator. */
  function Length(s: Scorer, dl: real): real
    requires Proper(s)
  {
    1.0 - s.b + Scaled(s.b, s.avgdl, dl)
  }

  lemma {:induction false} ScaledMono(b: real, c: real, x: real, y: real)
    requires b >= 0.0 && c > 0.0 && x <= y
    ensures Scaled(b, c, x) <= Scaled(b, c, y)
  {
    MulMono(b, x, y);
    DivMono(b * x, b * y, c);
  }

  lemma {:induction false} LengthGrows(s: Scorer, dl: real, dl': real)
    requires Proper(s) && 1.0 <= dl <= dl'
    ensures 0.0 < Length(s, dl) <= Length(s, dl')
  {
    ScaledMono(s.b, s.avgdl, dl, dl');
    ScaledMono(s.b, s.avgdl, 1.0, dl);
    Positive(s.b, s.avgdl);
  }

  lemma {:induction false} Positive(b: real, c: real)
    requires 0.0 <= b <= 1.0 && c > 0.0
    ensures 1.0 - b + Scaled(b, c, 1.0) > 0.0
  {
    var q := Scaled(b, c, 1.0);
    assert q * c == b;
    if q < 0.0 {
      MulStrict(c, q, 0.0);
    }
    assert q == 0.0 ==> q * c == 0.0;
  }

  lemma {:induction false} MulMono(a: real, x: real, y: real)
    requires a >= 0.0 && x <= y
    ensures a * x <= a * y
  {
  }

  lemma {:induction false} DivMono(x: real, y: real, c: real)
    requires c > 0.0 && x <= y
    ensures x / c <= y / c
  {
  }

  function Denominator(s: Scorer, tf: nat, dl: real): (d: real)
    requires Proper(s) && dl >= 1.0
    ensures d > 0.0
  {
    LengthGrows(s, dl, dl);
    tf as real + s.k1 * Length(s, dl)
  }

  function Score(s: Scorer, tf: nat, norm: byte): real
    requires Proper(s)
  {
    ScoreOf(s, tf, DecodeNorm(norm))
  }

  /** BM25 at a document length. */
  function ScoreOf(s: Scorer, tf: nat, dl: real): real
    requires Proper(s) && dl >= 1.0
  {
    Numerator(s, tf) / Denominator(s, tf, dl)
  }

  function Numerator(s: Scorer, tf: nat): real {
    s.idf * (tf as real * (s.k1 + 1.0))
  }

  lemma {:induction false} FractionMono(n: real, d: real, n': real, d': real)
    requires d > 0.0 && d' > 0.0 && n * d' <= n' * d
    ensures n / d <= n' / d'
  {
    var q, q' := n / d, n' / d';
    assert n == q * d && n' == q' * d';
    assert (d * d') * q' == n' * d && (d * d') * q == n * d';
    if q > q' {
      MulStrict(d * d', q', q);
    }
  }

  lemma {:induction false} MulStrict(a: real, x: real, y: real)
    requires a > 0.0 && x < y
    ensures a * x < a * y
  {
  }

  lemma {:induction false} CrossMono(x: real, x': real, k1: real, L: real, L': real, d: real, d': real)
    requires 0.0 <= x <= x' && 0.0 <= k1 && 0.0 <= L' <= L
    requires d == x + k1 * L && d' == x' + k1 * L'
    ensures x * d' <= x' * d
  {
    MulMono(x, L', L);
    MulMono(L, x, x');
    assert x * L' <= x' * L;
    MulMono(k1, x * L', x' * L);
    calc {
      x * (x' + k1 * L');
      x * x' + x * (k1 * L');
      x * x' + k1 * (x * L');
    <=
      x * x' + k1 * (x' * L);
      x' * x + x' * (k1 * L);
      x' * (x + k1 * L);
    }
  }

  lemma {:induction false} ScaledFraction(a: real, x: real, d: real, x': real, d': real)
    requires a >= 0.0 && x >= 0.0 && d > 0.0 && d' > 0.0 && x * d' <= x' * d
    ensures 0.0 <= a * x / d <= a * x' / d'
  {
    MulMono(a, x * d', x' * d);
    calc {
      (a * x) * d';
      a * (x * d');
    <=
      a * (x' * d);
      (a * x') * d;
    }
    FractionMono(a * x, d, a * x', d');
    MulMono(a, 0.0, x);
    FractionMono(0.0, d, a * x, d);
  }

  lemma {:induction false} SaturationMono(idf: real, c: real, x: real, d: real, x': real, d': real, n: real, n': real)
    requires idf >= 0.0 && c > 0.0 && 0.0 <= x && d > 0.0 && d' > 0.0 && x * d' <= x' * d
    requires n == idf * (x * c) && n' == idf * (x' * c)
    ensures 0.0 <= n / d <= n' / d'
  {
    MulMono(idf, 0.0, c);
    ScaledFraction(idf * c, x, d, x', d');
    Reassociate(idf, c, x);
    Reassociate(idf, c, x');
  }

  lemma {:induction false} Reassociate(x: real, y: real, z: real)
    ensures (x * y) * z == x * (z * y)
  {
  }

  lemma {:induction false} DenominatorCross(s: Scorer, tf: nat, dl: real, tf': nat, dl': real)
    requires Proper(s) && tf <= tf' && 1.0 <= dl' <= dl
    ensures tf as real * Denominator(s, tf', dl') <= tf' as real * Denominator(s, tf, dl)
  {
    LengthGrows(s, dl', dl);
    CrossMono(tf as real, tf' as real, s.k1, Length(s, dl), Length(s, dl'),
              Denominator(s, tf, dl), Denominator(s, tf', dl'));
  }

  lemma {:induction false} NumeratorFraction(s: Scorer, tf: nat, d: real, tf': nat, d': real)
    requires Proper(s) && d > 0.0 && d' > 0.0 && tf as real * d' <= tf' as real * d
    ensures 0.0 <= Numerator(s, tf) / d <= Numerator(s, tf') / d'
  {
    SaturationMono(s.idf, s.k1 + 1.0, tf as real, d, tf' as real, d', Numerator(s, tf), Numerator(s, tf'));
  }

  lemma {:induction false} ScoreGrows(s: Scorer, tf: nat, dl: real, tf': nat, dl': real)
    requires Proper(s) && tf <= tf' && 1.0 <= dl' <= dl
    ensures 0.0 <= ScoreOf(s, tf, dl) <= ScoreOf(s, tf', dl')
  {
    DenominatorCross(s, tf, dl, tf', dl');
    NumeratorFraction(s, tf, Denominator(s, tf, dl), tf', Denominator(s, tf', dl'));
  }

  /** More occurrences in a shorter document never score less. */
  lemma {:induction false} ScoreMonotone(s: Scorer, tf: nat, norm: byte, tf': nat, norm': byte)
    requires Proper(s) && tf <= tf' && DecodeNorm(norm') <= DecodeNorm(norm)
    ensures 0.0 <= Score(s, tf, norm) <= Score(s, tf', norm')
  {
    ScoreGrows(s, tf, DecodeNorm(norm), tf', DecodeNorm(norm'));
  }

  // ----- the score by value

  lemma {:induction false} Quotient(n: real, d: real, c: real, w: real)
    requires d > 0.0 && d * c == w
    ensures n / d * w == n * c
  {
    var q := n / d;
    assert q * d == n;
    Reassociate(q, c, d);
    assert q * (d * c) == (q * d) * c;
  }

  /** The denominator times the average length. */
  lemma {:induction false} ScaledDenominator(s: Scorer, tf: nat, dl: real)
    requires Proper(s) && dl >= 1.0
    ensures Denominator(s, tf, dl) * s.avgdl == tf as real * s.avgdl + s.k1 * ((1.0 - s.b) * s.avgdl + s.b * dl)
  {
    var q := Scaled(s.b, s.avgdl, dl);
    assert q * s.avgdl == s.b * dl;
    Spread(1.0 - s.b, q, s.avgdl);
    var l := Length(s, dl);
    assert l * s.avgdl == (1.0 - s.b) * s.avgdl + s.b * dl;
    Spread(tf as real, s.k1 * l, s.avgdl);
    assert (s.k1 * l) * s.avgdl == s.k1 * (l * s.avgdl);
  }

  lemma {:induction false} Spread(a: real, b: real, c: real)
    ensures (a + b) * c == a * c + b * c
  {
  }

  lemma {:induction false} PositiveProduct(a: real, b: real)
    requires a > 0.0 && b > 0.0
    ensures a * b > 0.0
  {
  }

  /** BM25, cleared of its fractions: dl is the norm, or 1 for norm 0. */
  lemma {:induction false} Bm25Value(s: Scorer, tf: nat, norm: byte)
    requires Proper(s)
    ensures var dl := if norm == 0 then 1.0 else norm as real;
            var weight := tf as real * s.avgdl + s.k1 * ((1.0 - s.b) * s.avgdl + s.b * dl);
            weight > 0.0 && Score(s, tf, norm) * weight == s.idf * (tf as real * (s.k1 + 1.0)) * s.avgdl
  {
    var dl := DecodeNorm(norm);
    ScaledDenominator(s, tf, dl);
    PositiveProduct(Denominator(s, tf, dl), s.avgdl);
    Quotient(Numerator(s, tf), Denominator(s, tf, dl), s.avgdl, Denominator(s, tf, dl) * s.avgdl);
  }

  lemma {:induction false} SameProduct(x: real, y: real, w: real)
    requires w > 0.0 && x * w == y * w
    ensures x == y
  {
    if x < y {
      MulStrict(w, x, y);
    } else if y < x {
      MulStrict(w, y, x);
    }
  }

  /** With b = 0 the length does not matter. */
  lemma {:induction false} NoLengthAtZero(s: Scorer, tf: nat, norm: byte, norm': byte)
    requires Proper(s) && s.b == 0.0
    ensures Score(s, tf, norm) == Score(s, tf, norm')
  {
    Bm25Value(s, tf, norm);
    Bm25Value(s, tf, norm');
    SameProduct(Score(s, tf, norm), Score(s, tf, norm'), tf as real * s.avgdl + s.k1 * s.avgdl);
  }

  /** One occurrence in a document of average length scores the idf. */
  lemma {:induction false} AverageScoresIdf(s: Scorer, norm: byte)
    requires Proper(s) && norm > 0 && norm as real == s.avgdl
    ensures Score(s, 1, norm) == s.idf
  {
    Bm25Value(s, 1, norm);
    var weight := (s.k1 + 1.0) * s.avgdl;
    Spread(1.0 - s.b, s.b, s.avgdl);
    Spread(s.k1, 1.0, s.avgdl);
    Reassociate(s.idf, s.avgdl, s.k1 + 1.0);
    PositiveProduct(s.k1 + 1.0, s.avgdl);
    SameProduct(Score(s, 1, norm), s.idf, weight);
  }

  /** Two documents, by value: the shorter one with a single occurrence ranks first. */
  lemma {:induction false} SampleScores()
    ensures var s := Scorer(1.0, 1.2, 0.75, 10.0);
            Proper(s) && Score(s, 2, 20) == 44.0 / 41.0 && Score(s, 1, 5) == 44.0 / 35.0 && Score(s, 1, 5) > Score(s, 2, 20)
  {
    var s := Scorer(1.0, 1.2, 0.75, 10.0);
    Bm25Value(s, 2, 20);
    Bm25Value(s, 1, 5);
    assert Score(s, 2, 20) * 41.0 == 44.0;
    assert Score(s, 1, 5) * 17.5 == 22.0;
  }

  // ----- what the writer records for a window

  datatype Posting = Posting(docid: nat, freq: nat)

  /** Nothing tighter than the loosest norm holds: there are no norms, a document has norm 0,
      or none has a norm below 255. */
  ghost predicate Unbounded(docs: seq<nat>, norms: seq<byte>) {
    || norms == []
    || (exists i :: 0 <= i < |docs| && docs[i] < |norms| && norms[docs[i]] == 0)
    || (forall i :: 0 <= i < |docs| && docs[i] < |norms| ==> norms[docs[i]] == 255)
  }

  /** The smallest encoded norm of the window's documents; 0, the loosest, when there
      are no norms or every norm is 255. */
  method WindowMaxNorm(norms: seq<byte>, docs: seq<nat>) returns (best: byte)
    ensures forall i :: 0 <= i < |docs| && docs[i] < |norms| ==>
              DecodeNorm(best) <= DecodeNorm(norms[docs[i]])
    ensures best != 0 ==> best != 255 && exists i :: 0 <= i < |docs| && docs[i] < |norms| && norms[docs[i]] == best
    ensures best == 0 ==> Unbounded(docs, norms)
  {
    if norms == [] || docs == [] {
      return 0;
    }
    best := 255;
    for j := 0 to |docs|
      invariant forall i :: 0 <= i < j && docs[i] < |norms| ==> best <= norms[docs[i]]
      invariant best == 255 || exists i :: 0 <= i < j && docs[i] < |norms| && norms[docs[i]] == best
    {
      if docs[j] < |norms| && norms[docs[j]] < best {
        best := norms[docs[j]];
      }
    }
    if best == 255 {
      best := 0;
    }
  }

  /** A window's postings with the two columns its directory row carries. */
  datatype Window = Window(postings: seq<Posting>, maxFreq: nat, maxNorm: byte)

  ghost predicate Recorded(w: Window, norms: seq<byte>) {
    && w.postings != []
    && forall i :: 0 <= i < |w.postings| ==>
         && w.postings[i].docid < |norms|
         && w.postings[i].freq <= w.maxFreq
         && DecodeNorm(w.maxNorm) <= DecodeNorm(norms[w.postings[i].docid])
  }

  // ----- the cursor a query builds from recorded windows

  function ScorePostings(s: Scorer, ps: seq<Posting>, norms: seq<byte>): (r: seq<TermPosting>)
    requires Proper(s) && forall i :: 0 <= i < |ps| ==> ps[i].docid < |norms|
    ensures |r| == |ps|
    ensures forall i :: 0 <= i < |ps| ==>
              r[i] == TermPosting(ps[i].docid, Score(s, ps[i].freq, norms[ps[i].docid]))
  {
    seq(|ps|, i requires 0 <= i < |ps| => TermPosting(ps[i].docid, Score(s, ps[i].freq, norms[ps[i].docid])))
  }

  ghost predicate AllRecorded(ws: seq<Window>, norms: seq<byte>) {
    forall i :: 0 <= i < |ws| ==> Recorded(ws[i], norms)
  }

  /** Windows tile the posting list in docid order, all docids above `low`. */
  ghost predicate Tiled(ws: seq<Window>, low: int)
    decreases |ws|
  {
    ws == [] ||
    (var ps := ws[0].postings;
     && ps != []
     && (forall i :: 0 <= i < |ps| ==> low < ps[i].docid < NO_DOC)
     && (forall i, j :: 0 <= i < j < |ps| ==> ps[i].docid < ps[j].docid)
     && Tiled(ws[1..], ps[|ps| - 1].docid))
  }

  function Tile(s: Scorer, ws: seq<Window>, norms: seq<byte>): seq<TermPosting>
    requires Proper(s) && AllRecorded(ws, norms)
  {
    if ws == [] then [] else ScorePostings(s, ws[0].postings, norms) + Tile(s, ws[1..], norms)
  }

  function Bounds(s: Scorer, ws: seq<Window>, norms: seq<byte>): (r: seq<WindowBound>)
    requires Proper(s) && AllRecorded(ws, norms)
    ensures |r| == |ws|
  {
    if ws == [] then []
    else
      var ps := ws[0].postings;
      [WindowBound(ps[|ps| - 1].docid, Score(s, ws[0].maxFreq, ws[0].maxNorm))] + Bounds(s, ws[1..], norms)
  }

  /** Every posting scores within the bound of the window that covers it. */
  lemma {:induction false} TileWithinBounds(s: Scorer, ws: seq<Window>, norms: seq<byte>, low: int, i: nat)
    requires Proper(s) && AllRecorded(ws, norms) && Tiled(ws, low) && i < |Tile(s, ws, norms)|
    ensures var p := Tile(s, ws, norms)[i];
            low < p.docid < NO_DOC && 0.0 <= p.score <= BoundIn(Bounds(s, ws, norms), p.docid)
  {
    var w, ps := ws[0], ws[0].postings;
    assert Recorded(w, norms);
    var head, bs := ScorePostings(s, ps, norms), Bounds(s, ws, norms);
    assert bs[1..] == Bounds(s, ws[1..], norms);
    if i < |head| {
      assert ps[i].docid <= ps[|ps| - 1].docid;
      ScoreMonotone(s, ps[i].freq, norms[ps[i].docid], w.maxFreq, w.maxNorm);
    } else {
      TileWithinBounds(s, ws[1..], norms, ps[|ps| - 1].docid, i - |head|);
    }
  }

  lemma {:induction false} TileAscends(s: Scorer, ws: seq<Window>, norms: seq<byte>, low: int, i: nat, j: nat)
    requires Proper(s) && AllRecorded(ws, norms) && Tiled(ws, low) && i < j < |Tile(s, ws, norms)|
    ensures Tile(s, ws, norms)[i].docid < Tile(s, ws, norms)[j].docid
  {
    var ps := ws[0].postings;
    assert Recorded(ws[0], norms);
    var head := ScorePostings(s, ps, norms);
    if i >= |head| {
      TileAscends(s, ws[1..], norms, ps[|ps| - 1].docid, i - |head|, j - |head|);
    } else if j >= |head| {
      TileWithinBounds(s, ws[1..], norms, ps[|ps| - 1].docid, j - |head|);
      assert ps[i].docid <= ps[|ps| - 1].docid;
    }
  }

  lemma {:induction false} BoundsNonNegative(s: Scorer, ws: seq<Window>, norms: seq<byte>, i: nat)
    requires Proper(s) && AllRecorded(ws, norms) && i < |ws|
    ensures Bounds(s, ws, norms)[i].maxScore >= 0.0
  {
    if i == 0 {
      assert Recorded(ws[0], norms);
      ScoreMonotone(s, ws[0].maxFreq, ws[0].maxNorm, ws[0].maxFreq, ws[0].maxNorm);
    } else {
      BoundsNonNegative(s, ws[1..], norms, i - 1);
    }
  }

  /** A windowed term's cursor, scored exactly and bounded by the directory, is valid. */
  lemma {:induction false} WindowedCursorValid(s: Scorer, ws: seq<Window>, norms: seq<byte>)
    requires Proper(s) && AllRecorded(ws, norms) && Tiled(ws, -1)
    ensures ValidTerm(TermCursor(Tile(s, ws, norms), Bounds(s, ws, norms), 0))
  {
    var c := TermCursor(Tile(s, ws, norms), Bounds(s, ws, norms), 0);
    forall i | 0 <= i < |c.postings|
      ensures c.postings[i].docid < NO_DOC && 0.0 <= c.postings[i].score <= BoundIn(c.windows, c.postings[i].docid)
    {
      TileWithinBounds(s, ws, norms, -1, i);
    }
    forall i, j | 0 <= i < j < |c.postings| ensures c.postings[i].docid < c.postings[j].docid {
      TileAscends(s, ws, norms, -1, i, j);
    }
    forall i | 0 <= i < |c.windows| ensures c.windows[i].maxScore >= 0.0 {
      BoundsNonNegative(s, ws, norms, i);
    }
  }

  /** A slim or inline term: one window bounded by its exact best score. */
  method SingleWindow(ps: seq<TermPosting>) returns (c: TermCursor)
    requires forall i, j :: 0 <= i < j < |ps| ==> ps[i].docid < ps[j].docid
    requires forall i :: 0 <= i < |ps| ==> ps[i].docid < NO_DOC && ps[i].score >= 0.0
    ensures c.postings == ps && c.pos == 0 && SafeTerm(c)
  {
    if ps == [] {
      return TermCursor(ps, [], 0);
    }
    var best := 0.0;
    for i := 0 to |ps|
      invariant best >= 0.0 && forall j :: 0 <= j < i ==> ps[j].score <= best
    {
      if ps[i].score > best {
        best := ps[i].score;
      }
    }
    c := TermCursor(ps, [WindowBound(ps[|ps| - 1].docid, best)], 0);
  }
}
