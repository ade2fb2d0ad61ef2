/** Wildcard patterns: `*` stands for any byte string, `?` for any byte. The two-row table
    against that meaning, and expansion through the literal prefix. */
module Wildcard {
  import opened Common
  import opened TermDict
  import opened DocidSets
  import opened PositionalPostings
  import PhraseQuery

  const STAR: byte := 42
  const ANY: byte := 63

  // ----- the meaning

  /** `piece` may stand for pattern byte `p`. */
  predicate Stands(p: byte, piece: Bytes) {
    p == STAR || (|piece| == 1 && (p == ANY || piece[0] == p))
  }

  function Concat(pieces: seq<Bytes>): Bytes {
    if pieces == [] then [] else Concat(pieces[..|pieces| - 1]) + pieces[|pieces| - 1]
  }

  /** One piece per pattern byte, together spelling the text. */
  ghost predicate Spells(pattern: Bytes, pieces: seq<Bytes>, text: Bytes) {
    && |pieces| == |pattern| && Concat(pieces) == text
    && forall k :: 0 <= k < |pattern| ==> Stands(pattern[k], pieces[k])
  }

  ghost predicate Matches(pattern: Bytes, text: Bytes) {
    exists pieces :: Spells(pattern, pieces, text)
  }

  // ----- growing a match by one pattern byte

  lemma {:induction false} SpellsSnoc(pattern: Bytes, p: byte, pieces: seq<Bytes>, piece: Bytes, text: Bytes)
    requires Spells(pattern, pieces, text) && Stands(p, piece)
    ensures Spells(pattern + [p], pieces + [piece], text + piece)
  {
    assert (pieces + [piece])[..|pieces|] == pieces;
  }

  lemma {:induction false} SpellsInit(pattern: Bytes, pieces: seq<Bytes>, text: Bytes)
    requires Spells(pattern, pieces, text) && pattern != []
    ensures var n := |pattern| - 1;
            && Spells(pattern[..n], pieces[..n], Concat(pieces[..n])) && Stands(pattern[n], pieces[n])
            && text == Concat(pieces[..n]) + pieces[n]
  {
  }

  lemma {:induction false} MatchesEmpty(text: Bytes)
    ensures Matches([], text) <==> text == []
  {
    if text == [] {
      assert Spells([], [], []);
    }
  }

  lemma {:induction false} MatchesOne(pattern: Bytes, p: byte, text: Bytes)
    requires p != STAR
    ensures Matches(pattern + [p], text) <==>
            text != [] && (p == ANY || p == text[|text| - 1]) && Matches(pattern, text[..|text| - 1])
  {
    var whole, n := pattern + [p], |pattern|;
    if Matches(whole, text) {
      var pieces :| Spells(whole, pieces, text);
      SpellsInit(whole, pieces, text);
      assert whole[..n] == pattern;
      assert text[..|text| - 1] == Concat(pieces[..n]) && text[|text| - 1] == pieces[n][0];
    }
    if text != [] && (p == ANY || p == text[|text| - 1]) && Matches(pattern, text[..|text| - 1]) {
      var init, last := text[..|text| - 1], [text[|text| - 1]];
      var pieces :| Spells(pattern, pieces, init);
      SpellsSnoc(pattern, p, pieces, last, init);
      assert init + last == text;
    }
  }

  /** The last star's piece is empty or ends with the text's last byte. */
  lemma {:induction false} StarGives(pattern: Bytes, text: Bytes)
    requires Matches(pattern + [STAR], text)
    ensures Matches(pattern, text) || (text != [] && Matches(pattern + [STAR], text[..|text| - 1]))
  {
    var whole, n := pattern + [STAR], |pattern|;
    assert whole[..n] == pattern;
    var pieces :| Spells(whole, pieces, text);
    SpellsInit(whole, pieces, text);
    var front, last := Concat(pieces[..n]), pieces[n];
    if last == [] {
      assert front + [] == front;
    } else {
      var shorter := last[..|last| - 1];
      SpellsSnoc(pattern, STAR, pieces[..n], shorter, front);
      assert front + shorter == text[..|text| - 1];
    }
  }

  lemma {:induction false} StarTakesNone(pattern: Bytes, text: Bytes)
    requires Matches(pattern, text)
    ensures Matches(pattern + [STAR], text)
  {
    var pieces :| Spells(pattern, pieces, text);
    SpellsSnoc(pattern, STAR, pieces, [], text);
    assert text + [] == text;
  }

  lemma {:induction false} StarTakesMore(pattern: Bytes, text: Bytes)
    requires text != [] && Matches(pattern + [STAR], text[..|text| - 1])
    ensures Matches(pattern + [STAR], text)
  {
    var whole, n, init := pattern + [STAR], |pattern|, text[..|text| - 1];
    assert whole[..n] == pattern;
    var pieces :| Spells(whole, pieces, init);
    SpellsInit(whole, pieces, init);
    var front, longer := Concat(pieces[..n]), pieces[n] + [text[|text| - 1]];
    SpellsSnoc(pattern, STAR, pieces[..n], longer, front);
    assert front + longer == init + [text[|text| - 1]] == text;
  }

  lemma {:induction false} MatchesStar(pattern: Bytes, text: Bytes)
    ensures Matches(pattern + [STAR], text) <==>
            Matches(pattern, text) || (text != [] && Matches(pattern + [STAR], text[..|text| - 1]))
  {
    if Matches(pattern + [STAR], text) {
      StarGives(pattern, text);
    }
    if Matches(pattern, text) {
      StarTakesNone(pattern, text);
    }
    if text != [] && Matches(pattern + [STAR], text[..|text| - 1]) {
      StarTakesMore(pattern, text);
    }
  }

  // ----- the table

  /** Row for pattern prefix `pattern`: cell i answers for the first i bytes of the text. */
  ghost predicate RowFor(row: seq<bool>, pattern: Bytes, text: Bytes, n: nat) {
    n <= |text| + 1 && |row| == n && forall i {:trigger row[i]} :: 0 <= i < n ==> (row[i] <==> Matches(pattern, text[..i]))
  }

  method NextRow(prev: seq<bool>, p: byte, text: Bytes, ghost pattern: Bytes) returns (curr: seq<bool>)
    requires RowFor(prev, pattern, text, |text| + 1)
    ensures RowFor(curr, pattern + [p], text, |text| + 1)
  {
    if p == STAR {
      MatchesStar(pattern, text[..0]);
      curr := [prev[0]];
    } else {
      MatchesOne(pattern, p, text[..0]);
      curr := [false];
    }
    for i := 1 to |text| + 1
      invariant RowFor(curr, pattern + [p], text, i)
    {
      assert text[..i][..i - 1] == text[..i - 1];
      if p == STAR {
        MatchesStar(pattern, text[..i]);
        curr := curr + [prev[i] || curr[i - 1]];
      } else {
        MatchesOne(pattern, p, text[..i]);
        curr := curr + [prev[i - 1] && (p == ANY || p == text[i - 1])];
      }
    }
  }

  method WildcardMatch(pattern: Bytes, text: Bytes) returns (b: bool)
    ensures b <==> Matches(pattern, text)
  {
    var prev := seq(|text| + 1, i => i == 0);
    assert pattern[..0] == [];
    forall i | 0 <= i < |text| + 1 ensures prev[i] <==> Matches([], text[..i]) {
      MatchesEmpty(text[..i]);
    }
    for k := 0 to |pattern|
      invariant RowFor(prev, pattern[..k], text, |text| + 1)
    {
      assert pattern[..k + 1] == pattern[..k] + [pattern[k]];
      prev := NextRow(prev, pattern[k], text, pattern[..k]);
    }
    assert pattern[..|pattern|] == pattern && text[..|text|] == text;
    b := prev[|text|];
  }

  // ----- the literal prefix

  function LiteralLen(pattern: Bytes): (n: nat)
    ensures n <= |pattern| && forall k :: 0 <= k < n ==> pattern[k] != STAR && pattern[k] != ANY
  {
    if pattern == [] || pattern[0] == STAR || pattern[0] == ANY then 0 else 1 + LiteralLen(pattern[1..])
  }

  method LiteralPrefix(pattern: Bytes) returns (out: Bytes)
    ensures out == pattern[..LiteralLen(pattern)]
  {
    out := [];
    var k := 0;
    while k < |pattern| && pattern[k] != STAR && pattern[k] != ANY
      invariant k <= |pattern| && out == pattern[..k] && k + LiteralLen(pattern[k..]) == LiteralLen(pattern)
    {
      assert pattern[k..][1..] == pattern[k + 1..];
      out, k := out + [pattern[k]], k + 1;
    }
  }

  /** The literal bytes stand for themselves at the front of every match. */
  lemma {:induction false} LiteralFront(pattern: Bytes, pieces: seq<Bytes>, n: nat)
    requires |pieces| == |pattern| && n <= |pattern| && forall k :: 0 <= k < |pattern| ==> Stands(pattern[k], pieces[k])
    requires forall k :: 0 <= k < n ==> pattern[k] != STAR && pattern[k] != ANY
    ensures Concat(pieces[..n]) == pattern[..n]
  {
    if n > 0 {
      LiteralFront(pattern, pieces, n - 1);
      assert pieces[..n][..n - 1] == pieces[..n - 1];
      assert pieces[n - 1] == [pattern[n - 1]];
      assert pattern[..n] == pattern[..n - 1] + [pattern[n - 1]];
    }
  }

  lemma {:induction false} FrontOfConcat(pieces: seq<Bytes>, n: nat)
    requires n <= |pieces|
    ensures HasPrefix(Concat(pieces), Concat(pieces[..n]))
    decreases |pieces| - n
  {
    if n == |pieces| {
      assert pieces[..n] == pieces;
    } else {
      FrontOfConcat(pieces, n + 1);
      var a, b, c := Concat(pieces[..n]), Concat(pieces[..n + 1]), Concat(pieces);
      assert pieces[..n + 1][..n] == pieces[..n];
      assert b[..|a|] == a && c[..|b|][..|a|] == c[..|a|];
    }
  }

  lemma {:induction false} MatchCarriesPrefix(pattern: Bytes, text: Bytes)
    requires Matches(pattern, text)
    ensures HasPrefix(text, pattern[..LiteralLen(pattern)])
  {
    var pieces :| Spells(pattern, pieces, text);
    var n := LiteralLen(pattern);
    LiteralFront(pattern, pieces, n);
    FrontOfConcat(pieces, n);
  }

  // ----- the two bytes, by value

  ghost predicate Plain(lit: Bytes) {
    forall k :: 0 <= k < |lit| ==> lit[k] != 0x2A && lit[k] != 0x3F
  }

  /** A pattern without `*` and `?` matches itself. */
  lemma {:induction false} PlainMatches(lit: Bytes, text: Bytes)
    requires Plain(lit)
    ensures Matches(lit, text) <==> text == lit
  {
    if lit == [] {
      MatchesEmpty(text);
    } else {
      var n := |lit| - 1;
      assert lit == lit[..n] + [lit[n]];
      MatchesOne(lit[..n], lit[n], text);
      if text != [] {
        PlainMatches(lit[..n], text[..|text| - 1]);
        assert text == text[..|text| - 1] + [text[|text| - 1]];
      }
    }
  }

  /** 0x2A behind it lets anything follow. */
  lemma {:induction false} AsteriskMatches(lit: Bytes, text: Bytes)
    requires Plain(lit)
    ensures Matches(lit + [0x2A], text) <==> lit <= text
  {
    MatchesStar(lit, text);
    PlainMatches(lit, text);
    if text != [] {
      AsteriskMatches(lit, text[..|text| - 1]);
    }
  }

  /** 0x3F behind it takes exactly one byte. */
  lemma {:induction false} QuestionMatches(lit: Bytes, text: Bytes)
    requires Plain(lit)
    ensures Matches(lit + [0x3F], text) <==> |text| == |lit| + 1 && lit <= text
  {
    MatchesOne(lit, 0x3F, text);
    if text != [] {
      PlainMatches(lit, text[..|text| - 1]);
    }
  }

  // ----- expansion

  ghost function Matching<V>(es: seq<Entry<V>>, pattern: Bytes): seq<Entry<V>> {
    if es == [] then [] else (if Matches(pattern, es[0].term) then [es[0]] else []) + Matching(es[1..], pattern)
  }

  /** Enumerating the literal prefix and filtering is filtering the whole dictionary. */
  lemma {:induction false} PrefixThenFilter<V>(es: seq<Entry<V>>, pattern: Bytes)
    ensures Matching(WithPrefix(es, pattern[..LiteralLen(pattern)]), pattern) == Matching(es, pattern)
  {
    if es != [] {
      var lit := pattern[..LiteralLen(pattern)];
      PrefixThenFilter(es[1..], pattern);
      var rest := WithPrefix(es[1..], lit);
      if HasPrefix(es[0].term, lit) {
        assert WithPrefix(es, lit) == [es[0]] + rest;
        assert ([es[0]] + rest)[1..] == rest;
      } else {
        if Matches(pattern, es[0].term) {
          MatchCarriesPrefix(pattern, es[0].term);
        }
        assert WithPrefix(es, lit) == rest;
      }
    }
  }

  method ExpandTerms(es: seq<Entry<Posting>>, pattern: Bytes) returns (hits: seq<Entry<Posting>>)
    ensures hits == Matching(es, pattern)
  {
    var prefix := LiteralPrefix(pattern);
    PrefixThenFilter(es, pattern);
    hits := KeepMatching(WithPrefix(es, prefix), pattern);
  }

  /** Tests each term against the whole pattern. */
  method KeepMatching<V>(all: seq<Entry<V>>, pattern: Bytes) returns (hits: seq<Entry<V>>)
    ensures hits == Matching(all, pattern)
  {
    hits := [];
    for i := 0 to |all|
      invariant hits + Matching(all[i..], pattern) == Matching(all, pattern)
    {
      NextMatching(all, pattern, i, hits);
      var m := WildcardMatch(pattern, all[i].term);
      if m {
        hits := hits + [all[i]];
      }
    }
    assert hits + [] == hits;
  }

  lemma {:induction false} NextMatching<V>(all: seq<Entry<V>>, pattern: Bytes, i: nat, hits: seq<Entry<V>>)
    requires i < |all|
    ensures hits + Matching(all[i..], pattern)
         == (if Matches(pattern, all[i].term) then hits + [all[i]] else hits) + Matching(all[i + 1..], pattern)
  {
    var rest := all[i..];
    assert rest[0] == all[i] && rest[1..] == all[i + 1..];
  }

  lemma {:induction false} MatchingMembers<V(!new)>(es: seq<Entry<V>>, pattern: Bytes)
    ensures forall e :: e in Matching(es, pattern) <==> e in es && Matches(pattern, e.term)
  {
    if es != [] {
      MatchingMembers(es[1..], pattern);
      assert es == [es[0]] + es[1..];
    }
  }

  lemma {:induction false} MatchingValid(idx: PhraseQuery.Index, pattern: Bytes)
    requires PhraseQuery.ValidIndex(idx)
    ensures PhraseQuery.HitsValid(Matching(idx.dict, pattern))
  {
    var hits := Matching(idx.dict, pattern);
    MatchingMembers(idx.dict, pattern);
    forall i | 0 <= i < |hits| ensures ValidPosting(hits[i].value) {
      assert hits[i] in hits;
      var j :| 0 <= j < |idx.dict| && idx.dict[j] == hits[i];
      assert ValidPosting(idx.dict[j].value);
    }
  }

  ghost predicate MatchesWildcard(idx: PhraseQuery.Index, pattern: Bytes, d: nat) {
    exists e :: e in idx.dict && Matches(pattern, e.term) && Has(Chunks(e.value), d)
  }

  /** The documents of every dictionary term the pattern matches, ascending. */
  method WildcardQuery(idx: PhraseQuery.Index, pattern: Bytes) returns (docids: seq<nat>)
    requires PhraseQuery.ValidIndex(idx)
    ensures Ascending(docids) && forall d :: d in docids <==> MatchesWildcard(idx, pattern, d)
  {
    var hits := ExpandTerms(idx.dict, pattern);
    MatchingValid(idx, pattern);
    docids := PhraseQuery.EmitDocidUnion(hits);
    forall d ensures PhraseQuery.InHits(hits, d) <==> MatchesWildcard(idx, pattern, d) {
      HitsMatch(idx, pattern, d);
    }
  }

  lemma {:induction false} HitsMatch(idx: PhraseQuery.Index, pattern: Bytes, d: nat)
    ensures PhraseQuery.InHits(Matching(idx.dict, pattern), d) <==> MatchesWildcard(idx, pattern, d)
  {
    var hits := Matching(idx.dict, pattern);
    MatchingMembers(idx.dict, pattern);
    if PhraseQuery.InHits(hits, d) {
      var i :| 0 <= i < |hits| && Has(Chunks(hits[i].value), d);
      assert hits[i] in hits;
    }
    if MatchesWildcard(idx, pattern, d) {
      var e :| e in idx.dict && Matches(pattern, e.term) && Has(Chunks(e.value), d);
      var i :| 0 <= i < |hits| && hits[i] == e;
    }
  }
}
