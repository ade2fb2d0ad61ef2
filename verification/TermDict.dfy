/** The dictionary as its users see it: terms in ascending order, each with a value. */
module TermDict {
  import opened Common
  import opened TermOrder

  datatype Entry<V> = Entry(term: Bytes, value: V)

  ghost predicate SortedTerms<V>(es: seq<Entry<V>>) {
    forall i, j :: 0 <= i < j < |es| ==> Less(es[i].term, es[j].term)
  }

  /** Lookup by scanning the list. */
  function Find<V>(es: seq<Entry<V>>, t: Bytes): Option<V> {
    if es == [] then None else if es[0].term == t then Some(es[0].value) else Find(es[1..], t)
  }

  predicate HasPrefix(t: Bytes, p: Bytes) {
    |p| <= |t| && t[..|p|] == p
  }

  /** The entries whose term starts with `p`, in order. */
  function WithPrefix<V>(es: seq<Entry<V>>, p: Bytes): seq<Entry<V>> {
    if es == [] then []
    else (if HasPrefix(es[0].term, p) then [es[0]] else []) + WithPrefix(es[1..], p)
  }

  lemma {:induction false} SortedTail<V>(es: seq<Entry<V>>)
    requires SortedTerms(es) && es != []
    ensures SortedTerms(es[1..])
  {
    assert forall i :: 0 <= i < |es| - 1 ==> es[1..][i] == es[i + 1];
  }

  lemma {:induction false} FindAt<V>(es: seq<Entry<V>>, i: nat)
    requires SortedTerms(es) && i < |es|
    ensures Find(es, es[i].term) == Some(es[i].value)
  {
    if i > 0 {
      LessIrreflexive(es[i].term);
      SortedTail(es);
      assert es[1..][i - 1] == es[i];
      FindAt(es[1..], i - 1);
    }
  }

  lemma {:induction false} FindNone<V>(es: seq<Entry<V>>, t: Bytes)
    ensures Find(es, t).None? <==> forall i :: 0 <= i < |es| ==> es[i].term != t
  {
    if es != [] {
      FindNone(es[1..], t);
      assert forall i :: 0 <= i < |es[1..]| ==> es[1..][i] == es[i + 1];
      assert forall i :: 0 < i < |es| ==> es[i] == es[1..][i - 1];
    }
  }

  lemma {:induction false} FindIsEntry<V>(es: seq<Entry<V>>, t: Bytes)
    requires Find(es, t).Some?
    ensures exists i :: 0 <= i < |es| && es[i] == Entry(t, Find(es, t).value)
  {
    if es[0].term == t {
      assert es[0] == Entry(t, Find(es, t).value);
    } else {
      FindIsEntry(es[1..], t);
      var i :| 0 <= i < |es[1..]| && es[1..][i] == Entry(t, Find(es[1..], t).value);
      assert es[i + 1] == es[1..][i];
    }
  }

  lemma {:induction false} WithPrefixMembers<V(!new)>(es: seq<Entry<V>>, p: Bytes)
    ensures forall e :: e in WithPrefix(es, p) <==> e in es && HasPrefix(e.term, p)
  {
    if es != [] {
      WithPrefixMembers(es[1..], p);
      assert es == [es[0]] + es[1..];
    }
  }

  lemma {:induction false} WithPrefixConcat<V>(a: seq<Entry<V>>, b: seq<Entry<V>>, p: Bytes)
    ensures WithPrefix(a + b, p) == WithPrefix(a, p) + WithPrefix(b, p)
  {
    if a == [] {
      assert a + b == b;
    } else {
      WithPrefixConcat(a[1..], b, p);
      var h := if HasPrefix(a[0].term, p) then [a[0]] else [];
      assert (a + b)[0] == a[0] && (a + b)[1..] == a[1..] + b;
      assert h + (WithPrefix(a[1..], p) + WithPrefix(b, p)) == h + WithPrefix(a[1..], p) + WithPrefix(b, p);
    }
  }
}
