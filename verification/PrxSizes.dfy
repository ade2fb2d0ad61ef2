/** How large a window of positions can get. Positions are 32-bit and climb within a document,
    so few of a document's deltas are wide, and a window within the reader's cap on positions
    is within its cap on bytes. */
module PrxSizes {
  import opened Common
  import opened BitStrings
  import opened Varint
  import opened Pfor
  import opened PforRuns
  import opened FrqRegions
  import opened PrxWindows

  const WIDE: nat := 0x100_0000

  lemma {:induction false} Pow24()
    ensures Pow2(24) == WIDE
  {
    PowSplit(8, 16);
    PowSplit(8, 8);
    Pow8();
  }

  /** Each delta of more than 24 bits climbs by 2^24. */
  lemma {:induction false} WideClimb(list: seq<nat>, n: nat)
    requires Climbs(list, 0) && n <= |list|
    ensures WIDE * Wide(DocDeltas(list, 0), 24, n) <= Before(list, 0, n)
  {
    if n > 0 {
      WideClimb(list, n - 1);
      assert Rises(list, 0, n - 1);
      FitsWidth(DocDeltas(list, 0)[n - 1], 24);
      Pow24();
    }
  }

  lemma {:induction false} WideInDoc(list: seq<nat>)
    requires ListGood(list)
    ensures Wide(DocDeltas(list, 0), 24, |list|) <= 255
  {
    WideClimb(list, |list|);
  }

  lemma {:induction false} WideCat(a: seq<nat>, b: seq<nat>, w: nat, n: nat)
    requires n <= |b|
    ensures Wide(a + b, w, |a| + n) == Wide(a, w, |a|) + Wide(b, w, n)
  {
    if n == 0 {
      WidePrefix(a, a + b, w, |a|);
    } else {
      WideCat(a, b, w, n - 1);
    }
  }

  lemma {:induction false} WideInLists(lists: seq<seq<nat>>, k: nat)
    requires GoodUpTo(lists, k)
    ensures Wide(Deltas(lists, k), 24, |Deltas(lists, k)|) <= 255 * k
  {
    if k > 0 {
      assert ListGood(lists[k - 1]);
      WideInLists(lists, k - 1);
      WideInDoc(lists[k - 1]);
      WideCat(Deltas(lists, k - 1), DocDeltas(lists[k - 1], 0), 24, |lists[k - 1]|);
    }
  }

  /** A window of at most 2^26 positions is coded in at most 2^28 bytes: the cap on positions
      implies the cap on bytes. */
  lemma {:induction false} PackedWithinCap(payload: Bytes, lists: seq<seq<nat>>)
    requires |lists| <= 1024 && Values(Counts(lists)) && IsPacked(payload, lists) && Sum(Counts(lists), |lists|) <= MAX_POSITIONS
    ensures |payload| <= MAX_PLAIN
  {
    var cs: Bytes, ds: Bytes :| PackedParts(payload, lists, cs, ds);
    var deltas := Deltas(lists, |lists|);
    DeltasValues(lists, |lists|);
    RunsLength(cs, Counts(lists));
    CodedLength(ds, deltas);
    WideInLists(lists, |lists|);
    EncodedShort(|lists|);
    EncodedShort(|deltas|);
    HeadShort(Encode(|lists|), Encode(|deltas|), cs, ds, payload);
  }

  lemma {:induction false} HeadShort(a: Bytes, b: Bytes, c: Bytes, d: Bytes, all: Bytes)
    requires all == a + (b + (c + d))
    ensures |all| == |a| + |b| + |c| + |d|
  {
  }
}
