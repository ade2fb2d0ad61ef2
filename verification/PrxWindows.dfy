/** Position windows: the documents' position lists as per-document deltas, bit-packed or
    as plain varints, in a checksummed frame. */
module PrxWindows {
  import opened Common
  import opened Varint
  import opened ByteStreams
  import opened Pfor
  import opened PforRuns
  import opened FrqRegions
  import opened PostingCursor

  const MAX_POSITIONS: nat := 0x400_0000

  datatype Codec = Raw | Zstd | PforCodec

  // ----- flat positions and their partition

  function Sum(freqs: seq<nat>, k: nat): nat
    requires k <= |freqs|
  {
    if k == 0 then 0 else Sum(freqs, k - 1) + freqs[k - 1]
  }

  lemma {:induction false} SumMono(freqs: seq<nat>, i: nat, j: nat)
    requires i <= j <= |freqs|
    ensures Sum(freqs, i) <= Sum(freqs, j)
    decreases j - i
  {
    if i < j {
      SumMono(freqs, i, j - 1);
    }
  }

  method TotalOf(freqs: seq<nat>) returns (n: nat)
    ensures n == Sum(freqs, |freqs|)
  {
    n := 0;
    for i := 0 to |freqs|
      invariant n == Sum(freqs, i)
    {
      n := n + freqs[i];
    }
  }

  ghost predicate Parted(flat: seq<nat>, freqs: seq<nat>) {
    Sum(freqs, |freqs|) == |flat|
  }

  /** Document `d` owns the next `freqs[d]` positions. */
  function ListAt(flat: seq<nat>, freqs: seq<nat>, d: nat): (r: seq<nat>)
    requires Parted(flat, freqs) && d < |freqs|
    ensures |r| == freqs[d]
  {
    SumMono(freqs, d + 1, |freqs|);
    flat[Sum(freqs, d)..Sum(freqs, d + 1)]
  }

  function Lists(flat: seq<nat>, freqs: seq<nat>): (r: seq<seq<nat>>)
    requires Parted(flat, freqs)
    ensures |r| == |freqs| && forall d: nat {:trigger r[d]} :: d < |freqs| ==> r[d] == ListAt(flat, freqs, d)
  {
    seq(|freqs|, d requires 0 <= d < |freqs| => ListAt(flat, freqs, d))
  }

  function Counts(lists: seq<seq<nat>>): (r: seq<nat>)
    ensures |r| == |lists| && forall d: nat {:trigger r[d]} :: d < |lists| ==> r[d] == |lists[d]|
  {
    seq(|lists|, d requires 0 <= d < |lists| => |lists[d]|)
  }

  lemma {:induction false} CountsOfLists(flat: seq<nat>, freqs: seq<nat>)
    requires Parted(flat, freqs)
    ensures Counts(Lists(flat, freqs)) == freqs
  {
    var c := Counts(Lists(flat, freqs));
    assert forall d: nat {:trigger c[d]} :: d < |freqs| ==> c[d] == freqs[d];
  }

  ghost predicate ListGood(list: seq<nat>) {
    Values(list) && Climbs(list, 0)
  }

  ghost predicate GoodUpTo(lists: seq<seq<nat>>, k: nat) {
    k <= |lists| && forall d: nat {:trigger ListGood(lists[d])} :: d < k ==> ListGood(lists[d])
  }

  /** Position lists the format carries: 32-bit values, ascending within each document. */
  ghost predicate AllGood(lists: seq<seq<nat>>) {
    GoodUpTo(lists, |lists|)
  }

  /** Each document's deltas, the first against zero. */
  ghost function Deltas(lists: seq<seq<nat>>, k: nat): (r: seq<nat>)
    requires GoodUpTo(lists, k)
    ensures |r| == Sum(Counts(lists), k)
  {
    if k == 0 then [] else
      assert ListGood(lists[k - 1]);
      Deltas(lists, k - 1) + DocDeltas(lists[k - 1], 0)
  }

  lemma {:induction false} DeltasSnoc(lists: seq<seq<nat>>, k: nat)
    requires k < |lists| && GoodUpTo(lists, k)
    ensures GoodUpTo(lists, k + 1) <==> ListGood(lists[k])
    ensures ListGood(lists[k]) ==> Deltas(lists, k + 1) == Deltas(lists, k) + DocDeltas(lists[k], 0)
  {
  }

  lemma {:induction false} DeltasValues(lists: seq<seq<nat>>, k: nat)
    requires k <= |lists| && AllGood(lists)
    ensures Values(Deltas(lists, k))
  {
    if k > 0 {
      DeltasValues(lists, k - 1);
      assert ListGood(lists[k - 1]);
      DeltasFit(lists[k - 1], 0);
    }
  }

  lemma {:induction false} FrontPart(a: seq<nat>, b: seq<nat>, i: nat, j: nat)
    requires i <= j <= |a|
    ensures (a + b)[i..j] == a[i..j]
  {
  }

  lemma {:induction false} DeltasAt(lists: seq<seq<nat>>, k: nat, d: nat)
    requires d < k <= |lists| && AllGood(lists)
    ensures Climbs(lists[d], 0)
    ensures var c := Counts(lists); Sum(c, d + 1) <= Sum(c, k) && Deltas(lists, k)[Sum(c, d)..Sum(c, d + 1)] == DocDeltas(lists[d], 0)
    decreases k
  {
    var c := Counts(lists);
    SumMono(c, d + 1, k);
    assert ListGood(lists[k - 1]) && ListGood(lists[d]);
    if d < k - 1 {
      DeltasAt(lists, k - 1, d);
      FrontPart(Deltas(lists, k - 1), DocDeltas(lists[k - 1], 0), Sum(c, d), Sum(c, d + 1));
    }
  }

  // ----- the packed payload

  function Low32(n: nat): (r: nat)
    ensures r < TWO32 && (n < TWO32 ==> r == n)
  {
    n % TWO32
  }

  ghost predicate PackedParts(bytes: Bytes, lists: seq<seq<nat>>, counts: Bytes, deltas: Bytes) {
    && AllGood(lists)
    && bytes == Encode(Low32(|lists|)) + (Encode(Low32(Sum(Counts(lists), |lists|))) + (counts + deltas))
    && Coded(counts, Counts(lists)) && Coded(deltas, Deltas(lists, |lists|))
  }

  ghost predicate IsPacked(bytes: Bytes, lists: seq<seq<nat>>) {
    exists counts, deltas :: PackedParts(bytes, lists, counts, deltas)
  }

  ghost predicate Ordered(flat: seq<nat>, freqs: seq<nat>) {
    Parted(flat, freqs) && AllGood(Lists(flat, freqs))
  }

  /** The next document's deltas; refused when its positions step back. */
  method NextDeltas(flat: seq<nat>, freqs: seq<nat>, d: nat, off: nat) returns (r: Option<seq<nat>>)
    requires Values(flat) && Parted(flat, freqs) && d < |freqs| && off == Sum(freqs, d)
    ensures r.Some? <==> ListGood(ListAt(flat, freqs, d))
    ensures r.Some? ==> r.value == DocDeltas(ListAt(flat, freqs, d), 0)
  {
    var list := ListAt(flat, freqs, d);
    ListValues(flat, freqs, d);
    var ok := ValidateDocs(list, 0);
    if !ok {
      return None;
    }
    var dd := TakeDeltas(list, 0);
    r := Some(dd);
  }

  lemma {:induction false} ListValues(flat: seq<nat>, freqs: seq<nat>, d: nat)
    requires Values(flat) && Parted(flat, freqs) && d < |freqs|
    ensures Values(ListAt(flat, freqs, d))
  {
    SumMono(freqs, d + 1, |freqs|);
  }

  /** Collects every document's deltas in one pass over the flat positions. */
  method FlatDeltas(flat: seq<nat>, freqs: seq<nat>) returns (r: Option<seq<nat>>)
    requires Values(flat) && Parted(flat, freqs)
    ensures r.Some? <==> AllGood(Lists(flat, freqs))
    ensures r.Some? ==> r.value == Deltas(Lists(flat, freqs), |freqs|)
  {
    ghost var lists := Lists(flat, freqs);
    var out: seq<nat>, off := [], 0;
    for d := 0 to |freqs|
      invariant off == Sum(freqs, d) && GoodUpTo(lists, d)
      invariant out == Deltas(lists, d)
    {
      DeltasSnoc(lists, d);
      var next := NextDeltas(flat, freqs, d, off);
      if next.None? {
        return None;
      }
      out := out + next.value;
      off := off + freqs[d];
    }
    r := Some(out);
  }

  /** Refused exactly when the frequencies do not partition the positions or a document's
      positions step back. */
  method EncodePacked(flat: seq<nat>, freqs: seq<nat>) returns (r: Result<Bytes>)
    requires Values(flat) && Values(freqs)
    ensures r.Ok? <==> Ordered(flat, freqs)
    ensures r.Ok? ==> IsPacked(r.value, Lists(flat, freqs))
  {
    var total := TotalOf(freqs);
    if total != |flat| {
      return Error(InvalidArgument("prx: sum(freqs) does not match positions_flat size"));
    }
    var counts := EncodeRuns(freqs);
    var dd := FlatDeltas(flat, freqs);
    if dd.None? {
      return Error(InvalidArgument("prx: positions within a doc must be ascending"));
    }
    DeltasValues(Lists(flat, freqs), |freqs|);
    CountsOfLists(flat, freqs);
    var deltas := EncodeRuns(dd.value);
    var bytes := Encode(Low32(|freqs|)) + (Encode(Low32(|flat|)) + (counts + deltas));
    assert PackedParts(bytes, Lists(flat, freqs), counts, deltas);
    r := Ok(bytes);
  }

  // ----- reading it

  datatype Columns = Columns(counts: seq<nat>, deltas: seq<nat>)

  /** Within the reader's limits on documents and positions. */
  ghost predicate Sane(lists: seq<seq<nat>>) {
    |lists| <= MAX_DOCS && Sum(Counts(lists), |lists|) <= MAX_POSITIONS
  }

  datatype Head = Head(n: nat, total: nat, body: Bytes)

  ghost predicate HeadIs(plain: Bytes, h: Head) {
    plain == Encode(h.n) + (Encode(h.total) + h.body)
  }

  /** The two counts, each held to its cap. */
  method ReadHead(plain: Bytes, ghost h: Head, ghost good: bool) returns (r: Result<Head>)
    requires good ==> h.n <= MAX_DOCS && h.total < TWO32 && HeadIs(plain, h)
    ensures good ==> if h.total > MAX_POSITIONS then r.Error? else r == Ok(h)
  {
    if good {
      VarintFirst(h.n, Encode(h.total) + h.body);
      VarintFirst(h.total, h.body);
    }
    var n := GetVarint32(plain);
    if n.Error? {
      return Error(n.status);
    }
    var total := GetVarint32(n.value.rest);
    if total.Error? {
      return Error(total.status);
    }
    if total.value.value > MAX_POSITIONS {
      return Error(Corruption("prx: position count exceeds sane cap"));
    }
    if n.value.value > MAX_DOCS {
      return Error(Corruption("prx: doc count exceeds sane cap"));
    }
    r := Ok(Head(n.value.value, total.value.value, total.value.rest));
  }

  /** Two columns end to end; the counts are checked against the stated total before the
      deltas are read. */
  method ReadBody(body: Bytes, n: nat, total: nat, ghost counts: seq<nat>, ghost deltas: seq<nat>, ghost cs: Bytes, ghost ds: Bytes, ghost good: bool)
    returns (r: Result<Columns>)
    requires good ==> body == cs + ds && Coded(cs, counts) && Coded(ds, deltas) && Values(counts) && Values(deltas)
    requires good ==> n == |counts| && Parted(deltas, counts)
    ensures r.Ok? ==> Parted(r.value.deltas, r.value.counts)
    ensures good && total == |deltas| ==> r == Ok(Columns(counts, deltas))
    ensures good && total != |deltas| ==> r.Error?
  {
    var c := DecodeRuns(body, n, counts, cs, ds, good);
    if c.Error? {
      return Error(c.status);
    }
    var sum := TotalOf(c.value.value);
    if sum != total {
      return Error(Corruption("prx: pos_count sum mismatch"));
    }
    assert ds == ds + [];
    var dd := DecodeRuns(c.value.rest, total, deltas, ds, [], good);
    if dd.Error? {
      return Error(dd.status);
    }
    if dd.value.rest != [] {
      return Error(Corruption("prx: trailing bytes after pfor payload"));
    }
    r := Ok(Columns(c.value.value, dd.value.value));
  }

  lemma {:induction false} PackedOpens(plain: Bytes, lists: seq<seq<nat>>, cs: Bytes, ds: Bytes)
    requires PackedParts(plain, lists, cs, ds) && |lists| <= MAX_DOCS
    ensures var deltas := Deltas(lists, |lists|);
            Values(deltas) && Parted(deltas, Counts(lists)) && HeadIs(plain, Head(|lists|, Low32(|deltas|), cs + ds))
  {
    DeltasValues(lists, |lists|);
  }

  method ReadColumns(plain: Bytes, ghost lists: seq<seq<nat>>, ghost good: bool) returns (r: Result<Columns>)
    requires good ==> |lists| <= MAX_DOCS && Values(Counts(lists)) && IsPacked(plain, lists)
    ensures r.Ok? ==> Parted(r.value.deltas, r.value.counts)
    ensures good && Sane(lists) ==> r.Ok? && Holds(r.value, lists)
    ensures good && !Sane(lists) ==> r.Error?
  {
    ghost var cs: Bytes, ds: Bytes, deltas: seq<nat>, counts: seq<nat> := [], [], [], [];
    if good {
      cs, ds :| PackedParts(plain, lists, cs, ds);
      counts, deltas := Counts(lists), Deltas(lists, |lists|);
      PackedOpens(plain, lists, cs, ds);
    }
    var h := ReadHead(plain, Head(|counts|, Low32(|deltas|), cs + ds), good);
    if h.Error? {
      return Error(h.status);
    }
    r := ReadBody(h.value.body, h.value.n, h.value.total, counts, deltas, cs, ds, good);
  }

  /** The columns of these lists. */
  ghost predicate Holds(c: Columns, lists: seq<seq<nat>>) {
    AllGood(lists) && c == Columns(Counts(lists), Deltas(lists, |lists|))
  }

  method NextList(c: Columns, d: nat, off: nat, ghost lists: seq<seq<nat>>, ghost good: bool) returns (list: seq<nat>)
    requires Parted(c.deltas, c.counts) && d < |c.counts| && off == Sum(c.counts, d)
    requires good ==> Holds(c, lists)
    ensures good ==> list == lists[d]
  {
    if good {
      assert ListGood(lists[d]);
      DeltasAt(lists, |lists|, d);
    }
    SumMono(c.counts, d + 1, |c.counts|);
    list := SumDeltas(c.deltas[off..off + c.counts[d]], 0, if good then lists[d] else [], good);
  }

  /** One list per document. */
  method DecodePacked(plain: Bytes, ghost lists: seq<seq<nat>>, ghost good: bool) returns (r: Result<seq<seq<nat>>>)
    requires good ==> |lists| <= MAX_DOCS && Values(Counts(lists)) && IsPacked(plain, lists)
    ensures good && Sane(lists) ==> r == Ok(lists)
    ensures good && !Sane(lists) ==> r.Error?
  {
    var c := ReadColumns(plain, lists, good);
    if c.Error? {
      return Error(c.status);
    }
    var out: seq<seq<nat>>, off := [], 0;
    for d := 0 to |c.value.counts|
      invariant off == Sum(c.value.counts, d) && (good ==> out == lists[..d])
    {
      var list := NextList(c.value, d, off, lists, good);
      out, off := out + [list], off + c.value.counts[d];
    }
    assert good ==> lists[..|lists|] == lists;
    r := Ok(out);
  }

  datatype Flattened = Flattened(flat: seq<nat>, off: seq<nat>)

  /** The same lists in one flat array cut by offsets. */
  method DecodePackedCsr(plain: Bytes, ghost lists: seq<seq<nat>>, ghost good: bool) returns (r: Result<Flattened>)
    requires good ==> |lists| <= MAX_DOCS && Values(Counts(lists)) && IsPacked(plain, lists)
    ensures good && Sane(lists) ==> r.Ok? && Csr(lists, r.value.flat, r.value.off)
    ensures good && !Sane(lists) ==> r.Error?
  {
    var c := ReadColumns(plain, lists, good);
    if c.Error? {
      return Error(c.status);
    }
    var flat: seq<nat>, offs: seq<nat>, off := [], [0], 0;
    for d := 0 to |c.value.counts|
      invariant off == Sum(c.value.counts, d)
      invariant good ==> Csr(lists[..d], flat, offs) && offs[d] == |flat|
    {
      var list := NextList(c.value, d, off, lists, good);
      if good {
        assert lists[..d + 1] == lists[..d] + [lists[d]];
        CsrSnoc(lists[..d], flat, offs, list);
      }
      flat, off := flat + list, off + c.value.counts[d];
      offs := offs + [|flat|];
    }
    assert good ==> lists[..|lists|] == lists;
    r := Ok(Flattened(flat, offs));
  }
}
