/** The block-cache cost model: reading a batch of ranges against reading them one by one. */
module CacheMeter {
  import opened Common
  import opened DocidSets
  import opened RangeFetcher

  /** A file of `total` bytes cached in blocks of `size`. */
  datatype Geometry = Geometry(total: nat, size: nat)

  function NumBlocks(g: Geometry): nat
    requires g.size > 0
  {
    if g.total == 0 then 0 else (g.total - 1) / g.size + 1
  }

  /** The last block may be short. */
  function BlockLen(g: Geometry, b: nat): nat
    requires g.size > 0
  {
    var start := b * g.size;
    if start >= g.total then 0 else if g.total - start < g.size then g.total - start else g.size
  }

  predicate ValidRange(g: Geometry, r: Range) {
    g.size > 0 && r.offset <= g.total && r.len <= g.total - r.offset
  }

  function First(g: Geometry, r: Range): nat
    requires g.size > 0
  {
    r.offset / g.size
  }

  function Last(g: Geometry, r: Range): nat
    requires g.size > 0 && r.len > 0
  {
    (r.offset + r.len - 1) / g.size
  }

  /** The blocks a range touches; none when it is empty. */
  function Blocks(g: Geometry, r: Range): (s: set<nat>)
    requires g.size > 0
    ensures forall b :: b in s <==> r.len > 0 && First(g, r) <= b <= Last(g, r)
  {
    if r.len == 0 then {} else Between(First(g, r), Last(g, r) + 1)
  }

  function Between(lo: nat, hi: nat): (s: set<nat>)
    ensures forall b :: b in s <==> lo <= b < hi
    decreases hi - lo
  {
    if lo >= hi then {} else {lo} + Between(lo + 1, hi)
  }

  lemma {:induction false} DivMono(a: nat, b: nat, d: nat)
    requires a <= b && d > 0
    ensures a / d <= b / d
  {
    var x, y := a / d, b / d;
    assert a == x * d + a % d && b == y * d + b % d;
    assert (y + 1) * d == y * d + d;
    if x > y {
      MulMono(y + 1, x, d);
    }
  }

  lemma {:induction false} MulMono(a: nat, b: nat, d: nat)
    requires a <= b
    ensures a * d <= b * d
  {
    assert b * d == a * d + (b - a) * d;
  }

  lemma {:induction false} LastInFile(g: Geometry, r: Range)
    requires ValidRange(g, r) && r.len > 0
    ensures First(g, r) <= Last(g, r) < NumBlocks(g)
  {
    DivMono(r.offset, r.offset + r.len - 1, g.size);
    DivMono(r.offset + r.len - 1, g.total - 1, g.size);
  }

  lemma {:induction false} BlocksInFile(g: Geometry, r: Range)
    requires ValidRange(g, r)
    ensures forall b :: b in Blocks(g, r) ==> b < NumBlocks(g)
    ensures r.len > 0 ==> First(g, r) <= Last(g, r) < NumBlocks(g)
  {
    if r.len > 0 {
      LastInFile(g, r);
    }
  }

  /** Byte `x` lies in block `b`. */
  predicate InBlock(size: nat, x: nat, b: nat) {
    b * size <= x < b * size + size
  }

  lemma {:induction false} BlockOf(x: nat, size: nat)
    requires size > 0
    ensures InBlock(size, x, x / size)
  {
    assert x == x / size * size + x % size;
  }

  lemma {:induction false} BlocksApart(a: nat, b: nat, size: nat)
    ensures a < b ==> a * size + size <= b * size
  {
    if a < b {
      MulMono(a + 1, b, size);
    }
  }

  /** A byte between two others lies in no block before the first one's or after the last's. */
  lemma {:induction false} BlockBetween(size: nat, first: nat, lo: nat, last: nat, hi: nat, b: nat, x: nat)
    requires InBlock(size, lo, first) && InBlock(size, hi, last) && InBlock(size, x, b) && lo <= x <= hi
    ensures first <= b <= last
  {
    BlocksApart(b, first, size);
    BlocksApart(last, b, size);
  }

  /** A block from the first one's to the last's holds a byte between them. */
  lemma {:induction false} ByteBetween(size: nat, first: nat, lo: nat, last: nat, hi: nat, b: nat) returns (x: nat)
    requires size > 0 && InBlock(size, lo, first) && InBlock(size, hi, last) && lo <= hi && first <= b <= last
    ensures lo <= x <= hi && InBlock(size, x, b)
  {
    x := if b == first then lo else b * size;
    BlocksApart(first, b, size);
    BlocksApart(b, last, size);
  }

  /** The touched blocks are those in which some byte of the range lies. */
  lemma {:induction false} TouchedIff(g: Geometry, r: Range, b: nat)
    requires g.size > 0
    ensures b in Blocks(g, r) <==> exists x: nat :: r.offset <= x < r.offset + r.len && InBlock(g.size, x, b)
  {
    if r.len > 0 {
      var hi := r.offset + r.len - 1;
      BlockOf(r.offset, g.size);
      BlockOf(hi, g.size);
      if x: nat :| r.offset <= x < r.offset + r.len && InBlock(g.size, x, b) {
        BlockBetween(g.size, First(g, r), r.offset, Last(g, r), hi, b, x);
      }
      if b in Blocks(g, r) {
        var x := ByteBetween(g.size, First(g, r), r.offset, Last(g, r), hi, b);
      }
    }
  }

  // ----- counting

  /** The bytes of the blocks below `n` that are in `s`. */
  function CachedBytes(g: Geometry, s: set<nat>, n: nat): nat
    requires g.size > 0
  {
    if n == 0 then 0 else CachedBytes(g, s, n - 1) + if n - 1 in s then BlockLen(g, n - 1) else 0
  }

  /** The maximal runs of consecutive blocks below `n` in `s`, counted by their first block. */
  function Runs(s: set<nat>, n: nat): nat {
    if n == 0 then 0 else Runs(s, n - 1) + if n - 1 in s && (n == 1 || n - 2 !in s) then 1 else 0
  }

  lemma {:induction false} BytesAdd(g: Geometry, s: set<nat>, b: nat, n: nat)
    requires g.size > 0 && b !in s
    ensures CachedBytes(g, s + {b}, n) == CachedBytes(g, s, n) + if b < n then BlockLen(g, b) else 0
  {
    if n > 0 {
      BytesAdd(g, s, b, n - 1);
    }
  }

  /** A block of `s` with none of `s` right before it. */
  predicate StartsRun(s: set<nat>, b: nat) {
    b in s && (b == 0 || b - 1 !in s)
  }

  /** The count is that of the blocks that start a run. */
  lemma {:induction false} RunsAre(s: set<nat>, n: nat)
    ensures Runs(s, n) == |set b: nat | b in s && b < n && StartsRun(s, b)|
  {
    var now := set b: nat | b in s && b < n && StartsRun(s, b);
    if n > 0 {
      RunsAre(s, n - 1);
      var before := set b: nat | b in s && b < n - 1 && StartsRun(s, b);
      assert now == if StartsRun(s, n - 1) then before + {n - 1} else before;
    } else {
      assert now == {};
    }
  }

  lemma {:induction false} BlockStart(g: Geometry, b: nat)
    requires g.size > 0 && b < NumBlocks(g)
    ensures b * g.size < g.total && (b + 1 == NumBlocks(g) ==> g.total <= b * g.size + g.size)
  {
    BlockOf(g.total - 1, g.size);
    MulMono(b, NumBlocks(g) - 1, g.size);
  }

  /** The blocks of a file, the short last one included, add up to it. */
  lemma {:induction false} BytesOfAll(g: Geometry, s: set<nat>, n: nat)
    requires g.size > 0 && n <= NumBlocks(g) && forall b: nat :: b < n ==> b in s
    ensures CachedBytes(g, s, n) == Min(n * g.size, g.total)
    ensures n == NumBlocks(g) ==> CachedBytes(g, s, n) == g.total
  {
    if n > 0 {
      BytesOfAll(g, s, n - 1);
      BlockStart(g, n - 1);
      NextMultiple(n - 1, g.size);
    }
  }

  lemma {:induction false} NextMultiple(b: nat, size: nat)
    ensures (b + 1) * size == b * size + size
  {
  }

  /** Appending a block above all others extends the last run or starts one. */
  lemma {:induction false} RunsAdd(s: set<nat>, b: nat, n: nat)
    requires forall x :: x in s ==> x < b
    ensures Runs(s + {b}, n) == Runs(s, n) + if b < n && (b == 0 || b - 1 !in s) then 1 else 0
  {
    if n > 0 {
      RunsAdd(s, b, n - 1);
    }
  }

  /** Together two sets make no more runs than apart. */
  lemma {:induction false} RunsUnion(a: set<nat>, b: set<nat>, n: nat)
    ensures Runs(a + b, n) <= Runs(a, n) + Runs(b, n)
  {
    if n > 0 {
      RunsUnion(a, b, n - 1);
    }
  }

  // ----- what each way of reading costs

  function Touched(g: Geometry, rs: seq<Range>): set<nat>
    requires g.size > 0
  {
    if rs == [] then {} else Blocks(g, rs[0]) + Touched(g, rs[1..])
  }

  function TotalLen(rs: seq<Range>): nat {
    if rs == [] then 0 else rs[0].len + TotalLen(rs[1..])
  }

  function SerialGets(g: Geometry, resident: set<nat>, rs: seq<Range>): nat
    requires g.size > 0
    decreases |rs|
  {
    if rs == [] then 0
    else Runs(Blocks(g, rs[0]) - resident, NumBlocks(g)) + SerialGets(g, resident + Blocks(g, rs[0]), rs[1..])
  }

  function Round(missed: set<nat>): nat {
    if missed == {} then 0 else 1
  }

  function SerialRounds(g: Geometry, resident: set<nat>, rs: seq<Range>): nat
    requires g.size > 0
    decreases |rs|
  {
    if rs == [] then 0 else Round(Blocks(g, rs[0]) - resident) + SerialRounds(g, resident + Blocks(g, rs[0]), rs[1..])
  }

  function BatchGets(g: Geometry, resident: set<nat>, rs: seq<Range>): nat
    requires g.size > 0
  {
    Runs(Touched(g, rs) - resident, NumBlocks(g))
  }

  function BatchRounds(g: Geometry, resident: set<nat>, rs: seq<Range>): nat
    requires g.size > 0
  {
    Round(Touched(g, rs) - resident)
  }

  /** From any cache state, a batch needs no more requests and no more rounds. */
  lemma {:induction false} BatchNoWorse(g: Geometry, resident: set<nat>, rs: seq<Range>)
    requires g.size > 0
    ensures BatchGets(g, resident, rs) <= SerialGets(g, resident, rs)
    ensures BatchRounds(g, resident, rs) <= SerialRounds(g, resident, rs)
    decreases |rs|
  {
    if rs == [] {
      EmptyRuns(NumBlocks(g));
      assert {} - resident == {};
    } else {
      var mine := Blocks(g, rs[0]);
      BatchNoWorse(g, resident + mine, rs[1..]);
      var a, b := mine - resident, Touched(g, rs[1..]) - (resident + mine);
      assert Touched(g, rs) - resident == a + b;
      RunsUnion(a, b, NumBlocks(g));
    }
  }

  lemma {:induction false} EmptyRuns(n: nat)
    ensures Runs({}, n) == 0
  {
    if n > 0 {
      EmptyRuns(n - 1);
    }
  }

  lemma {:induction false} TouchedSnoc(g: Geometry, rs: seq<Range>, i: nat)
    requires g.size > 0 && i < |rs|
    ensures Touched(g, rs[..i + 1]) == Touched(g, rs[..i]) + Blocks(g, rs[i])
  {
    if i == 0 {
      assert rs[..1][1..] == [] && rs[..0] == [];
    } else {
      TouchedSnoc(g, rs[1..], i - 1);
      assert rs[..i + 1][1..] == rs[1..][..i] && rs[..i][1..] == rs[1..][..i - 1];
    }
  }

  // ----- the reader

  class MeteredFileReader {
    const g: Geometry
    var resident: set<nat>
    var readAtCalls: nat
    var requestBytes: nat
    var serialRounds: nat
    var rangeGets: nat
    var remoteBytes: nat

    /** The remote bytes are exactly the resident blocks'. */
    ghost predicate Valid()
      reads this
    {
      && g.size > 0 && (forall b :: b in resident ==> b < NumBlocks(g))
      && remoteBytes == CachedBytes(g, resident, NumBlocks(g))
    }

    constructor (g: Geometry)
      requires g.size > 0
      ensures Valid() && this.g == g && resident == {} && rangeGets == 0 && serialRounds == 0
    {
      this.g := g;
      resident, readAtCalls, requestBytes, serialRounds, rangeGets, remoteBytes := {}, 0, 0, 0, 0, 0;
      new;
      NothingResident(g, NumBlocks(g));
    }

    /** Makes the missing block `b` resident. */
    method Miss(b: nat)
      requires Valid() && b !in resident && b < NumBlocks(g)
      modifies this`resident, this`remoteBytes
      ensures Valid() && resident == old(resident) + {b}
    {
      BytesAdd(g, resident, b, NumBlocks(g));
      resident := resident + {b};
      remoteBytes := remoteBytes + BlockLen(g, b);
    }

    /** Touches one contiguous range, one request per run of missing blocks. */
    method AccountBlocks(r: Range) returns (anyMiss: bool)
      requires Valid() && ValidRange(g, r)
      modifies this`resident, this`remoteBytes, this`rangeGets
      ensures Valid() && resident == old(resident) + Blocks(g, r)
      ensures rangeGets == old(rangeGets) + Runs(Blocks(g, r) - old(resident), NumBlocks(g))
      ensures anyMiss <==> Blocks(g, r) - old(resident) != {}
    {
      BlocksInFile(g, r);
      if r.len == 0 {
        assert {} - resident == {} && resident + {} == resident;
        EmptyRuns(NumBlocks(g));
        return false;
      }
      anyMiss := false;
      var inRun := false;
      var b := First(g, r);
      ghost var missed: set<nat> := {};
      EmptyRuns(NumBlocks(g));
      while b <= Last(g, r)
        invariant Valid() && First(g, r) <= b <= Last(g, r) + 1
        invariant forall x :: x in missed <==> First(g, r) <= x < b && x !in old(resident)
        invariant resident == old(resident) + missed && (anyMiss <==> missed != {})
        invariant rangeGets == old(rangeGets) + Runs(missed, NumBlocks(g))
        invariant inRun <==> b > 0 && b - 1 in missed
      {
        if b in resident {
          inRun := false;
        } else {
          RunsAdd(missed, b, NumBlocks(g));
          missed := missed + {b};
          Miss(b);
          anyMiss := true;
          if !inRun {
            rangeGets := rangeGets + 1;
          }
          inRun := true;
        }
        b := b + 1;
      }
      assert missed == Blocks(g, r) - old(resident);
      assert resident == old(resident) + Blocks(g, r);
    }

    /** One blocking read: any miss costs a round. An invalid range changes nothing. */
    method ReadAt(r: Range) returns (status: Result<()>)
      requires Valid()
      modifies this
      ensures Valid() && (status.Ok? <==> ValidRange(g, r))
      ensures status.Error? ==> resident == old(resident) && rangeGets == old(rangeGets) && serialRounds == old(serialRounds)
      ensures status.Ok? ==> resident == old(resident) + Blocks(g, r)
      ensures status.Ok? ==> rangeGets == old(rangeGets) + Runs(Blocks(g, r) - old(resident), NumBlocks(g))
      ensures status.Ok? ==> serialRounds == old(serialRounds) + Round(Blocks(g, r) - old(resident))
      ensures status.Ok? ==> readAtCalls == old(readAtCalls) + 1 && requestBytes == old(requestBytes) + r.len
    {
      if !ValidRange(g, r) {
        return Error(Corruption("read range past end"));
      }
      readAtCalls, requestBytes := readAtCalls + 1, requestBytes + r.len;
      var miss := AccountBlocks(r);
      if miss {
        serialRounds := serialRounds + 1;
      }
      status := Ok(());
    }

    /** The ranges one by one. */
    method ReadSerially(rs: seq<Range>)
      requires Valid() && forall i :: 0 <= i < |rs| ==> ValidRange(g, rs[i])
      modifies this
      ensures Valid() && resident == old(resident) + Touched(g, rs)
      ensures rangeGets == old(rangeGets) + SerialGets(g, old(resident), rs)
      ensures serialRounds == old(serialRounds) + SerialRounds(g, old(resident), rs)
      ensures readAtCalls == old(readAtCalls) + |rs| && requestBytes == old(requestBytes) + TotalLen(rs)
    {
      assert rs[..0] == [] && rs[0..] == rs && resident == resident + {};
      for i := 0 to |rs|
        invariant Valid() && resident == old(resident) + Touched(g, rs[..i])
        invariant rangeGets + SerialGets(g, resident, rs[i..]) == old(rangeGets) + SerialGets(g, old(resident), rs)
        invariant readAtCalls == old(readAtCalls) + i && requestBytes + TotalLen(rs[i..]) == old(requestBytes) + TotalLen(rs)
        invariant serialRounds + SerialRounds(g, resident, rs[i..]) == old(serialRounds) + SerialRounds(g, old(resident), rs)
      {
        assert rs[i..][0] == rs[i] && rs[i..][1..] == rs[i + 1..];
        TouchedSnoc(g, rs, i);
        var status := ReadAt(rs[i]);
        assert old(resident) + Touched(g, rs[..i]) + Blocks(g, rs[i]) == old(resident) + Touched(g, rs[..i + 1]);
      }
      assert rs[..|rs|] == rs;
    }

    /** The whole batch at once: one round, one request per run over the union. */
    method ReadBatch(rs: seq<Range>) returns (status: Result<()>)
      requires Valid()
      modifies this
      ensures Valid() && (status.Ok? <==> forall i :: 0 <= i < |rs| ==> ValidRange(g, rs[i]))
      ensures status.Error? ==> resident == old(resident) && rangeGets == old(rangeGets) && serialRounds == old(serialRounds)
      ensures status.Ok? ==> resident == old(resident) + Touched(g, rs)
      ensures status.Ok? ==> rangeGets == old(rangeGets) + BatchGets(g, old(resident), rs)
      ensures status.Ok? ==> serialRounds == old(serialRounds) + BatchRounds(g, old(resident), rs)
      ensures status.Ok? ==> readAtCalls == old(readAtCalls) + |rs| && requestBytes == old(requestBytes) + TotalLen(rs)
    {
      for i := 0 to |rs|
        invariant forall j :: 0 <= j < i ==> ValidRange(g, rs[j])
      {
        if !ValidRange(g, rs[i]) {
          return Error(Corruption("read range past end"));
        }
      }
      var blocks := GatherBlocks(g, rs);
      readAtCalls, requestBytes := readAtCalls + |rs|, requestBytes + TotalLen(rs);
      var miss := AccountSorted(blocks, Touched(g, rs));
      if miss {
        serialRounds := serialRounds + 1;
      }
      status := Ok(());
    }

    /** Touches ascending block numbers; a gap in the missing ones starts a new request. */
    method AccountSorted(blocks: seq<nat>, ghost all: set<nat>) returns (anyMiss: bool)
      requires Valid() && Ascending(blocks) && (forall b :: b in blocks <==> b in all) && forall b :: b in all ==> b < NumBlocks(g)
      modifies this`resident, this`remoteBytes, this`rangeGets
      ensures Valid() && resident == old(resident) + all
      ensures rangeGets == old(rangeGets) + Runs(all - old(resident), NumBlocks(g))
      ensures anyMiss <==> all - old(resident) != {}
    {
      anyMiss := false;
      var prevMiss: nat := 0;
      ghost var missed: set<nat> := {};
      EmptyRuns(NumBlocks(g));
      for i := 0 to |blocks|
        invariant Valid() && resident == old(resident) + missed && (anyMiss <==> missed != {})
        invariant forall j :: 0 <= j < i ==> blocks[j] in old(resident) || blocks[j] in missed
        invariant forall x :: x in missed ==> x in blocks && x !in old(resident) && x <= prevMiss && (i < |blocks| ==> x < blocks[i])
        invariant anyMiss ==> prevMiss in missed
        invariant rangeGets == old(rangeGets) + Runs(missed, NumBlocks(g))
      {
        var b := blocks[i];
        assert b in blocks;
        if b !in resident {
          RunsAdd(missed, b, NumBlocks(g));
          if !anyMiss || b != prevMiss + 1 {
            rangeGets := rangeGets + 1;
          }
          missed := missed + {b};
          Miss(b);
          anyMiss, prevMiss := true, b;
        }
      }
      assert missed == all - old(resident);
      assert resident == old(resident) + all;
    }
  }

  lemma {:induction false} NothingResident(g: Geometry, n: nat)
    requires g.size > 0
    ensures CachedBytes(g, {}, n) == 0
  {
    if n > 0 {
      NothingResident(g, n - 1);
    }
  }

  /** All touched blocks, sorted, each once. */
  method GatherBlocks(g: Geometry, rs: seq<Range>) returns (blocks: seq<nat>)
    requires g.size > 0 && forall i :: 0 <= i < |rs| ==> ValidRange(g, rs[i])
    ensures Ascending(blocks) && (forall b :: b in blocks <==> b in Touched(g, rs))
    ensures forall b :: b in Touched(g, rs) ==> b < NumBlocks(g)
  {
    blocks := [];
    assert rs[..0] == [];
    for i := 0 to |rs|
      invariant Ascending(blocks) && (forall b :: b in blocks <==> b in Touched(g, rs[..i]))
      invariant forall b :: b in Touched(g, rs[..i]) ==> b < NumBlocks(g)
    {
      TouchedSnoc(g, rs, i);
      BlocksInFile(g, rs[i]);
      var span := SpanBlocks(g, rs[i]);
      blocks := UnionSortedInto(blocks, span);
    }
    assert rs[..|rs|] == rs;
  }

  method SpanBlocks(g: Geometry, r: Range) returns (span: seq<nat>)
    requires g.size > 0 && ValidRange(g, r)
    ensures Ascending(span) && forall b :: b in span <==> b in Blocks(g, r)
  {
    span := [];
    if r.len > 0 {
      BlocksInFile(g, r);
      var first := First(g, r);
      for b := first to Last(g, r) + 1
        invariant Ascending(span) && (forall x :: x in span <==> first <= x < b)
      {
        assert span != [] ==> span[|span| - 1] in span;
        AscendingSnoc(span, b);
        span := span + [b];
      }
    }
  }

  /** A batch against the same ranges one by one, from equal states: the same blocks end up
      resident, so the same bytes were fetched, with no more requests or rounds. */
  method CompareBatch(one: MeteredFileReader, many: MeteredFileReader, rs: seq<Range>)
    requires one != many && one.Valid() && many.Valid() && one.g == many.g && one.resident == many.resident
    requires forall i :: 0 <= i < |rs| ==> ValidRange(one.g, rs[i])
    modifies one, many
    ensures one.Valid() && many.Valid()
    ensures one.resident == many.resident && one.remoteBytes == many.remoteBytes
    ensures one.rangeGets - old(one.rangeGets) <= many.rangeGets - old(many.rangeGets)
    ensures one.serialRounds - old(one.serialRounds) <= many.serialRounds - old(many.serialRounds)
    ensures one.serialRounds - old(one.serialRounds) <= 1
  {
    BatchNoWorse(one.g, one.resident, rs);
    var status := one.ReadBatch(rs);
    many.ReadSerially(rs);
  }
}
