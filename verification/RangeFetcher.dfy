/** Planning a batch of byte-range reads: requests close to each other share one physical
    read, and every request finds its bytes inside the read it was assigned to. */
module RangeFetcher {
  import opened Common
  import opened IndexSort

  /** A request and, once planned, the physical read and offset that serve it. */
  datatype Req = Req(offset: nat, len: nat, phys: nat, sub: nat)
  datatype Range = Range(offset: nat, len: nat)

  function End(r: Range): nat {
    r.offset + r.len
  }

  /** The bytes asked for lie in physical read `r.phys`. */
  ghost predicate Served(r: Req, segs: seq<Range>) {
    && r.phys < |segs|
    && segs[r.phys].offset + r.sub == r.offset && r.offset + r.len <= End(segs[r.phys])
  }

  /** Consecutive physical reads are more than `gap` bytes apart. */
  ghost predicate Apart(segs: seq<Range>, gap: nat) {
    forall i :: 0 <= i < |segs| - 1 ==> End(segs[i]) + gap < segs[i + 1].offset
  }

  /** Physical read `i` begins and ends where one of its own requests does. */
  ghost predicate Tight(segs: seq<Range>, i: nat, done: seq<Req>)
    requires i < |segs|
  {
    && (exists k :: 0 <= k < |done| && done[k].phys == i && done[k].offset == segs[i].offset)
    && (exists k :: 0 <= k < |done| && done[k].phys == i && done[k].offset + done[k].len == End(segs[i]))
  }

  /** Byte `p` of read `i` is asked for by a request of that read, or less than `gap` bytes
      behind the end of one. */
  ghost predicate Near(done: seq<Req>, i: nat, p: nat, gap: nat) {
    exists k :: 0 <= k < |done| && done[k].phys == i && done[k].offset <= p < done[k].offset + done[k].len + gap
  }

  /** No read holds more than `gap` bytes in a row that none of its requests asked for. */
  ghost predicate Frugal(segs: seq<Range>, done: seq<Req>, gap: nat) {
    forall i: nat, p: nat {:trigger Near(done, i, p, gap)} :: i < |segs| && segs[i].offset <= p < End(segs[i]) ==> Near(done, i, p, gap)
  }

  /** In other words: once the earlier requests of a read have ended, its next one starts at
      most `gap` later. */
  lemma {:induction false} NextStartsNear(segs: seq<Range>, done: seq<Req>, gap: nat, h: nat) returns (g: nat)
    requires Frugal(segs, done, gap) && AllServed(done, segs) && h < |done|
    requires done[h].phys < |segs| && segs[done[h].phys].offset < done[h].offset
    ensures g < |done| && done[g].phys == done[h].phys && done[g].offset < done[h].offset <= done[g].offset + done[g].len + gap
  {
    assert Served(done[h], segs);
    assert Near(done, done[h].phys, done[h].offset - 1, gap);
    g :| 0 <= g < |done| && done[g].phys == done[h].phys && done[g].offset <= done[h].offset - 1 < done[g].offset + done[g].len + gap;
  }

  // ----- the sweep

  ghost predicate AllServed(done: seq<Req>, segs: seq<Range>) {
    forall m {:trigger Served(done[m], segs)} :: 0 <= m < |done| ==> Served(done[m], segs)
  }

  ghost predicate AllTight(segs: seq<Range>, done: seq<Req>) {
    forall i: nat {:trigger Tight(segs, i, done)} :: i < |segs| ==> Tight(segs, i, done)
  }

  /** The plan for the requests `done`, taken in offset order. */
  ghost predicate Planned(done: seq<Req>, segs: seq<Range>, gap: nat) {
    && Apart(segs, gap) && (done != [] <==> segs != [])
    && AllServed(done, segs) && AllTight(segs, done) && Frugal(segs, done, gap)
  }

  function Max(a: nat, b: nat): nat {
    if a >= b then a else b
  }

  predicate StartsNew(r: Req, segs: seq<Range>, gap: nat) {
    segs == [] || (r.offset > End(segs[|segs| - 1]) && r.offset - End(segs[|segs| - 1]) > gap)
  }

  /** The physical reads after request `r`: a new one, or the last one stretched. */
  function Sweep(segs: seq<Range>, r: Req, gap: nat): (s: seq<Range>)
    requires segs != [] ==> segs[|segs| - 1].offset <= r.offset
    ensures s != [] && s[|s| - 1].offset <= r.offset
  {
    if StartsNew(r, segs, gap) then segs + [Range(r.offset, r.len)]
    else
      var last := segs[|segs| - 1];
      segs[|segs| - 1 := Range(last.offset, Max(End(last), r.offset + r.len) - last.offset)]
  }

  function Assigned(r: Req, segs: seq<Range>): Req
    requires segs != [] && segs[|segs| - 1].offset <= r.offset
  {
    r.(phys := |segs| - 1, sub := r.offset - segs[|segs| - 1].offset)
  }

  lemma {:induction false} StillServed(r: Req, segs: seq<Range>, x: Req, gap: nat)
    requires Served(r, segs) && (segs != [] ==> segs[|segs| - 1].offset <= x.offset)
    ensures Served(r, Sweep(segs, x, gap))
  {
  }

  lemma {:induction false} SweepApart(segs: seq<Range>, x: Req, gap: nat)
    requires Apart(segs, gap) && (segs != [] ==> segs[|segs| - 1].offset <= x.offset)
    ensures Apart(Sweep(segs, x, gap), gap)
  {
    var s := Sweep(segs, x, gap);
    forall i | 0 <= i < |s| - 1 ensures End(s[i]) + gap < s[i + 1].offset {
      if i + 1 < |segs| {
        assert End(segs[i]) + gap < segs[i + 1].offset;
      }
    }
  }

  /** A read the sweep has left behind stays as tight as it was. */
  lemma {:induction false} TightGrows(segs: seq<Range>, more: seq<Range>, i: nat, done: seq<Req>, x: Req)
    requires i < |segs| && i < |more| && more[i] == segs[i] && Tight(segs, i, done)
    ensures Tight(more, i, done + [x])
  {
    var all := done + [x];
    var a :| 0 <= a < |done| && done[a].phys == i && done[a].offset == segs[i].offset;
    var b :| 0 <= b < |done| && done[b].phys == i && done[b].offset + done[b].len == End(segs[i]);
    assert all[a] == done[a] && all[b] == done[b];
  }

  /** The read just touched is bounded by requests too. */
  lemma {:induction false} LastTight(segs: seq<Range>, done: seq<Req>, x: Req, gap: nat)
    requires segs != [] ==> segs[|segs| - 1].offset <= x.offset && Tight(segs, |segs| - 1, done)
    ensures var s := Sweep(segs, x, gap); Tight(s, |s| - 1, done + [Assigned(x, s)])
  {
    var s := Sweep(segs, x, gap);
    var x' := Assigned(x, s);
    var all, n := done + [x'], |s| - 1;
    assert all[|done|] == x';
    if !StartsNew(x, segs, gap) {
      var a :| 0 <= a < |done| && done[a].phys == n && done[a].offset == segs[n].offset;
      var b :| 0 <= b < |done| && done[b].phys == n && done[b].offset + done[b].len == End(segs[n]);
      assert all[a] == done[a] && all[b] == done[b];
      assert End(s[n]) == if End(segs[n]) < x.offset + x.len then x.offset + x.len else End(segs[n]);
    }
  }

  lemma {:induction false} NearGrows(done: seq<Req>, x: Req, i: nat, p: nat, gap: nat)
    requires Near(done, i, p, gap)
    ensures Near(done + [x], i, p, gap)
  {
    var k :| 0 <= k < |done| && done[k].phys == i && done[k].offset <= p < done[k].offset + done[k].len + gap;
    assert (done + [x])[k] == done[k];
  }

  /** Stretching the last read over a request adds no long stretch nobody asked for. */
  lemma {:induction false} LastFrugal(segs: seq<Range>, done: seq<Req>, x: Req, gap: nat, p: nat)
    requires Frugal(segs, done, gap) && (segs != [] ==> segs[|segs| - 1].offset <= x.offset && Tight(segs, |segs| - 1, done))
    requires var s := Sweep(segs, x, gap); s[|s| - 1].offset <= p < End(s[|s| - 1])
    ensures var s := Sweep(segs, x, gap); Near(done + [Assigned(x, s)], |s| - 1, p, gap)
  {
    var s := Sweep(segs, x, gap);
    var x', n := Assigned(x, s), |s| - 1;
    var all := done + [x'];
    assert all[|done|] == x';
    if x.offset <= p < x.offset + x.len {
      assert all[|done|].phys == n && all[|done|].offset <= p;
    } else if p < End(segs[n]) {
      assert Near(done, n, p, gap);
      NearGrows(done, x', n, p, gap);
    } else {
      var b :| 0 <= b < |done| && done[b].phys == n && done[b].offset + done[b].len == End(segs[n]);
      assert all[b] == done[b];
    }
  }

  lemma {:induction false} StepServed(done: seq<Req>, segs: seq<Range>, gap: nat, x: Req)
    requires AllServed(done, segs) && (segs != [] ==> segs[|segs| - 1].offset <= x.offset)
    ensures var s := Sweep(segs, x, gap); AllServed(done + [Assigned(x, s)], s)
  {
    var s := Sweep(segs, x, gap);
    var all := done + [Assigned(x, s)];
    forall m | 0 <= m < |all| ensures Served(all[m], s) {
      if m < |done| {
        assert Served(done[m], segs);
        StillServed(done[m], segs, x, gap);
      }
    }
  }

  lemma {:induction false} StepTight(done: seq<Req>, segs: seq<Range>, gap: nat, x: Req)
    requires AllTight(segs, done) && (segs != [] ==> segs[|segs| - 1].offset <= x.offset)
    ensures var s := Sweep(segs, x, gap); AllTight(s, done + [Assigned(x, s)])
  {
    var s := Sweep(segs, x, gap);
    assert segs != [] ==> Tight(segs, |segs| - 1, done);
    LastTight(segs, done, x, gap);
    forall i: nat | i < |s| ensures Tight(s, i, done + [Assigned(x, s)]) {
      if i < |s| - 1 {
        assert Tight(segs, i, done);
        TightGrows(segs, s, i, done, Assigned(x, s));
      }
    }
  }

  lemma {:induction false} StepFrugal(done: seq<Req>, segs: seq<Range>, gap: nat, x: Req)
    requires Frugal(segs, done, gap) && AllTight(segs, done) && (segs != [] ==> segs[|segs| - 1].offset <= x.offset)
    ensures var s := Sweep(segs, x, gap); Frugal(s, done + [Assigned(x, s)], gap)
  {
    var s := Sweep(segs, x, gap);
    assert segs != [] ==> Tight(segs, |segs| - 1, done);
    forall i: nat, p: nat | i < |s| && s[i].offset <= p < End(s[i]) ensures Near(done + [Assigned(x, s)], i, p, gap) {
      if i == |s| - 1 {
        LastFrugal(segs, done, x, gap, p);
      } else {
        assert s[i] == segs[i] && Near(done, i, p, gap);
        NearGrows(done, Assigned(x, s), i, p, gap);
      }
    }
  }

  lemma {:induction false} PlanStep(done: seq<Req>, segs: seq<Range>, gap: nat, x: Req)
    requires Planned(done, segs, gap) && (segs != [] ==> segs[|segs| - 1].offset <= x.offset)
    ensures var s := Sweep(segs, x, gap); Planned(done + [Assigned(x, s)], s, gap)
  {
    SweepApart(segs, x, gap);
    StepServed(done, segs, gap, x);
    StepTight(done, segs, gap, x);
    StepFrugal(done, segs, gap, x);
  }

  /** The bytes a range of the file holds; past the end is an error. */
  function ReadAt(file: Bytes, r: Range): Result<Bytes> {
    if End(r) > |file| then Error(Corruption("read range past end")) else Ok(file[r.offset..End(r)])
  }

  class BatchRangeFetcher {
    const file: Bytes
    const gap: nat
    var reqs: seq<Req>
    var phys: seq<Bytes>
    ghost var segs: seq<Range>

    constructor (file: Bytes, gap: nat)
      ensures this.file == file && this.gap == gap && reqs == [] && phys == []
    {
      this.file, this.gap := file, gap;
      reqs, phys, segs := [], [], [];
    }

    method Add(offset: nat, len: nat) returns (h: nat)
      modifies this`reqs
      ensures h == |old(reqs)| && reqs == old(reqs) + [Req(offset, len, 0, 0)]
    {
      h := |reqs|;
      reqs := reqs + [Req(offset, len, 0, 0)];
    }

    /** Every handle can be answered from the physical reads. */
    ghost predicate Fetched()
      reads this
    {
      Apart(segs, gap) && Holds(file, segs, phys) && AllServed(reqs, segs)
    }

    /** The reads are no larger than the requests and the gap call for. */
    ghost predicate Sparing()
      reads this
    {
      AllTight(segs, reqs) && Frugal(segs, reqs, gap)
    }

    ghost predicate SameRequests(was: seq<Req>)
      reads this
    {
      |reqs| == |was| && forall h :: 0 <= h < |reqs| ==> reqs[h].offset == was[h].offset && reqs[h].len == was[h].len
    }

    /** Plans and performs the physical reads. It fails only if some request overflows 64
        bits or reaches past the end of the file. */
    method Fetch() returns (r: Result<()>)
      modifies this
      ensures SameRequests(old(reqs))
      ensures r.Ok? ==> Fetched() && Sparing()
      ensures r.Ok? <==> forall h :: 0 <= h < |old(reqs)| ==> InBounds(old(reqs)[h], |file|)
    {
      phys, segs := [], [];
      var keys := Offsets(reqs);
      var order := SortByKey(keys);
      var plan: seq<Range> := [];
      ghost var done: seq<Req> := [];
      for k := 0 to |order|
        invariant SameRequests(old(reqs)) && Planned(done, plan, gap) && Picked(reqs, order, k, done)
        invariant k > 0 ==> plan[|plan| - 1].offset <= old(reqs)[order[k - 1]].offset
        invariant forall m {:trigger done[m]} :: 0 <= m < k ==> done[m].offset + done[m].len < TWO64
      {
        var x := reqs[order[k]];
        assert x.offset == old(reqs)[order[k]].offset && x.len == old(reqs)[order[k]].len;
        if x.offset + x.len >= TWO64 {
          return Error(Corruption("range end overflow"));
        }
        assert k > 0 ==> keys[order[k - 1]] <= keys[order[k]];
        var s := Sweep(plan, x, gap);
        PlanStep(done, plan, gap, x);
        PickNext(reqs, order, k, done, Assigned(x, s));
        reqs, plan := reqs[order[k] := Assigned(x, s)], s;
        done := done + [Assigned(x, s)];
      }
      r := ReadBatch(plan, done, order);
    }

    method ReadBatch(plan: seq<Range>, ghost done: seq<Req>, ghost order: seq<nat>) returns (r: Result<()>)
      requires Planned(done, plan, gap) && Permutation(order, |reqs|) && Picked(reqs, order, |reqs|, done)
      requires forall m {:trigger done[m]} :: 0 <= m < |done| ==> done[m].offset + done[m].len < TWO64
      modifies this`phys, this`segs
      ensures r.Ok? ==> Fetched() && Sparing()
      ensures r.Ok? <==> forall h :: 0 <= h < |reqs| ==> InBounds(reqs[h], |file|)
    {
      segs := plan;
      var bytes := ReadRanges(file, plan);
      EveryRequest(reqs, order, done, plan, gap, |file|);
      if bytes.Error? {
        return Error(bytes.status);
      }
      phys := bytes.value;
      r := Ok(());
    }

    /** A handle's bytes. */
    method Get(h: nat) returns (bytes: Bytes)
      requires Fetched() && h < |reqs|
      ensures reqs[h].offset + reqs[h].len <= |file| && bytes == file[reqs[h].offset..reqs[h].offset + reqs[h].len]
    {
      var r := reqs[h];
      assert Served(r, segs) && HoldsAt(file, segs, phys, r.phys);
      SliceOfSlice(file, segs[r.phys].offset, End(segs[r.phys]), r.sub, r.len);
      bytes := phys[r.phys][r.sub..r.sub + r.len];
    }
  }

  function Offsets(reqs: seq<Req>): (keys: seq<nat>)
    ensures |keys| == |reqs| && forall i :: 0 <= i < |reqs| ==> keys[i] == reqs[i].offset
  {
    seq(|reqs|, i requires 0 <= i < |reqs| => reqs[i].offset)
  }

  lemma {:induction false} SliceOfSlice(file: Bytes, from: nat, to: nat, i: nat, n: nat)
    requires from <= to <= |file| && from + i + n <= to
    ensures file[from..to][i..i + n] == file[from + i..from + i + n]
  {
    var x, y := file[from..to][i..i + n], file[from + i..from + i + n];
    assert forall k :: 0 <= k < n ==> x[k] == y[k];
  }

  predicate InBounds(r: Req, size: nat) {
    r.offset + r.len <= size && r.offset + r.len < TWO64
  }

  ghost predicate HoldsAt(file: Bytes, segs: seq<Range>, phys: seq<Bytes>, i: nat)
    requires i < |segs| && |phys| == |segs|
  {
    End(segs[i]) <= |file| && phys[i] == file[segs[i].offset..End(segs[i])]
  }

  /** The buffers are the file's bytes for the physical reads. */
  ghost predicate Holds(file: Bytes, segs: seq<Range>, phys: seq<Bytes>) {
    |phys| == |segs| && forall i: nat {:trigger HoldsAt(file, segs, phys, i)} :: i < |segs| ==> HoldsAt(file, segs, phys, i)
  }

  method ReadRanges(file: Bytes, plan: seq<Range>) returns (r: Result<seq<Bytes>>)
    ensures r.Ok? ==> Holds(file, plan, r.value)
    ensures r.Ok? <==> forall i :: 0 <= i < |plan| ==> End(plan[i]) <= |file|
  {
    var out: seq<Bytes> := [];
    for i := 0 to |plan|
      invariant |out| == i
      invariant forall j :: 0 <= j < i ==> End(plan[j]) <= |file| && out[j] == file[plan[j].offset..End(plan[j])]
    {
      var bytes := ReadAt(file, plan[i]);
      if bytes.Error? {
        return Error(bytes.status);
      }
      out := out + [bytes.value];
    }
    r := Ok(out);
  }

  /** `done` are the first `k` requests in the sweep's order, as assigned. */
  ghost predicate Picked(reqs: seq<Req>, order: seq<nat>, k: nat, done: seq<Req>) {
    && Permutation(order, |reqs|) && |done| == k <= |reqs|
    && forall m {:trigger done[m]} :: 0 <= m < k ==> reqs[order[m]] == done[m]
  }

  lemma {:induction false} PickNext(reqs: seq<Req>, order: seq<nat>, k: nat, done: seq<Req>, x: Req)
    requires Picked(reqs, order, k, done) && k < |order|
    ensures Picked(reqs[order[k] := x], order, k + 1, done + [x])
  {
    var reqs', done' := reqs[order[k] := x], done + [x];
    forall m | 0 <= m < k + 1 ensures reqs'[order[m]] == done'[m] {
      if m < k {
        assert order[m] != order[k] && reqs[order[m]] == done[m];
      }
    }
  }

  /** What holds of the requests in the sweep's order holds of them in their own. */
  lemma {:induction false} SparingAsPicked(reqs: seq<Req>, order: seq<nat>, done: seq<Req>, plan: seq<Range>, gap: nat)
    requires Picked(reqs, order, |reqs|, done) && AllTight(plan, done) && Frugal(plan, done, gap)
    ensures AllTight(plan, reqs) && Frugal(plan, reqs, gap)
  {
    forall i: nat | i < |plan| ensures Tight(plan, i, reqs) {
      assert Tight(plan, i, done);
      var a :| 0 <= a < |done| && done[a].phys == i && done[a].offset == plan[i].offset;
      var b :| 0 <= b < |done| && done[b].phys == i && done[b].offset + done[b].len == End(plan[i]);
      assert reqs[order[a]] == done[a] && reqs[order[b]] == done[b];
    }
    forall i: nat, p: nat | i < |plan| && plan[i].offset <= p < End(plan[i]) ensures Near(reqs, i, p, gap) {
      assert Near(done, i, p, gap);
      var k :| 0 <= k < |done| && done[k].phys == i && done[k].offset <= p < done[k].offset + done[k].len + gap;
      assert reqs[order[k]] == done[k];
    }
  }

  /** Every request is served, and the reads stay in the file exactly when the requests do. */
  lemma {:induction false} EveryRequest(reqs: seq<Req>, order: seq<nat>, done: seq<Req>, plan: seq<Range>, gap: nat, size: nat)
    requires Planned(done, plan, gap) && Picked(reqs, order, |reqs|, done)
    requires forall m {:trigger done[m]} :: 0 <= m < |done| ==> done[m].offset + done[m].len < TWO64
    ensures AllServed(reqs, plan) && AllTight(plan, reqs) && Frugal(plan, reqs, gap)
    ensures (forall i :: 0 <= i < |plan| ==> End(plan[i]) <= size) <==> (forall h :: 0 <= h < |reqs| ==> InBounds(reqs[h], size))
  {
    forall h | 0 <= h < |reqs| ensures Served(reqs[h], plan) && reqs[h].offset + reqs[h].len < TWO64 {
      assert h in order;
      var m :| 0 <= m < |order| && order[m] == h;
      assert done[m] == reqs[h] && Served(done[m], plan);
    }
    SparingAsPicked(reqs, order, done, plan, gap);
    if forall h :: 0 <= h < |reqs| ==> InBounds(reqs[h], size) {
      forall i | 0 <= i < |plan| ensures End(plan[i]) <= size {
        assert Tight(plan, i, done);
        var k :| 0 <= k < |done| && done[k].phys == i && done[k].offset + done[k].len == End(plan[i]);
        assert InBounds(reqs[order[k]], size);
      }
    }
  }
}
