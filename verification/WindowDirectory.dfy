/** The two-level directory of a windowed posting: super-blocks of `group` windows, each
    level recording absolute last docids, and the search for the window covering a docid. */
module WindowDirectory {
  import opened Common

  datatype Directory = Directory(lasts: seq<nat>, group: nat, superLasts: seq<nat>)

  ghost predicate NonDecreasing(s: seq<nat>) {
    forall i, j :: 0 <= i < j < |s| ==> s[i] <= s[j]
  }

  /** The first window of super-block `s`. */
  function FirstWindow(s: nat, group: nat): nat {
    s * group
  }

  /** Super-block `s` starts inside the windows and records its last window's last docid. */
  ghost predicate SuperRow(d: Directory, s: nat)
    requires d.group >= 1 && s < |d.superLasts|
  {
    var lo := FirstWindow(s, d.group);
    lo < |d.lasts| && d.superLasts[s] == d.lasts[Min(lo + d.group, |d.lasts|) - 1]
  }

  ghost predicate Valid(d: Directory) {
    && d.group >= 1
    && NonDecreasing(d.lasts) && NonDecreasing(d.superLasts)
    && (forall s: nat :: s < |d.superLasts| ==> SuperRow(d, s))
    && FirstWindow(|d.superLasts|, d.group) >= |d.lasts|
  }

  lemma {:induction false} NextSuper(s: nat, group: nat)
    ensures FirstWindow(s + 1, group) == FirstWindow(s, group) + group
  {
  }

  /** One super-block per `group` windows, the last one possibly short. */
  method BuildDirectory(lasts: seq<nat>, group: nat) returns (d: Directory)
    requires group >= 1 && NonDecreasing(lasts)
    ensures Valid(d) && d.lasts == lasts && d.group == group
  {
    var supers: seq<nat> := [];
    var start: nat := 0;
    ghost var g := Directory(lasts, group, supers);
    while start < |lasts|
      invariant g == Directory(lasts, group, supers)
      invariant start == FirstWindow(|supers|, group)
      invariant forall s: nat :: s < |supers| ==> SuperRow(g, s)
      invariant NonDecreasing(supers)
      invariant supers != [] ==> 0 < Min(start, |lasts|) && supers[|supers| - 1] == lasts[Min(start, |lasts|) - 1]
    {
      var end := Min(start + group, |lasts|);
      ghost var was := supers;
      NextSuper(|supers|, group);
      supers := supers + [lasts[end - 1]];
      g := Directory(lasts, group, supers);
      forall s: nat | s < |supers| ensures SuperRow(g, s) {
        if s < |was| {
          assert SuperRow(Directory(lasts, group, was), s);
        }
      }
      start := start + group;
    }
    d := Directory(lasts, group, supers);
  }

  /** Plain meaning of a lookup: the first window whose last docid reaches `docid`. */
  ghost predicate Covers(lasts: seq<nat>, docid: nat, w: nat) {
    w < |lasts| && docid <= lasts[w] && forall i :: 0 <= i < w ==> lasts[i] < docid
  }

  method LowerBound(s: seq<nat>, v: nat) returns (k: nat)
    requires NonDecreasing(s)
    ensures k <= |s| && (k > 0 ==> s[k - 1] < v) && (k < |s| ==> v <= s[k])
  {
    var lo: nat, hi: nat := 0, |s|;
    while lo < hi
      invariant lo <= hi <= |s|
      invariant (lo > 0 ==> s[lo - 1] < v) && (hi < |s| ==> v <= s[hi])
    {
      var mid := lo + (hi - lo) / 2;
      if s[mid] < v {
        lo := mid + 1;
      } else {
        hi := mid;
      }
    }
    k := lo;
  }

  /** A docid within the last window lies in the super-block the top level points at, and
      everything before that super-block ends too early. */
  lemma {:induction false} SuperBlockHolds(d: Directory, docid: nat, sb: nat)
    requires Valid(d) && d.lasts != [] && docid <= d.lasts[|d.lasts| - 1]
    requires sb <= |d.superLasts| && (sb > 0 ==> d.superLasts[sb - 1] < docid)
    requires sb < |d.superLasts| ==> docid <= d.superLasts[sb]
    ensures sb < |d.superLasts|
    ensures
      var lo := FirstWindow(sb, d.group);
      lo < |d.lasts| && (lo > 0 ==> d.lasts[lo - 1] < docid) && docid <= d.lasts[Min(lo + d.group, |d.lasts|) - 1]
  {
    if sb > 0 {
      assert SuperRow(d, sb - 1);
      NextSuper(sb - 1, d.group);
    }
    if sb < |d.superLasts| {
      assert SuperRow(d, sb);
    }
  }

  method LocateWindow(d: Directory, docid: nat) returns (w: Option<nat>)
    requires Valid(d)
    ensures w.Some? ==> Covers(d.lasts, docid, w.value)
    ensures w.None? ==> forall i :: 0 <= i < |d.lasts| ==> d.lasts[i] < docid
  {
    if d.lasts == [] || docid > d.lasts[|d.lasts| - 1] {
      return None;
    }
    var sb := LowerBound(d.superLasts, docid);
    SuperBlockHolds(d, docid, sb);
    var lo := FirstWindow(sb, d.group);
    var hi := Min(lo + d.group, |d.lasts|);
    var i := lo;
    while i < hi
      invariant lo <= i <= hi && (i > 0 ==> d.lasts[i - 1] < docid)
    {
      if docid <= d.lasts[i] {
        return Some(i);
      }
      i := i + 1;
    }
    assert false;
  }
}
