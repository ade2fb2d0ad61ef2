/** Strings of bits, least significant first, and the numbers they stand for. */
module BitStrings {
  import opened Common

  function Zeros(k: nat): (r: seq<bool>)
    ensures |r| == k && forall i :: 0 <= i < k ==> !r[i]
  {
    seq(k, _ => false)
  }

  function Bits(n: nat, k: nat): (r: seq<bool>)
    ensures |r| == k
  {
    if k == 0 then [] else [n % 2 == 1] + Bits(n / 2, k - 1)
  }

  function Pow2(k: nat): (r: nat)
    ensures r > 0
  {
    if k == 0 then 1 else 2 * Pow2(k - 1)
  }

  function Val(s: seq<bool>): (n: nat)
    ensures n < Pow2(|s|)
  {
    if s == [] then 0 else (if s[0] then 1 else 0) + 2 * Val(s[1..])
  }

  lemma {:induction false} BitsOfVal(s: seq<bool>)
    ensures Bits(Val(s), |s|) == s
  {
    if s != [] {
      var v := Val(s[1..]);
      assert Val(s) / 2 == v && (Val(s) % 2 == 1 <==> s[0]);
      BitsOfVal(s[1..]);
      assert s == [s[0]] + s[1..];
    }
  }

  lemma {:induction false} ValOfBits(n: nat, k: nat)
    requires n < Pow2(k)
    ensures Val(Bits(n, k)) == n
  {
    if k > 0 {
      ValOfBits(n / 2, k - 1);
      assert Bits(n, k)[1..] == Bits(n / 2, k - 1);
    }
  }

  lemma {:induction false} Pow8()
    ensures Pow2(8) == 256
  {
    assert Pow2(4) == 16;
    assert Pow2(5) == 32;
    assert Pow2(6) == 64;
    assert Pow2(7) == 128;
  }

  lemma {:induction false} PowSplit(j: nat, k: nat)
    ensures Pow2(j + k) == Pow2(j) * Pow2(k)
    decreases j
  {
    if j > 0 {
      PowSplit(j - 1, k);
      assert Pow2(j + k) == 2 * Pow2(j - 1 + k);
    }
  }

  lemma {:induction false} ValConcat(a: seq<bool>, b: seq<bool>)
    ensures Val(a + b) == Val(a) + Pow2(|a|) * Val(b)
    decreases |a|
  {
    if a == [] {
      assert a + b == b;
    } else {
      ValConcat(a[1..], b);
      assert (a + b)[1..] == a[1..] + b;
      Double(Pow2(|a| - 1), Val(b));
    }
  }

  lemma {:induction false} Double(p: nat, x: nat)
    ensures 2 * (p * x) == 2 * p * x
  {
  }

  function Div(x: nat, d: nat): nat
    requires d > 0
  {
    x / d
  }

  function Mod(x: nat, d: nat): nat
    requires d > 0
  {
    x % d
  }

  /** Dividing by a power of two drops low bits; the remainder keeps them. */
  lemma {:induction false} ValSplit(s: seq<bool>, k: nat)
    requires k <= |s|
    ensures Mod(Val(s), Pow2(k)) == Val(s[..k]) && Div(Val(s), Pow2(k)) == Val(s[k..])
  {
    assert s == s[..k] + s[k..];
    ValConcat(s[..k], s[k..]);
    DivRem(Val(s), Val(s[k..]), Val(s[..k]), Pow2(k));
  }

  lemma {:induction false} DivRem(x: nat, q: nat, r: nat, d: nat)
    requires d > 0 && r < d && x == r + d * q
    ensures Mod(x, d) == r && Div(x, d) == q
  {
    var q', r' := Div(x, d), Mod(x, d);
    assert x == d * q' + r';
    Distribute(d, q, q');
    if q > q' {
      AtLeast(d, q - q');
    } else if q < q' {
      AtLeast(d, q' - q);
      Distribute(d, q', q);
    }
  }

  lemma {:induction false} Distribute(d: int, a: int, b: int)
    ensures d * (a - b) == d * a - d * b
  {
  }

  lemma {:induction false} AtLeast(d: nat, k: int)
    requires k >= 1
    ensures d * k >= d
  {
    Distribute(d, k, 1);
    NonNegative(d, k - 1);
  }

  lemma {:induction false} NonNegative(d: nat, k: nat)
    ensures d * k >= 0
  {
  }

  lemma {:induction false} BitsUnique(a: seq<bool>, n: nat)
    requires Val(a) == n
    ensures Bits(n, |a|) == a
  {
    BitsOfVal(a);
  }

  /** Placing one number's bits above another's. */
  lemma {:induction false} BitsJoin(x: nat, j: nat, y: nat, k: nat)
    requires x < Pow2(j) && y < Pow2(k)
    ensures Bits(x + Pow2(j) * y, j + k) == Bits(x, j) + Bits(y, k) && x + Pow2(j) * y < Pow2(j + k)
  {
    var a, b := Bits(x, j), Bits(y, k);
    ValOfBits(x, j);
    ValOfBits(y, k);
    ValConcat(a, b);
    BitsUnique(a + b, x + Pow2(j) * y);
  }

  /** Cutting a number's bits. */
  lemma {:induction false} BitsCut(x: nat, j: nat, k: nat)
    requires x < Pow2(j + k)
    ensures Bits(x, j + k) == Bits(Mod(x, Pow2(j)), j) + Bits(Div(x, Pow2(j)), k) && Div(x, Pow2(j)) < Pow2(k)
  {
    var s := Bits(x, j + k);
    ValOfBits(x, j + k);
    ValSplit(s, j);
    BitsUnique(s[..j], Mod(x, Pow2(j)));
    BitsUnique(s[j..], Div(x, Pow2(j)));
    assert s == s[..j] + s[j..];
  }

  /** A few low bits of a number are the front of more of them. */
  lemma {:induction false} BitsFront(x: nat, j: nat, k: nat)
    requires j <= k && x < Pow2(j)
    ensures Bits(x, k)[..j] == Bits(x, j) && x < Pow2(k)
    decreases j
  {
    if j > 0 {
      BitsFront(x / 2, j - 1, k - 1);
      assert Bits(x, k)[..j] == [x % 2 == 1] + Bits(x / 2, k - 1)[..j - 1];
    } else {
      PowPositive(k);
    }
  }

  lemma {:induction false} PowPositive(k: nat)
    ensures 0 < Pow2(k)
  {
  }

  // ----- bytes

  function ByteBits(bs: Bytes): (r: seq<bool>)
    ensures |r| == 8 * |bs|
  {
    if bs == [] then [] else ByteBits(bs[..|bs| - 1]) + Bits(bs[|bs| - 1] as nat, 8)
  }

  lemma {:induction false} ByteBitsConcat(a: Bytes, b: Bytes)
    ensures ByteBits(a + b) == ByteBits(a) + ByteBits(b)
  {
    if b == [] {
      assert a + b == a;
    } else {
      assert (a + b)[..|a + b| - 1] == a + b[..|b| - 1];
      ByteBitsConcat(a, b[..|b| - 1]);
    }
  }

  lemma {:induction false} ByteBitsSlice(bs: Bytes, i: nat, j: nat)
    requires i <= j <= |bs|
    ensures ByteBits(bs[i..j]) == ByteBits(bs)[8 * i..8 * j]
  {
    assert bs == bs[..i] + bs[i..j] + bs[j..];
    ByteBitsConcat(bs[..i] + bs[i..j], bs[j..]);
    ByteBitsConcat(bs[..i], bs[i..j]);
    Middle(ByteBits(bs[..i]), ByteBits(bs[i..j]), ByteBits(bs[j..]));
  }

  lemma {:induction false} Middle(a: seq<bool>, b: seq<bool>, c: seq<bool>)
    ensures (a + b + c)[|a|..|a| + |b|] == b
  {
  }

  /** A little-endian load of all the bytes. */
  function LoadLe(bs: Bytes): nat {
    if bs == [] then 0 else bs[0] as nat + 256 * LoadLe(bs[1..])
  }

  lemma {:induction false} LoadIsVal(bs: Bytes)
    ensures LoadLe(bs) == Val(ByteBits(bs))
  {
    if bs != [] {
      LoadIsVal(bs[1..]);
      assert bs == bs[..1] + bs[1..];
      ByteBitsConcat(bs[..1], bs[1..]);
      assert bs[..1][..0] == [];
      assert ByteBits(bs[..1]) == [] + Bits(bs[0] as nat, 8);
      assert [] + Bits(bs[0] as nat, 8) == Bits(bs[0] as nat, 8);
      Pow8();
      ValOfBits(bs[0] as nat, 8);
      ValConcat(Bits(bs[0] as nat, 8), ByteBits(bs[1..]));
    }
  }
}
