/** The checksum by value: the polynomial's exponents and the standard's check string. The register
    is run on 32-bit vectors, on which the solver computes. */
module Crc32cCheck {
  import opened Common
  import opened BitStrings
  import opened Crc32c

  // ----- the polynomial

  /** The Castagnoli polynomial below x^32 (section 12.1 of RFC 3720). */
  const EXPONENTS: set<nat> := {28, 27, 26, 25, 23, 22, 20, 19, 18, 14, 13, 11, 10, 9, 8, 6, 0}

  function Four(d: nat): (r: seq<bool>)
    ensures |r| == 4
  {
    [d % 2 == 1, d / 2 % 2 == 1, d / 4 % 2 == 1, d / 8 % 2 == 1]
  }

  lemma {:induction false} BitsFour(n: nat, k: nat)
    requires k >= 4
    ensures Bits(n, k) == Four(n) + Bits(n / 16, k - 4)
  {
    assert n / 2 / 2 == n / 4 && n / 4 / 2 == n / 8 && n / 8 / 2 == n / 16;
    assert Bits(n, k) == [n % 2 == 1] + Bits(n / 2, k - 1);
    assert Bits(n / 2, k - 1) == [n / 2 % 2 == 1] + Bits(n / 4, k - 2);
    assert Bits(n / 4, k - 2) == [n / 4 % 2 == 1] + Bits(n / 8, k - 3);
    assert Bits(n / 8, k - 3) == [n / 8 % 2 == 1] + Bits(n / 16, k - 4);
  }

  lemma {:induction false} NumFour(n: nat, k: nat, q: nat, d: nat, rest: seq<bool>)
    requires k >= 4 && n == 16 * q + d && d < 16 && Bits(q, k - 4) == rest
    ensures Bits(n, k) == Four(d) + rest
  {
    BitsFour(n, k);
    Halve(n, 8 * q, d);
    Halve(n / 2, 4 * q, d / 2);
    Halve(n / 2 / 2, 2 * q, d / 2 / 2);
    Halve(n / 2 / 2 / 2, q, d / 2 / 2 / 2);
    Halvings(n);
    Halvings(d);
  }

  lemma {:induction false} Halve(n: nat, m: nat, d: nat)
    requires n == 2 * m + d
    ensures n / 2 == m + d / 2 && n % 2 == d % 2
  {
  }

  lemma {:induction false} Halvings(n: nat)
    ensures n / 2 / 2 == n / 4 && n / 2 / 2 / 2 == n / 8 && n / 2 / 2 / 2 / 2 == n / 16
  {
  }

  lemma {:induction false} BitAt(n: nat, k: nat, i: nat)
    requires i < k
    ensures Bits(n, k)[i] == (n / Pow2(i) % 2 == 1)
  {
    if i > 0 {
      BitAt(n / 2, k - 1, i - 1);
      HalfFirst(n, Pow2(i - 1));
    }
  }

  lemma {:induction false} HalfFirst(n: nat, p: nat)
    requires p > 0
    ensures n / 2 / p == n / (2 * p)
  {
    var m := n / 2;
    assert m == p * Div(m, p) + Mod(m, p);
    Double(p, Div(m, p));
    DivRem(n, Div(m, p), n % 2 + 2 * Mod(m, p), 2 * p);
  }

  /** Bit `i` of the reflected polynomial stands for x^(31 - i). */
  lemma {:induction false} PolyExponents(i: nat)
    requires i < 32
    ensures Poly()[i] <==> 31 - i in EXPONENTS
  {
    PolyIs(0x82F6_3B78);
    PolyNumber(0x82F6_3B78);
    ListedExponents(i);
  }

  lemma {:induction false} ListedExponents(i: nat)
    requires i < 32
    ensures (Four(0x8) + (Four(0x7) + (Four(0xB) + (Four(0x3) + (Four(0x6) + (Four(0xF) + (Four(0x2) + Four(0x8))))))))[i] <==> 31 - i in EXPONENTS
  {
  }

  lemma {:induction false} PolyNumber(n: nat)
    requires n == 0x82F6_3B78
    ensures Bits(n, 32) == Four(0x8) + (Four(0x7) + (Four(0xB) + (Four(0x3) + (Four(0x6) + (Four(0xF) + (Four(0x2) + Four(0x8)))))))
  {
    var s7 := Four(0x8);
    NumFour(0x8, 4, 0x0, 0x8, []);
    var s6 := Four(0x2) + s7;
    NumFour(0x82, 8, 0x8, 0x2, s7);
    var s5 := Four(0xF) + s6;
    NumFour(0x82F, 12, 0x82, 0xF, s6);
    var s4 := Four(0x6) + s5;
    NumFour(0x82F6, 16, 0x82F, 0x6, s5);
    var s3 := Four(0x3) + s4;
    NumFour(0x82F63, 20, 0x82F6, 0x3, s4);
    var s2 := Four(0xB) + s3;
    NumFour(0x82F63B, 24, 0x82F63, 0xB, s3);
    var s1 := Four(0x7) + s2;
    NumFour(0x82F63B7, 28, 0x82F63B, 0x7, s2);
    var s0 := Four(0x8) + s1;
    NumFour(0x82F63B78, 32, 0x82F63B7, 0x8, s1);
  }

  lemma {:induction false} PolyIs(n: nat)
    requires n == 0x82F6_3B78
    ensures Poly() == Bits(n, 32)
  {
    var p := Poly();
    forall i: nat | i < 32 ensures p[i] == Bits(n, 32)[i] {
      BitAt(n, 32, i);
    }
  }

  // ----- reading bits off a value

  /** The low `k` bits of `x`, least significant first. */
  function LowBits<T>(low: T -> bool, half: T -> T, x: T, k: nat): (r: seq<bool>)
    ensures |r| == k
    decreases k, [x]
  {
    if k == 0 then [] else [low(x)] + LowBits(low, half, half(x), k - 1)
  }

  lemma {:induction false} LowFour<T>(low: T -> bool, half: T -> T, x: T, k: nat, n: nat)
    requires k >= 4 && low(x) == (n % 2 == 1) && low(half(x)) == (n / 2 % 2 == 1)
    requires low(half(half(x))) == (n / 4 % 2 == 1) && low(half(half(half(x)))) == (n / 8 % 2 == 1)
    ensures LowBits(low, half, x, k) == Four(n) + LowBits(low, half, half(half(half(half(x)))), k - 4)
  {
    var a, b, c := half(x), half(half(x)), half(half(half(x)));
    assert LowBits(low, half, x, k) == [low(x)] + LowBits(low, half, a, k - 1);
    assert LowBits(low, half, a, k - 1) == [low(a)] + LowBits(low, half, b, k - 2);
    assert LowBits(low, half, b, k - 2) == [low(b)] + LowBits(low, half, c, k - 3);
    assert LowBits(low, half, c, k - 3) == [low(c)] + LowBits(low, half, half(c), k - 4);
  }

  ghost predicate Linear<T(!new)>(low: T -> bool, half: T -> T, xor: (T, T) -> T) {
    forall x: T, y: T {:trigger xor(x, y)} ::
      low(xor(x, y)) == (low(x) != low(y)) && half(xor(x, y)) == xor(half(x), half(y))
  }

  lemma {:induction false} LowXorWord<T(!new)>(low: T -> bool, half: T -> T, xor: (T, T) -> T, x: T, y: T)
    requires Linear(low, half, xor)
    ensures LowBits(low, half, xor(x, y), 32) == Xor(LowBits(low, half, x, 32), LowBits(low, half, y, 32))
  {
    LowXor(low, half, xor, x, y, 32);
  }

  predicate XorOf(a: seq<bool>, b: seq<bool>, c: seq<bool>) {
    |a| == |b| == |c| && forall i :: 0 <= i < |a| ==> c[i] == (a[i] != b[i])
  }

  lemma {:induction false} LowXor<T(!new)>(low: T -> bool, half: T -> T, xor: (T, T) -> T, x: T, y: T, k: nat)
    requires Linear(low, half, xor)
    ensures XorOf(LowBits(low, half, x, k), LowBits(low, half, y, k), LowBits(low, half, xor(x, y), k))
    decreases k
  {
    if k > 0 {
      LowXor(low, half, xor, half(x), half(y), k - 1);
    }
  }

  function Halved<T>(half: T -> T, x: T, k: nat): T
    decreases k
  {
    if k == 0 then x else Halved(half, half(x), k - 1)
  }

  ghost predicate FourTimes<T(!new)>(half: T -> T, four: T -> T) {
    forall x: T {:trigger four(x)} :: four(x) == half(half(half(half(x))))
  }

  lemma {:induction false} HalvedFours<T(!new)>(half: T -> T, four: T -> T, x: T, k: nat)
    requires FourTimes(half, four)
    ensures Halved(half, x, 4 * k) == Halved(four, x, k)
    decreases k
  {
    if k > 0 {
      var a, b, c := half(x), half(half(x)), half(half(half(x)));
      assert Halved(half, x, 4 * k) == Halved(half, a, 4 * k - 1);
      assert Halved(half, a, 4 * k - 1) == Halved(half, b, 4 * k - 2);
      assert Halved(half, b, 4 * k - 2) == Halved(half, c, 4 * k - 3);
      assert Halved(half, c, 4 * k - 3) == Halved(half, four(x), 4 * k - 4);
      HalvedFours(half, four, four(x), k - 1);
    }
  }

  /** Nothing is left after `k` halvings: the next bit is not set. */
  lemma {:induction false} Beyond<T>(low: T -> bool, half: T -> T, x: T, k: nat)
    requires !low(Halved(half, x, k))
    ensures LowBits(low, half, x, k + 1) == LowBits(low, half, x, k) + [false]
    decreases k
  {
    if k == 0 {
      assert LowBits(low, half, x, 1) == [low(x)] + LowBits(low, half, half(x), 0);
    } else {
      Beyond(low, half, half(x), k - 1);
    }
  }

  // ----- words as bit vectors

  function Low(x: bv32): bool {
    x & 1 == 1
  }

  function Half(x: bv32): bv32 {
    x >> 1
  }

  function XorBv(x: bv32, y: bv32): bv32 {
    x ^ y
  }

  function ToWord(x: bv32): Word {
    LowBits(Low, Half, x, 32)
  }

  lemma {:induction false} BvLinear()
    ensures Linear(Low, Half, XorBv)
  {
    forall x: bv32, y: bv32 ensures Low(XorBv(x, y)) == (Low(x) != Low(y)) && Half(XorBv(x, y)) == XorBv(Half(x), Half(y)) {
    }
  }

  lemma {:induction false} WordXor(x: bv32, y: bv32, z: bv32)
    requires z == XorBv(x, y)
    ensures ToWord(z) == Xor(ToWord(x), ToWord(y))
  {
    BvLinear();
    LowXorWord(Low, Half, XorBv, x, y);
  }

  lemma {:induction false} FourShifts(x: bv32)
    ensures Half(Half(Half(Half(x)))) == x >> 4
    ensures Low(Half(x)) == (x & 2 == 2) && Low(Half(Half(x))) == (x & 4 == 4) && Low(Half(Half(Half(x)))) == (x & 8 == 8)
  {
  }

  function Nibble(x: bv32): bv32 {
    x >> 4
  }

  function Sixteen(x: bv32): bv32 {
    x >> 16
  }

  lemma {:induction false} BvFours()
    ensures FourTimes(Half, Nibble) && FourTimes(Nibble, Sixteen)
  {
    forall x: bv32 ensures Nibble(x) == Half(Half(Half(Half(x)))) {
      FourShifts(x);
    }
    forall x: bv32 ensures Sixteen(x) == Nibble(Nibble(Nibble(Nibble(x)))) {
    }
  }

  lemma {:induction false} HalvedAll(x: bv32)
    ensures Halved(Half, x, 32) == Sixteen(Sixteen(x))
  {
    BvFours();
    HalvedFours(Half, Nibble, x, 8);
    HalvedFours(Nibble, Sixteen, x, 2);
  }

  lemma {:induction false} NothingLeft(x: bv32)
    ensures !Low(Sixteen(Sixteen(x)))
  {
  }

  lemma {:induction false} WordShift(x: bv32, y: bv32)
    requires y == Half(x)
    ensures ToWord(y) == Shr(ToWord(x), 1)
  {
    HalvedAll(x);
    NothingLeft(x);
    assert Halved(Half, x, 32) == Halved(Half, y, 31);
    Beyond(Low, Half, y, 31);
    assert ToWord(x) == [Low(x)] + LowBits(Low, Half, y, 31);
    assert Zeros(1) == [false];
  }

  // ----- literals

  /** The number and the vector have the same low `k` bits. */
  predicate Agree(n: nat, x: bv32, k: nat) {
    Bits(n, k) == LowBits(Low, Half, x, k)
  }

  predicate SameFour(n: nat, x: bv32) {
    && (n % 2 == 1 <==> x & 1 == 1) && (n / 2 % 2 == 1 <==> x & 2 == 2)
    && (n / 4 % 2 == 1 <==> x & 4 == 4) && (n / 8 % 2 == 1 <==> x & 8 == 8)
  }

  lemma {:induction false} AgreeFour(n: nat, x: bv32, k: nat)
    requires k >= 4 && SameFour(n, x) && Agree(n / 16, x >> 4, k - 4)
    ensures Agree(n, x, k)
  {
    FourShifts(x);
    BitsFour(n, k);
    LowFour(Low, Half, x, k, n);
  }

  predicate Nibbles(n: nat, x: bv32, j: nat)
    decreases j
  {
    j == 0 || (SameFour(n, x) && Nibbles(n / 16, x >> 4, j - 1))
  }

  lemma {:induction false} AgreeNibbles(n: nat, x: bv32, j: nat)
    requires Nibbles(n, x, j)
    ensures Agree(n, x, 4 * j)
    decreases j
  {
    if j > 0 {
      AgreeNibbles(n / 16, x >> 4, j - 1);
      AgreeFour(n, x, 4 * j);
    }
  }

  lemma {:induction false} PolyWord()
    ensures Poly() == ToWord(0x82F6_3B78)
  {
    PolyIs(0x82F6_3B78);
    AgreeNibbles(0x82F6_3B78, 0x82F6_3B78, 8);
  }

  lemma {:induction false} OnesFour(x: bv32, k: nat)
    requires k >= 4 && x & 15 == 15 && AllSet(LowBits(Low, Half, x >> 4, k - 4))
    ensures AllSet(LowBits(Low, Half, x, k))
  {
    FourShifts(x);
    FifteenSet(x);
    LowFour(Low, Half, x, k, 15);
  }

  predicate AllSet(s: seq<bool>) {
    forall i :: 0 <= i < |s| ==> s[i]
  }

  lemma {:induction false} FifteenSet(x: bv32)
    requires x & 15 == 15
    ensures x & 1 == 1 && x & 2 == 2 && x & 4 == 4 && x & 8 == 8
  {
  }

  lemma {:induction false} Ones()
    ensures Not(Zeros(32)) == ToWord(0xFFFF_FFFF)
  {
    OnesFour(0xF, 4);
    OnesFour(0xFF, 8);
    OnesFour(0xFFF, 12);
    OnesFour(0xFFFF, 16);
    OnesFour(0xFFFFF, 20);
    OnesFour(0xFFFFFF, 24);
    OnesFour(0xFFFFFFF, 28);
    OnesFour(0xFFFFFFFF, 32);
  }

  lemma {:induction false} NotWord(x: bv32, y: bv32)
    requires y == XorBv(x, 0xFFFF_FFFF)
    ensures Not(ToWord(x)) == ToWord(y)
  {
    Ones();
    WordXor(x, 0xFFFF_FFFF, y);
  }

  // ----- the register on bit vectors

  function NextBv(x: bv32): bv32 {
    if Low(x) then XorBv(0x82F6_3B78, Half(x)) else Half(x)
  }

  lemma {:induction false} StepBv(x: bv32, y: bv32)
    requires y == NextBv(x)
    ensures Step(ToWord(x)) == ToWord(y)
  {
    PolyWord();
    WordShift(x, Half(x));
    WordXor(0x82F6_3B78, Half(x), XorBv(0x82F6_3B78, Half(x)));
    assert ToWord(x)[0] == Low(x);
  }

  function Eight(x: bv32): bv32 {
    NextBv(NextBv(NextBv(NextBv(NextBv(NextBv(NextBv(NextBv(x))))))))
  }

  lemma {:induction false} StepsBv(x: bv32, y: bv32, k: nat, z: bv32)
    requires y == NextBv(x) && Steps(Step, ToWord(y), k) == ToWord(z)
    ensures Steps(Step, ToWord(x), k + 1) == ToWord(z)
  {
    StepBv(x, y);
  }

  lemma {:induction false} EightBv(x: bv32, z: bv32)
    requires z == Eight(x)
    ensures Steps(Step, ToWord(x), 8) == ToWord(z)
  {
    var a := NextBv(x);
    var b := NextBv(a);
    var c := NextBv(b);
    var d := NextBv(c);
    var e := NextBv(d);
    var f := NextBv(e);
    var g := NextBv(f);
    StepsBv(g, z, 0, z);
    StepsBv(f, g, 1, z);
    StepsBv(e, f, 2, z);
    StepsBv(d, e, 3, z);
    StepsBv(c, d, 4, z);
    StepsBv(b, c, 5, z);
    StepsBv(a, b, 6, z);
    StepsBv(x, a, 7, z);
  }

  // ----- the check string

  lemma {:induction false} ByteWord(n: nat, x: bv32)
    requires Agree(n, x, 32) && n / 16 / 16 == 0
    ensures LowByte(Bits(n, 8)) == ToWord(x)
  {
    BitsFour(n, 8);
    BitsFour(n / 16, 4);
    BitsFour(n, 32);
    BitsFour(n / 16, 28);
    BitsZero(24);
  }

  lemma {:induction false} BitsZero(k: nat)
    ensures Bits(0, k) == Zeros(k)
  {
    if k > 0 {
      BitsZero(k - 1);
    }
  }

  /** The register after `done`, started from all ones, is `x`. */
  predicate Fed(done: Bytes, x: bv32) {
    Feed(Step, ToWord(0xFFFF_FFFF), done) == ToWord(x)
  }

  lemma {:induction false} FeedNext(d: Bytes, i: nat, x: bv32, v: bv32, w: bv32, y: bv32)
    requires i < |d| && Fed(d[..i], x) && Nibbles(d[i] as nat, v, 8)
    requires w == XorBv(x, v) && y == Eight(w)
    ensures Fed(d[..i + 1], y)
  {
    assert d[..i + 1][..i] == d[..i];
    AgreeNibbles(d[i] as nat, v, 8);
    ByteWord(d[i] as nat, v);
    WordXor(x, v, w);
    EightBv(w, y);
  }

  lemma {:induction false} Digits1(d: Bytes)
    requires |d| == 9 && forall i :: 0 <= i < 9 ==> d[i] as nat == 0x31 + i
    ensures Fed(d[..1], 0x6F0A_661C)
  {
    assert d[..0] == [];
    FeedNext(d, 0, 0xFFFF_FFFF, 0x31, 0xFFFF_FFCE, 0x6F0A_661C);
  }

  lemma {:induction false} Digits2(d: Bytes)
    requires |d| == 9 && forall i :: 0 <= i < 9 ==> d[i] as nat == 0x31 + i
    ensures Fed(d[..2], 0x8CAA_3B9F)
  {
    Digits1(d);
    FeedNext(d, 1, 0x6F0A_661C, 0x32, 0x6F0A_662E, 0x8CAA_3B9F);
  }

  lemma {:induction false} Digits3(d: Bytes)
    requires |d| == 9 && forall i :: 0 <= i < 9 ==> d[i] as nat == 0x31 + i
    ensures Fed(d[..3], 0xEF84_D04D)
  {
    Digits2(d);
    FeedNext(d, 2, 0x8CAA_3B9F, 0x33, 0x8CAA_3BAC, 0xEF84_D04D);
  }

  lemma {:induction false} Digits4(d: Bytes)
    requires |d| == 9 && forall i :: 0 <= i < 9 ==> d[i] as nat == 0x31 + i
    ensures Fed(d[..4], 0x09C5_0B11)
  {
    Digits3(d);
    FeedNext(d, 3, 0xEF84_D04D, 0x34, 0xEF84_D079, 0x09C5_0B11);
  }

  lemma {:induction false} Digits5(d: Bytes)
    requires |d| == 9 && forall i :: 0 <= i < 9 ==> d[i] as nat == 0x31 + i
    ensures Fed(d[..5], 0xE72E_DCCA)
  {
    Digits4(d);
    FeedNext(d, 4, 0x09C5_0B11, 0x35, 0x09C5_0B24, 0xE72E_DCCA);
  }

  lemma {:induction false} Digits6(d: Bytes)
    requires |d| == 9 && forall i :: 0 <= i < 9 ==> d[i] as nat == 0x31 + i
    ensures Fed(d[..6], 0xBECA_8E79)
  {
    Digits5(d);
    FeedNext(d, 5, 0xE72E_DCCA, 0x36, 0xE72E_DCFC, 0xBECA_8E79);
  }

  lemma {:induction false} Digits7(d: Bytes)
    requires |d| == 9 && forall i :: 0 <= i < 9 ==> d[i] as nat == 0x31 + i
    ensures Fed(d[..7], 0xEDBD_6815)
  {
    Digits6(d);
    FeedNext(d, 6, 0xBECA_8E79, 0x37, 0xBECA_8E4E, 0xEDBD_6815);
  }

  lemma {:induction false} Digits8(d: Bytes)
    requires |d| == 9 && forall i :: 0 <= i < 9 ==> d[i] as nat == 0x31 + i
    ensures Fed(d[..8], 0x9F78_7F65)
  {
    Digits7(d);
    FeedNext(d, 7, 0xEDBD_6815, 0x38, 0xEDBD_682D, 0x9F78_7F65);
  }

  lemma {:induction false} Digits9(d: Bytes)
    requires |d| == 9 && forall i :: 0 <= i < 9 ==> d[i] as nat == 0x31 + i
    ensures Fed(d[..9], 0x1CF9_6D7C)
  {
    Digits8(d);
    FeedNext(d, 8, 0x9F78_7F65, 0x39, 0x9F78_7F5C, 0x1CF9_6D7C);
  }

  lemma {:induction false} CheckAgrees(n: nat)
    requires n == 0xE306_9283
    ensures Bits(n, 32) == ToWord(0xE306_9283)
  {
    CheckNibbles();
    AgreeNibbles(n, 0xE306_9283, 8);
  }

  lemma {:induction false} CheckNibbles()
    ensures Nibbles(0xE306_9283, 0xE306_9283, 8)
  {
  }

  lemma {:induction false} CheckVal(n: nat)
    requires n == 0xE306_9283
    ensures Val(Bits(n, 32)) == n
  {
    PowSplit(16, 16);
    PowSplit(8, 8);
    Pow8();
    ValOfBits(n, 32);
  }

  lemma {:induction false} DigestOf(d: Bytes)
    requires Fed(d, 0x1CF9_6D7C)
    ensures Digest(d) == 0xE306_9283
  {
    Ones();
    NotWord(0x1CF9_6D7C, 0xE306_9283);
    CheckAgrees(0xE306_9283);
    CheckVal(0xE306_9283);
  }

  lemma {:induction false} CheckString(d: Bytes)
    requires |d| == 9 && forall i :: 0 <= i < 9 ==> d[i] as nat == 0x31 + i
    ensures Digest(d) == 0xE306_9283
  {
    Digits9(d);
    assert d[..9] == d;
    DigestOf(d);
  }

  /** The checksum of the nine digits, in ASCII, is the standard's. */
  lemma {:induction false} CheckValue()
    ensures Digest([0x31, 0x32, 0x33, 0x34, 0x35, 0x36, 0x37, 0x38, 0x39]) == 0xE306_9283
  {
    CheckString([0x31, 0x32, 0x33, 0x34, 0x35, 0x36, 0x37, 0x38, 0x39]);
  }
}
