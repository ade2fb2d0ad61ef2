/** LEB128 varints and zigzag, the base of every byte stream. */
module Varint {
  import opened Common

  datatype Decoded = Decoded(value: nat, next: nat)

  /** Seven bits a byte, least significant first; the high bit says more follow. */
  function Encode(v: nat): (r: seq<byte>)
    ensures |r| >= 1
    decreases v
  {
    if v >= 128 then [(v % 128 + 128) as byte] + Encode(v / 128) else [v as byte]
  }

  method EncodeVarint64(v: nat) returns (out: seq<byte>)
    ensures out == Encode(v)
  {
    out := [];
    var rest := v;
    while rest >= 128
      invariant out + Encode(rest) == Encode(v)
      decreases rest
    {
      out := out + [(rest % 128 + 128) as byte];
      rest := rest / 128;
    }
    out := out + [rest as byte];
  }

  /** 2^shift for the shifts the decoder can reach: 0, 7, ..., 63. */
  function Scale(i: nat): (s: nat)
    ensures s > 0
  {
    if i == 0 then 1 else 128 * Scale(i - 1)
  }

  /** The decoder from byte `p`, having read `i` bytes worth `acc`. A ninth continuation
      byte is the last one allowed; the tenth byte's surplus bits are shifted out. */
  function DecodeFrom(s: seq<byte>, p: nat, i: nat, acc: nat): (r: Result<Decoded>)
    ensures r.Ok? ==> p < r.value.next <= |s|
    decreases |s| - p
  {
    if p >= |s| then Error(Corruption("varint truncated"))
    else
      var b := s[p] as nat;
      var acc' := (acc + b % 128 * Scale(i)) % TWO64;
      if b < 128 then Ok(Decoded(acc', p + 1))
      else if 7 * (i + 1) >= 64 then Error(Corruption("varint64 overflow"))
      else DecodeFrom(s, p + 1, i + 1, acc')
  }

  method DecodeVarint64(s: seq<byte>, start: nat) returns (r: Result<Decoded>)
    ensures r == DecodeFrom(s, start, 0, 0)
  {
    var p: nat, i: nat, result: nat, scale: nat := start, 0, 0, 1;
    while p < |s|
      invariant scale == Scale(i)
      invariant DecodeFrom(s, start, 0, 0) == DecodeFrom(s, p, i, result)
      decreases |s| - p
    {
      var b := s[p] as nat;
      p := p + 1;
      result := (result + b % 128 * scale) % TWO64;
      if b < 128 {
        return Ok(Decoded(result, p));
      }
      i, scale := i + 1, scale * 128;
      if 7 * i >= 64 {
        return Error(Corruption("varint64 overflow"));
      }
    }
    r := Error(Corruption("varint truncated"));
  }

  /** What has been decoded so far plus what `v` still holds. */
  function Pending(acc: nat, v: nat, i: nat): nat {
    acc + v * Scale(i)
  }

  /** Moving one digit from `v` into `acc`. */
  lemma {:induction false} MoveDigit(acc: nat, v: nat, i: nat)
    requires v >= 128 && i <= 9 && acc < Scale(i) && Pending(acc, v, i) < TWO64
    ensures var acc' := acc + v % 128 * Scale(i);
            i < 9 && acc' < Scale(i + 1) && acc' < TWO64 && Pending(acc', v / 128, i + 1) == Pending(acc, v, i)
  {
    SplitDigit(v, Scale(i));
    assert Scale(i + 1) == 128 * Scale(i);
    DigitBelow(acc, v % 128, Scale(i));
    MulAtLeast(v / 128, 0, Scale(i + 1));
    MulAtLeast(v, 128, Scale(i));
    NineDigits();
  }

  lemma {:induction false} TailOfSlice(s: seq<byte>, p: nat, n: nat)
    requires 0 < n && p + n <= |s|
    ensures s[p..p + n][1..] == s[p + 1..p + n]
  {
  }

  /** What has been read once the low digit of `v` is taken. */
  function Taken(acc: nat, v: nat, i: nat): nat {
    acc + v % 128 * Scale(i)
  }

  lemma {:induction false} DecodeStep(s: seq<byte>, p: nat, i: nat, acc: nat, v: nat)
    requires p < |s| && v >= 128 && s[p] == (v % 128 + 128) as byte
    requires i <= 9 && acc < Scale(i) && Pending(acc, v, i) < TWO64
    ensures i < 9 && Taken(acc, v, i) < Scale(i + 1) && Pending(Taken(acc, v, i), v / 128, i + 1) == Pending(acc, v, i)
    ensures DecodeFrom(s, p, i, acc) == DecodeFrom(s, p + 1, i + 1, Taken(acc, v, i))
  {
    MoveDigit(acc, v, i);
    MoreBytes(s, p, i, acc, v % 128);
  }

  lemma {:induction false} EncodedHead(s: seq<byte>, p: nat, v: nat)
    requires p + |Encode(v)| <= |s| && s[p..p + |Encode(v)|] == Encode(v)
    ensures p < |s| && s[p] == (if v < 128 then v as byte else (v % 128 + 128) as byte)
    ensures v < 128 ==> |Encode(v)| == 1
    ensures v >= 128 ==> |Encode(v)| == 1 + |Encode(v / 128)| && s[p + 1..p + 1 + |Encode(v / 128)|] == Encode(v / 128)
  {
    var e := Encode(v);
    assert s[p] == e[0];
    TailOfSlice(s, p, |e|);
    assert v >= 128 ==> e[1..] == Encode(v / 128);
  }

  lemma {:induction false} DecodeEncoded(s: seq<byte>, p: nat, i: nat, acc: nat, v: nat)
    requires p + |Encode(v)| <= |s| && s[p..p + |Encode(v)|] == Encode(v)
    requires i <= 9 && acc < Scale(i) && Pending(acc, v, i) < TWO64
    ensures DecodeFrom(s, p, i, acc) == Ok(Decoded(Pending(acc, v, i), p + |Encode(v)|))
    decreases v
  {
    EncodedHead(s, p, v);
    if v < 128 {
      LastByte(s, p, i, acc, v);
    } else {
      DecodeStep(s, p, i, acc, v);
      DecodeEncoded(s, p + 1, i + 1, Taken(acc, v, i), v / 128);
    }
  }

  lemma {:induction false} LastByte(s: seq<byte>, p: nat, i: nat, acc: nat, b: nat)
    requires p < |s| && b < 128 && s[p] == b as byte && Pending(acc, b, i) < TWO64
    ensures DecodeFrom(s, p, i, acc) == Ok(Decoded(Pending(acc, b, i), p + 1))
  {
    assert b % 128 == b;
  }

  lemma {:induction false} MoreBytes(s: seq<byte>, p: nat, i: nat, acc: nat, digit: nat)
    requires p < |s| && digit < 128 && s[p] == (digit + 128) as byte && i < 9 && acc + digit * Scale(i) < TWO64
    ensures DecodeFrom(s, p, i, acc) == DecodeFrom(s, p + 1, i + 1, acc + digit * Scale(i))
  {
    assert (digit + 128) % 128 == digit;
  }

  lemma {:induction false} SplitDigit(v: nat, scale: nat)
    ensures v * scale == v % 128 * scale + v / 128 * (128 * scale)
  {
    var q, m := v / 128, v % 128;
    assert v == 128 * q + m;
    calc {
      v * scale;
      (128 * q + m) * scale;
      128 * q * scale + m * scale;
      q * (128 * scale) + m * scale;
    }
  }

  lemma {:induction false} DigitBelow(acc: nat, m: nat, scale: nat)
    requires acc < scale && m < 128
    ensures acc + m * scale < 128 * scale
  {
    MulAtLeast(127, m, scale);
  }

  lemma {:induction false} MulAtLeast(x: nat, y: nat, scale: nat)
    requires x >= y
    ensures x * scale >= y * scale
  {
  }

  lemma {:induction false} NineDigits()
    ensures Scale(9) == 0x8000_0000_0000_0000
  {
    assert Scale(1) == 128;
    assert Scale(2) == 0x4000;
    assert Scale(3) == 0x20_0000;
    assert Scale(4) == 0x1000_0000;
    assert Scale(5) == 0x8_0000_0000;
    assert Scale(6) == 0x400_0000_0000;
    assert Scale(7) == 0x2_0000_0000_0000;
    assert Scale(8) == 0x100_0000_0000_0000;
  }

  /** Round trip inside any stream: the value comes back and exactly its bytes are read. */
  lemma {:induction false} VarintRoundTrip(v: nat, before: seq<byte>, after: seq<byte>)
    requires v < TWO64
    ensures DecodeFrom(before + Encode(v) + after, |before|, 0, 0) == Ok(Decoded(v, |before| + |Encode(v)|))
  {
    var s := before + Encode(v) + after;
    assert s[|before|..|before| + |Encode(v)|] == Encode(v);
    DecodeEncoded(s, |before|, 0, 0, v);
  }

  /** A value below 2^64 takes at most ten bytes. */
  lemma {:induction false} EncodedLength(v: nat, i: nat)
    requires 1 <= i <= 10 && (i < 10 ==> v < Scale(i)) && v < TWO64
    ensures |Encode(v)| <= i
  {
    if i > 1 && v >= 128 {
      if i == 10 {
        NineDigits();
      }
      assert Scale(i) == 128 * Scale(i - 1);
      EncodedLength(v / 128, i - 1);
    }
  }

  lemma {:induction false} EncodedShort(v: nat)
    requires v < TWO64
    ensures |Encode(v)| <= 10
  {
    EncodedLength(v, 10);
  }

  // ----- zigzag

  function Zigzag(d: int): nat {
    if d >= 0 then 2 * d else -2 * d - 1
  }

  function Unzigzag(z: nat): int {
    if z % 2 == 0 then z / 2 else -((z + 1) / 2)
  }

  lemma {:induction false} ZigzagRoundTrip(d: int)
    ensures Unzigzag(Zigzag(d)) == d
  {
    if d < 0 {
      assert Zigzag(d) % 2 == 1;
      assert (Zigzag(d) + 1) / 2 == -d;
    }
  }
}
