/** Reading fields off the front of a byte string. Every overrun is an error. */
module ByteStreams {
  import opened Common
  import opened Varint

  datatype Read<T> = Read(value: T, rest: Bytes)

  function GetU8(s: Bytes): (r: Result<Read<byte>>)
    ensures r.Ok? ==> |r.value.rest| < |s|
  {
    if s == [] then Error(Corruption("get_u8 overrun")) else Ok(Read(s[0], s[1..]))
  }

  function GetVarint64(s: Bytes): (r: Result<Read<nat>>)
    ensures r.Ok? ==> |r.value.rest| < |s|
  {
    var d :- DecodeFrom(s, 0, 0, 0);
    Ok(Read(d.value, s[d.next..]))
  }

  function GetVarint32(s: Bytes): (r: Result<Read<nat>>)
    ensures r.Ok? ==> |r.value.rest| < |s|
  {
    var d :- GetVarint64(s);
    if d.value >= TWO32 then Error(Corruption("varint32 overflow")) else Ok(d)
  }

  function GetBytes(s: Bytes, n: nat): (r: Result<Read<Bytes>>)
    ensures r.Ok? ==> |r.value.rest| <= |s|
  {
    if |s| < n then Error(Corruption("get_bytes overrun")) else Ok(Read(s[..n], s[n..]))
  }

  /** Four bytes, little-endian. */
  function Fixed32(v: nat): (r: Bytes)
    ensures |r| == 4
  {
    [(v % 256) as byte, (v / 256 % 256) as byte, (v / 0x1_0000 % 256) as byte, (v / 0x100_0000 % 256) as byte]
  }

  function LoadLe32(s: Bytes): nat
    requires |s| >= 4
  {
    LoadLe32At(s, 0)
  }

  function LoadLe32At(s: Bytes, off: nat): nat
    requires off + 4 <= |s|
  {
    s[off] as nat + 256 * s[off + 1] as nat + 0x1_0000 * s[off + 2] as nat + 0x100_0000 * s[off + 3] as nat
  }

  function GetFixed32(s: Bytes): (r: Result<Read<nat>>)
    ensures r.Ok? ==> |r.value.rest| < |s|
  {
    if |s| < 4 then Error(Corruption("get_fixed32 overrun")) else Ok(Read(LoadLe32(s), s[4..]))
  }

  lemma {:induction false} VarintFirst(v: nat, rest: Bytes)
    requires v < TWO64
    ensures GetVarint64(Encode(v) + rest) == Ok(Read(v, rest))
    ensures v < TWO32 ==> GetVarint32(Encode(v) + rest) == Ok(Read(v, rest))
  {
    VarintRoundTrip(v, [], rest);
    assert [] + Encode(v) + rest == Encode(v) + rest;
    assert (Encode(v) + rest)[|Encode(v)|..] == rest;
  }

  lemma {:induction false} Fixed32First(v: nat, rest: Bytes)
    requires v < TWO32
    ensures GetFixed32(Fixed32(v) + rest) == Ok(Read(v, rest)) && LoadLe32(Fixed32(v)) == v
  {
    assert (Fixed32(v) + rest)[4..] == rest;
    var a, b, c := v / 256, v / 0x1_0000, v / 0x100_0000;
    assert a / 256 == b && b / 256 == c && c % 256 == c;
  }

  lemma {:induction false} U8First(b: byte, rest: Bytes)
    ensures GetU8([b] + rest) == Ok(Read(b, rest))
  {
    assert ([b] + rest)[1..] == rest;
  }

  lemma {:induction false} BytesFirst(b: Bytes, rest: Bytes)
    ensures GetBytes(b + rest, |b|) == Ok(Read(b, rest))
  {
    assert (b + rest)[..|b|] == b && (b + rest)[|b|..] == rest;
  }
}
