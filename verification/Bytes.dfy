/** Octets, big-endian 16-bit integers, and the length-prefixed vectors TLS is made of. */
module Bytes {
  type byte = b: int | 0 <= b < 256

  /** Two octets read as a big-endian integer. */
  function U16(hi: byte, lo: byte): nat {
    256 * hi + lo
  }

  /** `(n as u16).to_be_bytes()`: the low 16 bits of `n`, so a larger `n` is truncated. */
  function EncodeU16(n: nat): (e: seq<byte>)
    ensures |e| == 2
    ensures n < 65536 ==> U16(e[0], e[1]) == n
  {
    [(n / 256) % 256, n % 256]
  }

  /** A vector whose length is written in one octet. */
  function Vec8(body: seq<byte>): seq<byte> {
    [|body| % 256] + body
  }

  /** A vector whose length is written in two octets. */
  function Vec16(body: seq<byte>): seq<byte> {
    EncodeU16(|body|) + body
  }

  /** A vector cut off the front of some input, or too little input. */
  datatype Cut = Short | Cut(body: seq<byte>, rest: seq<byte>)

  function TakeVec8(s: seq<byte>): (c: Cut)
    ensures c.Cut? ==> |c.body| < 256 && |s| == 1 + |c.body| + |c.rest|
  {
    if |s| < 1 then Short else
    var n: nat := s[0];
    if |s| < 1 + n then Short else Cut(s[1..1 + n], s[1 + n..])
  }

  function TakeVec16(s: seq<byte>): (c: Cut)
    ensures c.Cut? ==> |c.body| < 65536 && |s| == 2 + |c.body| + |c.rest|
  {
    if |s| < 2 || |s| < 2 + U16(s[0], s[1]) then Short
    else Cut(s[2..2 + U16(s[0], s[1])], s[2 + U16(s[0], s[1])..])
  }

  /** What `TakeVec16` cuts off is what `Vec16` writes. */
  lemma TakeVec16Splits(s: seq<byte>)
    ensures TakeVec16(s).Cut? ==> s == Vec16(TakeVec16(s).body) + TakeVec16(s).rest
  {
  }

  lemma TakeVec8Splits(s: seq<byte>)
    ensures TakeVec8(s).Cut? ==> s == Vec8(TakeVec8(s).body) + TakeVec8(s).rest
  {
  }

  lemma TakeVec8Reads(body: seq<byte>, rest: seq<byte>)
    ensures |body| < 256 ==> TakeVec8(Vec8(body) + rest) == Cut(body, rest)
  {
  }

  lemma TakeVec16Reads(body: seq<byte>, rest: seq<byte>)
    ensures |body| < 65536 ==> TakeVec16(Vec16(body) + rest) == Cut(body, rest)
  {
  }
}
