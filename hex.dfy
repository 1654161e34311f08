/** Dashboard slugs: `crypto.randomBytes(8).toString('hex')`, that is eight
    random bytes rendered as sixteen lower-case hexadecimal characters. The
    random bytes are an input of the model. */
module Hex {

  type Byte = b: int | 0 <= b < 256

  /** What `crypto.randomBytes(8)` returns. */
  type Bytes8 = bs: seq<Byte> | |bs| == 8 witness [0, 0, 0, 0, 0, 0, 0, 0]

  /** Number of random bytes behind one slug. */
  const SlugBytes := 8

  predicate IsLowerHex(c: char) {
    '0' <= c <= '9' || 'a' <= c <= 'f'
  }

  /** A well-formed slug: sixteen lower-case hexadecimal characters. */
  predicate IsSlug(s: string) {
    |s| == 2 * SlugBytes && forall i :: 0 <= i < |s| ==> IsLowerHex(s[i])
  }

  function HexDigit(d: int): (c: char)
    requires 0 <= d < 16
    ensures IsLowerHex(c)
  {
    if d < 10 then (48 + d) as char else (87 + d) as char
  }

  function HexValue(c: char): (d: int)
    requires IsLowerHex(c)
    ensures 0 <= d < 16
  {
    if c <= '9' then c as int - '0' as int else c as int - 'a' as int + 10
  }

  /** `Buffer.toString('hex')`: two lower-case digits per byte, high nibble first. */
  function HexEncode(bytes: seq<Byte>): (s: string)
    ensures |s| == 2 * |bytes|
    ensures forall i :: 0 <= i < |s| ==> IsLowerHex(s[i])
  {
    if bytes == [] then []
    else [HexDigit(bytes[0] / 16), HexDigit(bytes[0] % 16)] + HexEncode(bytes[1..])
  }

  /** Reads a string of hexadecimal digit pairs back into bytes. */
  function HexDecode(s: string): seq<Byte>
    requires |s| % 2 == 0
    requires forall i :: 0 <= i < |s| ==> IsLowerHex(s[i])
  {
    if s == [] then []
    else [HexValue(s[0]) * 16 + HexValue(s[1])] + HexDecode(s[2..])
  }

  /** Decoding undoes encoding: the slug keeps all of the random bytes. */
  lemma {:induction false} HexRoundTrip(bytes: seq<Byte>)
    ensures HexDecode(HexEncode(bytes)) == bytes
  {
    if bytes != [] {
      var s := HexEncode(bytes);
      HexRoundTrip(bytes[1..]);
      assert s[2..] == HexEncode(bytes[1..]);
      assert HexValue(s[0]) == bytes[0] / 16;
      assert HexValue(s[1]) == bytes[0] % 16;
    }
  }

  /** Eight random bytes always give a well-formed slug. */
  lemma SlugShape(bytes: Bytes8)
    ensures IsSlug(HexEncode(bytes))
  {
  }

  /** Distinct random draws give distinct slugs. */
  lemma HexEncodeInjective(a: seq<Byte>, b: seq<Byte>)
    requires HexEncode(a) == HexEncode(b)
    ensures a == b
  {
    HexRoundTrip(a);
    HexRoundTrip(b);
  }
}
