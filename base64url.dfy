/**
  The base64url encoding of section 5 of RFC 4648, without padding, and the
  S256 code-challenge transform of section 4.2 of RFC 7636 built on it:
  challenge = BASE64URL(SHA256(verifier)). SHA-256 itself is not modelled;
  the transform is handed the hash function.
*/
module Base64Url {

  type byte = b: int | 0 <= b < 256

  /** A 6-bit group: the index of one character of a base64 alphabet. */
  type sextet = v: int | 0 <= v < 64

  /** A SHA-256 digest, always 32 bytes long. */
  type Digest = d: seq<byte> | |d| == 32 witness seq(32, _ => 0)

  /** SHA-256 of the UTF-8 encoding of a string. */
  type Sha256 = string -> Digest

  /** The four 6-bit groups of the 24-bit group `b0 b1 b2`, most significant first. */
  function Sextets(b0: byte, b1: byte, b2: byte): (q: seq<sextet>)
    ensures |q| == 4
    ensures (q[0] as int) * 262144 + (q[1] as int) * 4096 + (q[2] as int) * 64 + q[3] as int
            == (b0 as int) * 65536 + (b1 as int) * 256 + b2 as int
  {
    [b0 / 4, (b0 % 4) * 16 + b1 / 16, (b1 % 16) * 4 + b2 / 64, b2 % 64]
  }

  /** `[A-Za-z0-9_-]`: the alphabet of section 5 of RFC 4648. */
  predicate IsUrlChar(c: char)
  {
    ('A' <= c <= 'Z') || ('a' <= c <= 'z') || ('0' <= c <= '9') || c == '-' || c == '_'
  }

  /** Table 2 of RFC 4648: the character that encodes a 6-bit value. */
  function UrlChar(v: sextet): (c: char)
    ensures IsUrlChar(c)
  {
    if v < 26 then ('A' as int + v) as char
    else if v < 52 then ('a' as int + (v - 26)) as char
    else if v < 62 then ('0' as int + (v - 52)) as char
    else if v == 62 then '-'
    else '_'
  }

  function UrlChars(q: seq<sextet>): (s: string)
    ensures |s| == |q|
    ensures forall i :: 0 <= i < |s| ==> s[i] == UrlChar(q[i])
  {
    seq(|q|, i requires 0 <= i < |q| => UrlChar(q[i]))
  }

  /**
    Base64url without padding: each 3-byte group becomes four characters,
    a final group of 1 or 2 bytes becomes 2 or 3 characters, and no `=` is
    appended.
  */
  function Encode(bytes: seq<byte>): (r: string)
    ensures |r| == (4 * |bytes| + 2) / 3
    ensures forall i :: 0 <= i < |r| ==> IsUrlChar(r[i])
    decreases |bytes|
  {
    if |bytes| == 0 then ""
    else if |bytes| == 1 then UrlChars(Sextets(bytes[0], 0, 0)[..2])
    else if |bytes| == 2 then UrlChars(Sextets(bytes[0], bytes[1], 0)[..3])
    else UrlChars(Sextets(bytes[0], bytes[1], bytes[2])) + Encode(bytes[3..])
  }

  /**
    The S256 transform of section 4.2 of RFC 7636. A digest is 32 bytes, so a
    challenge is always 43 characters of the URL-safe alphabet.
  */
  function Challenge(sha256: Sha256, verifier: string): (r: string)
    ensures |r| == 43
    ensures forall i :: 0 <= i < |r| ==> IsUrlChar(r[i]) && r[i] != '='
  {
    Encode(sha256(verifier))
  }
}
