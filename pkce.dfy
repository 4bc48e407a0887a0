/**
  The relying party's PKCE helpers (client/lib/pkce.ts): the verifier is the
  lower-case hex rendering of random bytes, and the challenge is computed by
  building a binary string from the SHA-256 digest, base64-encoding it with
  `btoa`, making it URL-safe and stripping the padding. The random bytes and
  the hash function are parameters.
*/
module Pkce {
  import opened Base64Url

  // ---------------------------------------------------------------------
  // The challenge: sha256Base64Url
  // ---------------------------------------------------------------------

  /** A string `btoa` accepts: every character code fits in one byte. */
  predicate IsLatin1(s: string)
  {
    forall i :: 0 <= i < |s| ==> s[i] as int < 256
  }

  /** The string whose i-th character has code `bytes[i]`. */
  function Latin1(bytes: seq<byte>): (s: string)
    ensures |s| == |bytes| && IsLatin1(s)
  {
    seq(|bytes|, i requires 0 <= i < |bytes| => bytes[i] as char)
  }

  /**
    The `forEach` loop: one character per digest byte, appended with
    `String.fromCharCode(b)`, so character code i equals byte i.
  */
  method BinaryString(bytes: seq<byte>) returns (s: string)
    ensures |s| == |bytes|
    ensures forall i :: 0 <= i < |s| ==> s[i] as int == bytes[i]
  {
    s := "";
    for i := 0 to |bytes|
      invariant |s| == i
      invariant forall k :: 0 <= k < i ==> s[k] as int == bytes[k]
    {
      s := s + [bytes[i] as char];
    }
  }

  /** The standard alphabet of section 4 of RFC 4648, which `btoa` uses. */
  function StdChar(v: sextet): char
  {
    if v < 62 then UrlChar(v) else if v == 62 then '+' else '/'
  }

  function StdChars(q: seq<sextet>): (s: string)
    ensures |s| == |q|
  {
    seq(|q|, i requires 0 <= i < |q| => StdChar(q[i]))
  }

  /**
    `btoa`: padded base64 of a binary string, `=` filling the final group, so
    four characters per started group of three.
  */
  function Btoa(s: string): (r: string)
    requires IsLatin1(s)
    ensures |r| == 4 * ((|s| + 2) / 3)
    decreases |s|
  {
    if |s| == 0 then ""
    else if |s| == 1 then StdChars(Sextets(s[0] as int, 0, 0)[..2]) + "=="
    else if |s| == 2 then StdChars(Sextets(s[0] as int, s[1] as int, 0)[..3]) + "="
    else StdChars(Sextets(s[0] as int, s[1] as int, s[2] as int)) + Btoa(s[3..])
  }

  /**
    `s.replaceAll(from, to)` for one-character patterns: the same length, no
    `from` left when it differs from `to`, every `from` now `to` and every
    other character unchanged.
  */
  function ReplaceAll(s: string, from: char, to: char): (r: string)
    ensures |r| == |s|
    ensures from != to ==> forall i :: 0 <= i < |r| ==> r[i] != from
    ensures forall i :: 0 <= i < |s| ==> (s[i] == from ==> r[i] == to) && (s[i] != from ==> r[i] == s[i])
  {
    seq(|s|, i requires 0 <= i < |s| => if s[i] == from then to else s[i])
  }

  /**
    `.replaceAll("+", "-").replaceAll("/", "_")`: no `+` or `/` is left, and
    every other character stays where it was.
  */
  function UrlSafe(s: string): (r: string)
    ensures |r| == |s|
    ensures forall i :: 0 <= i < |r| ==> r[i] != '+' && r[i] != '/'
    ensures forall i :: 0 <= i < |s| && s[i] != '+' && s[i] != '/' ==> r[i] == s[i]
  {
    ReplaceAll(ReplaceAll(s, '+', '-'), '/', '_')
  }

  /**
    `replace(/=+$/, "")`: the leftmost match of `=+$` is the whole run of `=`
    that ends the string, so that run and nothing else is removed.
  */
  function StripTrailingPad(s: string): (r: string)
    ensures r <= s
    ensures forall i :: |r| <= i < |s| ==> s[i] == '='
    ensures r == [] || r[|r| - 1] != '='
    decreases |s|
  {
    if |s| > 0 && s[|s| - 1] == '=' then StripTrailingPad(s[..|s| - 1]) else s
  }

  /**
    Line 9 of the client, applied to the binary string of the digest: the
    result holds no `+` or `/` and does not end in `=`.
  */
  function EncodeBinaryString(s: string): (r: string)
    requires IsLatin1(s)
    ensures forall i :: 0 <= i < |r| ==> r[i] != '+' && r[i] != '/'
    ensures r == [] || r[|r| - 1] != '='
  {
    StripTrailingPad(UrlSafe(Btoa(s)))
  }

  /** The padding `btoa` appends after n bytes. */
  function Padding(n: nat): string
  {
    if n % 3 == 1 then "==" else if n % 3 == 2 then "=" else ""
  }

  lemma UrlSafeConcat(x: string, y: string)
    ensures UrlSafe(x + y) == UrlSafe(x) + UrlSafe(y)
  {
  }

  /** Padding is left alone by the replacements. */
  lemma UrlSafePadding(n: nat)
    ensures UrlSafe(Padding(n)) == Padding(n)
  {
    var p := Padding(n);
    assert forall i :: 0 <= i < |p| ==> p[i] == '=';
  }

  lemma UrlSafeStdChars(q: seq<sextet>)
    ensures UrlSafe(StdChars(q)) == UrlChars(q)
  {
  }

  /** The binary string of `bytes` past its first group is that of `bytes[3..]`. */
  lemma Latin1Step(bytes: seq<byte>)
    requires |bytes| >= 3
    ensures IsLatin1(Latin1(bytes))
    ensures Btoa(Latin1(bytes))
            == StdChars(Sextets(bytes[0], bytes[1], bytes[2])) + Btoa(Latin1(bytes[3..]))
  {
    var s := Latin1(bytes);
    assert s[0] as int == bytes[0] && s[1] as int == bytes[1] && s[2] as int == bytes[2];
    assert s[3..] == Latin1(bytes[3..]);
  }

  /** What `btoa` makes of a final group of one or two bytes. */
  lemma BtoaTail(bytes: seq<byte>)
    requires 1 <= |bytes| <= 2
    ensures IsLatin1(Latin1(bytes))
    ensures |bytes| == 1 ==> Btoa(Latin1(bytes)) == StdChars(Sextets(bytes[0], 0, 0)[..2]) + "=="
    ensures |bytes| == 2 ==> Btoa(Latin1(bytes)) == StdChars(Sextets(bytes[0], bytes[1], 0)[..3]) + "="
  {
    var s := Latin1(bytes);
    assert s[0] as int == bytes[0];
    assert |bytes| == 2 ==> s[1] as int == bytes[1];
  }

  /** A final group of one or two bytes. */
  lemma UrlSafeBtoaTail(bytes: seq<byte>)
    requires 1 <= |bytes| <= 2
    ensures UrlSafe(Btoa(Latin1(bytes))) == Encode(bytes) + Padding(|bytes|)
  {
    BtoaTail(bytes);
    var q := if |bytes| == 1 then Sextets(bytes[0], 0, 0)[..2] else Sextets(bytes[0], bytes[1], 0)[..3];
    var pad := Padding(|bytes|);
    assert Btoa(Latin1(bytes)) == StdChars(q) + pad;
    UrlSafeConcat(StdChars(q), pad);
    UrlSafePadding(|bytes|);
    UrlSafeStdChars(q);
  }

  /**
    The padded standard encoding, made URL-safe, is the unpadded base64url
    encoding followed by btoa's padding.
  */
  lemma {:induction false} UrlSafeBtoa(bytes: seq<byte>)
    ensures UrlSafe(Btoa(Latin1(bytes))) == Encode(bytes) + Padding(|bytes|)
    decreases |bytes|
  {
    if 1 <= |bytes| <= 2 {
      UrlSafeBtoaTail(bytes);
    } else if |bytes| >= 3 {
      var q := Sextets(bytes[0], bytes[1], bytes[2]);
      var tail := bytes[3..];
      calc {
        UrlSafe(Btoa(Latin1(bytes)));
      == { Latin1Step(bytes); }
        UrlSafe(StdChars(q) + Btoa(Latin1(tail)));
      == { UrlSafeConcat(StdChars(q), Btoa(Latin1(tail))); UrlSafeStdChars(q); }
        UrlChars(q) + UrlSafe(Btoa(Latin1(tail)));
      == { UrlSafeBtoa(tail); PaddingStep(|bytes|); }
        UrlChars(q) + (Encode(tail) + Padding(|bytes|));
      == { EncodeStep(bytes); }
        Encode(bytes) + Padding(|bytes|);
      }
    }
  }

  lemma PaddingStep(n: nat)
    requires n >= 3
    ensures Padding(n - 3) == Padding(n)
  {
    assert (n - 3) % 3 == n % 3;
  }

  lemma EncodeStep(bytes: seq<byte>)
    requires |bytes| >= 3
    ensures Encode(bytes) == UrlChars(Sextets(bytes[0], bytes[1], bytes[2])) + Encode(bytes[3..])
  {
  }

  lemma StripOne(x: string)
    ensures StripTrailingPad(x + "=") == StripTrailingPad(x)
  {
    assert (x + "=")[..|x|] == x;
  }

  /** Stripping removes exactly the padding after a string not ending in `=`. */
  lemma StripPadding(x: string, n: nat)
    requires x == [] || x[|x| - 1] != '='
    ensures StripTrailingPad(x + Padding(n)) == x
  {
    if n % 3 == 1 {
      assert x + "==" == (x + "=") + "=";
      StripOne(x + "=");
      StripOne(x);
    } else if n % 3 == 2 {
      StripOne(x);
    } else {
      assert x + "" == x;
    }
  }

  /**
    The client's `btoa` pipeline over the binary string of some bytes computes
    exactly the base64url encoding of section 5 of RFC 4648 without padding.
  */
  lemma ClientEncodingIsBase64Url(bytes: seq<byte>)
    ensures IsLatin1(Latin1(bytes))
    ensures EncodeBinaryString(Latin1(bytes)) == Encode(bytes)
  {
    UrlSafeBtoa(bytes);
    StripPadding(Encode(bytes), |bytes|);
  }

  /**
    `sha256Base64Url(v)`: the S256 challenge of v, the very value the server
    recomputes from the verifier, so 43 characters without `+`, `/` or `=`.
  */
  method Sha256Base64Url(sha256: Sha256, v: string) returns (r: string)
    ensures r == Challenge(sha256, v)
    ensures |r| == 43
    ensures forall i :: 0 <= i < |r| ==> r[i] != '+' && r[i] != '/' && r[i] != '='
  {
    var digest := sha256(v);
    var s := BinaryString(digest);
    assert s == Latin1(digest);
    ClientEncodingIsBase64Url(digest);
    r := EncodeBinaryString(s);
  }

  // ---------------------------------------------------------------------
  // The verifier: randomString
  // ---------------------------------------------------------------------

  /** `[0-9a-f]`. */
  predicate IsLowerHex(c: char)
  {
    ('0' <= c <= '9') || ('a' <= c <= 'f')
  }

  /** A string of lower-case hex digits only. */
  predicate AllLowerHex(s: string)
  {
    forall i :: 0 <= i < |s| ==> IsLowerHex(s[i])
  }

  lemma AllLowerHexConcat(a: string, b: string)
    requires AllLowerHex(a) && AllLowerHex(b)
    ensures AllLowerHex(a + b)
  {
    forall i | 0 <= i < |a + b|
      ensures IsLowerHex((a + b)[i])
    {
      if i < |a| { assert (a + b)[i] == a[i]; } else { assert (a + b)[i] == b[i - |a|]; }
    }
  }

  /** The digit `Number.prototype.toString(16)` prints for a value below 16. */
  function HexDigit(d: int): (c: char)
    requires 0 <= d < 16
    ensures IsLowerHex(c)
  {
    if d < 10 then ('0' as int + d) as char else ('a' as int + (d - 10)) as char
  }

  /**
    `x.toString(16)` for a byte: lower-case hex digits with no leading zero,
    one below 16 and two otherwise, whose value is x.
  */
  function ToString16(x: byte): (r: string)
    ensures |r| == (if x < 16 then 1 else 2) && AllLowerHex(r)
    ensures r[0] != '0' || x == 0
    ensures (if |r| == 1 then HexValue(r[0]) else HexValue(r[0]) * 16 + HexValue(r[1])) == x
  {
    if x < 16 then [HexDigit(x)] else [HexDigit(x / 16), HexDigit(x % 16)]
  }

  /** `("0" + x.toString(16)).slice(-2)`: always two digits, zero-padded. */
  function HexByte(x: byte): (r: string)
    ensures r == [HexDigit(x / 16), HexDigit(x % 16)]
  {
    var t := "0" + ToString16(x);
    t[|t| - 2..]
  }

  /** `randomString`: the hex rendering of the random bytes it draws. */
  function RandomString(random: seq<byte>): (r: string)
    ensures |r| == 2 * |random|
    ensures AllLowerHex(r)
  {
    if random == [] then ""
    else
      var h, t := HexByte(random[0]), RandomString(random[1..]);
      assert AllLowerHex(h) by { assert IsLowerHex(h[0]) && IsLowerHex(h[1]); }
      AllLowerHexConcat(h, t);
      h + t
  }

  /** The value of a hex digit; the inverse of HexDigit. */
  function HexValue(c: char): (v: int)
    ensures 0 <= v < 16
  {
    if '0' <= c <= '9' then c as int - '0' as int
    else if 'a' <= c <= 'f' then c as int - 'a' as int + 10
    else 0
  }

  /** Two hex digits per byte. */
  function HexDecode(s: string): seq<byte>
  {
    if |s| < 2 then [] else [HexValue(s[0]) * 16 + HexValue(s[1])] + HexDecode(s[2..])
  }

  lemma HexValueOfDigit(d: int)
    requires 0 <= d < 16
    ensures HexValue(HexDigit(d)) == d
  {
  }

  /** Decoding the rendering of one byte followed by more digits. */
  lemma HexDecodeStep(x: byte, rest: string)
    ensures HexDecode(HexByte(x) + rest) == [x] + HexDecode(rest)
  {
    var r := HexByte(x) + rest;
    assert r[0] == HexDigit(x / 16) && r[1] == HexDigit(x % 16);
    assert r[2..] == rest;
    HexValueOfDigit(x / 16);
    HexValueOfDigit(x % 16);
    assert HexDecode(r) == [HexValue(r[0]) * 16 + HexValue(r[1])] + HexDecode(r[2..]);
  }

  lemma {:induction false} HexRoundTrip(random: seq<byte>)
    ensures HexDecode(RandomString(random)) == random
  {
    if random != [] {
      assert RandomString(random) == HexByte(random[0]) + RandomString(random[1..]);
      HexDecodeStep(random[0], RandomString(random[1..]));
      HexRoundTrip(random[1..]);
      assert [random[0]] + random[1..] == random;
    }
  }

  /** Distinct random bytes give distinct verifiers. */
  lemma RandomStringInjective(a: seq<byte>, b: seq<byte>)
    requires RandomString(a) == RandomString(b)
    ensures a == b
  {
    HexRoundTrip(a);
    HexRoundTrip(b);
  }

  /** The `unreserved` characters of section 4.1 of RFC 7636. */
  predicate IsUnreserved(c: char)
  {
    ('A' <= c <= 'Z') || ('a' <= c <= 'z') || ('0' <= c <= '9')
      || c == '-' || c == '.' || c == '_' || c == '~'
  }

  // ---------------------------------------------------------------------
  // createPkcePair
  // ---------------------------------------------------------------------

  /**
    `createPkcePair`: a verifier from 64 random bytes (128 hex characters,
    within the 43 to 128 unreserved characters section 4.1 of RFC 7636
    allows) and its S256 challenge.
  */
  method CreatePkcePair(sha256: Sha256, random: seq<byte>) returns (verifier: string, challenge: string)
    requires |random| == 64
    ensures verifier == RandomString(random)
    ensures challenge == Challenge(sha256, verifier)
    ensures 43 <= |verifier| <= 128
    ensures forall i :: 0 <= i < |verifier| ==> IsUnreserved(verifier[i])
  {
    verifier := RandomString(random);
    assert |verifier| == 128;
    forall i | 0 <= i < |verifier|
      ensures IsUnreserved(verifier[i])
    {
      assert IsLowerHex(verifier[i]);
    }
    challenge := Sha256Base64Url(sha256, verifier);
  }
}
