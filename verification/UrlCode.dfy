/** Percent-encoding as the string library does it (gwlib/octstr.c), following section 2.1 of RFC 3986
    with the usual exception of a plus sign for a space. */
module UrlCode {
  import opened Octets

  const SPACE: Octet := 0x20
  const PLUS: Octet := 0x2b
  const PERCENT: Octet := 0x25

  /** Letters, digits and the four unreserved marks stay as they are. */
  predicate Safe(c: Octet) {
    || 0x41 <= c <= 0x5a || 0x61 <= c <= 0x7a || 0x30 <= c <= 0x39
    || c == 0x2d || c == 0x5f || c == 0x2e || c == 0x7e
  }

  function UpperHex(n: nat): Octet
    requires n < 16
  {
    if n < 10 then 0x30 + n else 0x37 + n
  }

  function EncodeOctet(c: Octet): (e: Octstr)
    ensures 1 <= |e|
  {
    if c == SPACE then [PLUS] else if Safe(c) then [c] else [PERCENT, UpperHex(c / 16), UpperHex(c % 16)]
  }

  function Encode(s: Octstr): Octstr {
    if s == [] then [] else EncodeOctet(s[0]) + Encode(s[1..])
  }

  /** Decoding stops at a NUL or a percent sign too close to the end; a percent sign before
      anything but two hexadecimal digits is copied with the two octets after it. */
  function DecodeRest(s: Octstr): Octstr
    decreases |s|
  {
    if s == [] || s[0] == 0 then []
    else DecodeNext(s)
  }

  function DecodeNext(s: Octstr): Octstr
    requires s != []
    decreases |s|, 0
  {
    if s[0] == PERCENT then
      if |s| < 3 || s[1] == 0 || s[2] == 0 then []
      else if HexValue(s[1]) < 0 || HexValue(s[2]) < 0 then s[..3] + DecodeRest(s[3..])
      else [Digits(s[1], s[2])] + DecodeRest(s[3..])
    else [if s[0] == PLUS then SPACE else s[0]] + DecodeRest(s[1..])
  }

  function Digits(a: Octet, b: Octet): Octet
    requires HexValue(a) >= 0 && HexValue(b) >= 0
  {
    HexValue(a) * 16 + HexValue(b)
  }

  /** octstr_url_decode; the first octet is looked at even if it is NUL. */
  function Decode(s: Octstr): Octstr { if s == [] then [] else DecodeNext(s) }

  lemma HexInverts(n: nat)
    requires n < 16
    ensures HexValue(UpperHex(n)) == n && UpperHex(n) != 0
  {
  }

  lemma DecodeStep(c: Octet, rest: Octstr)
    ensures DecodeRest(EncodeOctet(c) + rest) == [c] + DecodeRest(rest)
    ensures DecodeNext(EncodeOctet(c) + rest) == [c] + DecodeRest(rest)
  {
    var s := EncodeOctet(c) + rest;
    if c != SPACE && !Safe(c) {
      HexInverts(c / 16);
      HexInverts(c % 16);
      assert s[3..] == rest;
    } else {
      assert s[1..] == rest;
    }
  }

  lemma {:induction false} DecodeInvertsEncode(s: Octstr)
    ensures Decode(Encode(s)) == s && DecodeRest(Encode(s)) == s
  {
    if s != [] {
      DecodeStep(s[0], Encode(s[1..]));
      DecodeInvertsEncode(s[1..]);
    }
  }

  /** An octet the encoder writes. */
  predicate Plain(c: Octet) { Safe(c) || c == PLUS || c == PERCENT }

  lemma {:induction false} EncodeIsPlain(s: Octstr)
    ensures forall i :: 0 <= i < |Encode(s)| ==> Plain(Encode(s)[i])
  {
    if s != [] {
      EncodeIsPlain(s[1..]);
      assert forall i :: 0 <= i < |EncodeOctet(s[0])| ==> Plain(EncodeOctet(s[0])[i]);
    }
  }
}
