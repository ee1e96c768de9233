/**
 * Well-formed UTF-8 is what encoding characters gives: the byte checks accept exactly the encodings of sequences of
 * Unicode scalar values (section 3 of RFC 3629).
 */
module Utf8Meaning {
  import opened CandleBytes

  // A character: a code point up to 10FFFF that is not a surrogate.
  predicate IsScalar(cp: int) {
    0 <= cp <= 0x10ffff && !(0xd800 <= cp <= 0xdfff)
  }

  function Continuation(bits: int): byte
    requires 0 <= bits < 64
  {
    0x80 + bits
  }

  function Encoded(cp: int): seq<byte>
    requires IsScalar(cp)
  {
    if cp <= 0x7f then [cp]
    else if cp <= 0x7ff then [0xc0 + cp / 64, Continuation(cp % 64)]
    else if cp <= 0xffff then [0xe0 + cp / 4096, Continuation(cp / 64 % 64), Continuation(cp % 64)]
    else [0xf0 + cp / 262144, Continuation(cp / 4096 % 64), Continuation(cp / 64 % 64), Continuation(cp % 64)]
  }

  ghost predicate AllScalar(cps: seq<int>) {
    forall i :: 0 <= i < |cps| ==> IsScalar(cps[i])
  }

  function EncodedAll(cps: seq<int>): seq<byte>
    requires AllScalar(cps)
  {
    if cps == [] then []
    else
      assert forall i :: 0 <= i < |cps| - 1 ==> cps[1..][i] == cps[i + 1];
      Encoded(cps[0]) + EncodedAll(cps[1..])
  }

  // The encoding of a character is recognised whole, whatever follows it.
  lemma FirstIsEncoded(cp: int, rest: seq<byte>)
    requires IsScalar(cp)
    ensures FirstLength(Encoded(cp) + rest) == |Encoded(cp)| > 0
    ensures (Encoded(cp) + rest)[|Encoded(cp)|..] == rest
  {
    var s := Encoded(cp) + rest;
    assert forall i :: 0 <= i < |Encoded(cp)| ==> s[i] == Encoded(cp)[i];
    if 0x800 <= cp <= 0xffff {
      ThreeByteSecond(cp);
    } else if 0xffff < cp {
      FourByteSecond(cp);
    }
  }

  lemma ThreeByteSecond(cp: int)
    requires IsScalar(cp) && 0x800 <= cp <= 0xffff
    ensures SecondHolds(0xe0 + cp / 4096, Continuation(cp / 64 % 64)) && 0xe0 + cp / 4096 <= 0xef
  {
    assert cp / 64 == cp / 4096 * 64 + cp / 64 % 64;
  }

  lemma FourByteSecond(cp: int)
    requires IsScalar(cp) && 0xffff < cp
    ensures SecondHolds(0xf0 + cp / 262144, Continuation(cp / 4096 % 64)) && 0xf0 + cp / 262144 <= 0xf4
  {
    assert cp / 4096 == cp / 262144 * 64 + cp / 4096 % 64;
  }

  // ----- and back

  lemma TwoDigits(h: int, l: int)
    requires 0 <= l < 64
    ensures (h * 64 + l) % 64 == l && (h * 64 + l) / 64 == h
  {
  }

  lemma ThreeDigits(h: int, m: int, l: int)
    requires 0 <= m < 64 && 0 <= l < 64
    ensures var cp := h * 4096 + m * 64 + l; cp % 64 == l && cp / 64 % 64 == m && cp / 4096 == h
  {
    TwoDigits(h * 64 + m, l);
    TwoDigits(h, m);
  }

  lemma FourDigits(h: int, k: int, m: int, l: int)
    requires 0 <= k < 64 && 0 <= m < 64 && 0 <= l < 64
    ensures var cp := h * 262144 + k * 4096 + m * 64 + l;
      cp % 64 == l && cp / 64 % 64 == m && cp / 4096 % 64 == k && cp / 262144 == h
  {
    TwoDigits((h * 64 + k) * 64 + m, l);
    TwoDigits(h * 64 + k, m);
    TwoDigits(h, k);
  }

  lemma TwoBytes(a: int, b: int) returns (cp: int)
    requires 0xc2 <= a <= 0xdf && 0x80 <= b <= 0xbf
    ensures IsScalar(cp) && Encoded(cp) == [a, b]
  {
    cp := (a - 0xc0) * 64 + (b - 0x80);
    TwoDigits(a - 0xc0, b - 0x80);
  }

  lemma ThreeBytes(a: byte, b: byte, c: byte) returns (cp: int)
    requires 0xe0 <= a <= 0xef && SecondHolds(a, b) && 0x80 <= c <= 0xbf
    ensures IsScalar(cp) && Encoded(cp) == [a, b, c]
  {
    var h: int, m: int, l: int := a as int - 0xe0, b as int - 0x80, c as int - 0x80;
    cp := h * 4096 + m * 64 + l;
    ThreeDigits(h, m, l);
  }

  lemma FourBytes(a: byte, b: byte, c: byte, d: byte) returns (cp: int)
    requires 0xf0 <= a <= 0xf4 && SecondHolds(a, b) && 0x80 <= c <= 0xbf && 0x80 <= d <= 0xbf
    ensures IsScalar(cp) && Encoded(cp) == [a, b, c, d]
  {
    var h: int, k: int, m: int, l: int := a as int - 0xf0, b as int - 0x80, c as int - 0x80, d as int - 0x80;
    cp := h * 262144 + k * 4096 + m * 64 + l;
    FourDigits(h, k, m, l);
  }

  // What is recognised at the front is the encoding of a character.
  lemma RecognisedIsEncoded(s: seq<byte>) returns (cp: int)
    requires FirstLength(s) > 0
    ensures IsScalar(cp) && Encoded(cp) == s[..FirstLength(s)]
  {
    var n := FirstLength(s);
    if n == 1 {
      cp := s[0];
    } else if n == 2 {
      cp := TwoBytes(s[0], s[1]);
    } else if n == 3 {
      cp := ThreeBytes(s[0], s[1], s[2]);
      hide Encoded;
    } else {
      cp := FourBytes(s[0], s[1], s[2], s[3]);
      hide Encoded;
    }
  }

  // A file is well-formed exactly when it is the encoding of some characters.
  lemma {:induction false} Utf8Iff(s: seq<byte>)
    ensures Utf8(s) <==> exists cps :: AllScalar(cps) && EncodedAll(cps) == s
  {
    if Utf8(s) {
      var cps := Characters(s);
    }
    if cps :| AllScalar(cps) && EncodedAll(cps) == s {
      EncodingsAreWellFormed(cps);
    }
  }

  lemma {:induction false} Characters(s: seq<byte>) returns (cps: seq<int>)
    requires Utf8(s)
    ensures AllScalar(cps) && EncodedAll(cps) == s
  {
    if s == [] {
      cps := [];
    } else {
      hide Encoded, FirstLength;
      var n := FirstLength(s);
      var cp := RecognisedIsEncoded(s);
      var rest := Characters(s[n..]);
      cps := [cp] + rest;
      OneMoreCharacter(cp, rest);
      hide EncodedAll, AllScalar, Utf8;
      assert s == s[..n] + s[n..];
    }
  }

  lemma OneMoreCharacter(cp: int, rest: seq<int>)
    requires IsScalar(cp) && AllScalar(rest)
    ensures AllScalar([cp] + rest) && EncodedAll([cp] + rest) == Encoded(cp) + EncodedAll(rest)
  {
    assert ([cp] + rest)[1..] == rest;
    hide Encoded;
  }

  lemma {:induction false} EncodingsAreWellFormed(cps: seq<int>)
    requires AllScalar(cps)
    ensures Utf8(EncodedAll(cps))
  {
    if cps != [] {
      assert forall i :: 0 <= i < |cps| - 1 ==> cps[1..][i] == cps[i + 1];
      EncodingsAreWellFormed(cps[1..]);
      FirstIsEncoded(cps[0], EncodedAll(cps[1..]));
      hide Encoded, FirstLength;
    }
  }
}
