/** What `ValidUtf8` means: the byte strings that encode Unicode scalar values (RFC 3629). */
module Utf8 {
  import opened Base
  import opened Values

  /** A code point that is no surrogate. */
  predicate Scalar(cp: nat)
  {
    cp < 0x11_0000 && !(0xD800 <= cp <= 0xDFFF)
  }

  /** Section 3 of RFC 3629. */
  function Utf8Of(cp: nat): seq<byte>
    requires Scalar(cp)
  {
    if cp < 0x80 then [cp]
    else if cp < 0x800 then [0xC0 + cp / 0x40, 0x80 + cp % 0x40]
    else if cp < 0x1_0000 then [0xE0 + cp / 0x1000, 0x80 + cp / 0x40 % 0x40, 0x80 + cp % 0x40]
    else [0xF0 + cp / 0x4_0000, 0x80 + cp / 0x1000 % 0x40, 0x80 + cp / 0x40 % 0x40, 0x80 + cp % 0x40]
  }

  predicate Scalars(cps: seq<nat>)
  {
    forall k | 0 <= k < |cps| :: Scalar(cps[k])
  }

  function Encoded(cps: seq<nat>): seq<byte>
    requires Scalars(cps)
  {
    if cps == [] then [] else Utf8Of(cps[0]) + Encoded(cps[1..])
  }

  lemma OneScalarValid(cp: nat, rest: seq<byte>)
    requires Scalar(cp) && ValidUtf8(rest)
    ensures ValidUtf8(Utf8Of(cp) + rest)
  {
    var s := Utf8Of(cp) + rest;
    var n := |Utf8Of(cp)|;
    assert s[n..] == rest;
    if cp >= 0x800 && cp < 0x1_0000 {
      ThreeBytes(cp);
    } else if cp >= 0x1_0000 {
      FourBytes(cp);
    }
  }

  lemma ThreeBytes(cp: nat)
    requires Scalar(cp) && 0x800 <= cp < 0x1_0000
    ensures var u := Utf8Of(cp);
            && 0xE0 <= u[0] <= 0xEF && Continuation(u[1]) && Continuation(u[2])
            && (u[0] == 0xE0 ==> 0xA0 <= u[1]) && (u[0] == 0xED ==> u[1] <= 0x9F)
  {
    assert cp == cp / 0x1000 * 0x1000 + cp / 0x40 % 0x40 * 0x40 + cp % 0x40;
  }

  lemma FourBytes(cp: nat)
    requires Scalar(cp) && 0x1_0000 <= cp
    ensures var u := Utf8Of(cp);
            && 0xF0 <= u[0] <= 0xF4 && Continuation(u[1]) && Continuation(u[2]) && Continuation(u[3])
            && (u[0] == 0xF0 ==> 0x90 <= u[1]) && (u[0] == 0xF4 ==> u[1] <= 0x8F)
  {
    assert cp == cp / 0x4_0000 * 0x4_0000 + cp / 0x1000 % 0x40 * 0x1000 + cp / 0x40 % 0x40 * 0x40 + cp % 0x40;
  }

  lemma {:induction false} EncodedValid(cps: seq<nat>)
    requires Scalars(cps)
    ensures ValidUtf8(Encoded(cps))
  {
    if cps != [] {
      EncodedValid(cps[1..]);
      OneScalarValid(cps[0], Encoded(cps[1..]));
    }
  }

  /** The first scalar value of a well-formed string, and how many bytes it takes. */
  lemma FirstScalar(s: seq<byte>) returns (cp: nat, n: nat)
    requires s != [] && ValidUtf8(s)
    ensures 0 < n <= |s| && Scalar(cp) && Utf8Of(cp) == s[..n] && ValidUtf8(s[n..])
  {
    var a: int := s[0];
    if a < 0x80 {
      cp, n := a, 1;
    } else if a <= 0xDF {
      var b: int := s[1];
      cp, n := (a - 0xC0) * 0x40 + (b - 0x80), 2;
      assert cp / 0x40 == a - 0xC0 && cp % 0x40 == b - 0x80;
    } else if a <= 0xEF {
      var b: int, c: int := s[1], s[2];
      cp, n := (a - 0xE0) * 0x1000 + (b - 0x80) * 0x40 + (c - 0x80), 3;
      Digits3(a - 0xE0, b - 0x80, c - 0x80);
    } else {
      var b: int, c: int, d: int := s[1], s[2], s[3];
      cp, n := (a - 0xF0) * 0x4_0000 + (b - 0x80) * 0x1000 + (c - 0x80) * 0x40 + (d - 0x80), 4;
      Digits4(a - 0xF0, b - 0x80, c - 0x80, d - 0x80);
    }
  }

  lemma Digits3(a: nat, b: nat, c: nat)
    requires b < 0x40 && c < 0x40
    ensures var x := a * 0x1000 + b * 0x40 + c; x / 0x1000 == a && x / 0x40 % 0x40 == b && x % 0x40 == c
  {
    var x := a * 0x1000 + b * 0x40 + c;
    assert x / 0x40 == a * 0x40 + b;
  }

  lemma Digits4(a: nat, b: nat, c: nat, d: nat)
    requires b < 0x40 && c < 0x40 && d < 0x40
    ensures var x := a * 0x4_0000 + b * 0x1000 + c * 0x40 + d;
            x / 0x4_0000 == a && x / 0x1000 % 0x40 == b && x / 0x40 % 0x40 == c && x % 0x40 == d
  {
    var x := a * 0x4_0000 + b * 0x1000 + c * 0x40 + d;
    assert x / 0x40 == a * 0x1000 + b * 0x40 + c;
    assert x / 0x1000 == a * 0x40 + b;
  }

  lemma {:induction false} Decoded(s: seq<byte>) returns (cps: seq<nat>)
    requires ValidUtf8(s)
    ensures Scalars(cps) && Encoded(cps) == s
    decreases |s|
  {
    if s == [] {
      cps := [];
    } else {
      var cp, n := FirstScalar(s);
      var rest := Decoded(s[n..]);
      cps := [cp] + rest;
      assert cps[1..] == rest && s == s[..n] + s[n..];
    }
  }

  /** Main theorem: exactly the encodings of scalar values are well-formed. */
  lemma ValidUtf8Iff(s: seq<byte>)
    ensures ValidUtf8(s) <==> exists cps :: Scalars(cps) && Encoded(cps) == s
  {
    if ValidUtf8(s) {
      var cps := Decoded(s);
    }
    forall cps | Scalars(cps) && Encoded(cps) == s ensures ValidUtf8(s) {
      EncodedValid(cps);
    }
  }
}
