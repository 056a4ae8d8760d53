/**
 * `String.format("%032x", new BigInteger(1, digest))`: the digest read as an
 * unsigned big-endian number, written in lowercase hexadecimal without
 * leading zeros, then left-padded with '0' to width 32.
 */
module Hex {
  import opened Encoding

  /** A message digest as MD5 produces it: 16 bytes. */
  type Digest = d: seq<byte> | |d| == 16 witness seq(16, _ => 0)

  function Pow(b: nat, e: nat): (r: nat)
    ensures b > 0 ==> r > 0
  {
    if e == 0 then 1 else b * Pow(b, e - 1)
  }

  lemma {:induction false} PowOf256(k: nat)
    ensures Pow(256, k) == Pow(16, 2 * k)
  {
    if k > 0 {
      PowOf256(k - 1);
      assert Pow(16, 2 * k) == 16 * (16 * Pow(16, 2 * k - 2));
    }
  }

  /** `new BigInteger(1, d)`: the magnitude `d`, most significant byte first. */
  function BytesValue(d: seq<byte>): (n: nat)
    ensures n < Pow(256, |d|)
  {
    if d == [] then 0 else BytesValue(d[..|d| - 1]) * 256 + d[|d| - 1] as nat
  }

  /** Two byte strings of the same length with the same value are equal. */
  lemma {:induction false} BytesValueInjective(d1: seq<byte>, d2: seq<byte>)
    requires |d1| == |d2|
    requires BytesValue(d1) == BytesValue(d2)
    ensures d1 == d2
  {
    if d1 != [] {
      var n := |d1| - 1;
      var a1, a2 := BytesValue(d1[..n]), BytesValue(d2[..n]);
      assert a1 * 256 + d1[n] as nat == a2 * 256 + d2[n] as nat;
      assert d1[n] == d2[n] && a1 == a2 by {
        DivModUnique(a1, d1[n] as nat, a2, d2[n] as nat);
      }
      BytesValueInjective(d1[..n], d2[..n]);
      assert d1 == d1[..n] + [d1[n]] && d2 == d2[..n] + [d2[n]];
    }
  }

  lemma DivModUnique(a1: nat, b1: nat, a2: nat, b2: nat)
    requires b1 < 256 && b2 < 256
    requires a1 * 256 + b1 == a2 * 256 + b2
    ensures a1 == a2 && b1 == b2
  {
    var n := a1 * 256 + b1;
    assert a1 == n / 256 && b1 == n % 256;
    assert a2 == n / 256 && b2 == n % 256;
  }

  /** The lowercase hexadecimal digit for `v`, as `%x` writes it. */
  function Digit(v: nat): (c: char)
    requires v < 16
    ensures IsHexDigit(c)
  {
    if v < 10 then ('0' as int + v) as char else ('a' as int + v - 10) as char
  }

  /** The characters `%x` may produce: '0'..'9' and 'a'..'f', never upper case. */
  predicate IsHexDigit(c: char) {
    '0' <= c <= '9' || 'a' <= c <= 'f'
  }

  predicate IsLowerHex(s: string) {
    forall i :: 0 <= i < |s| ==> IsHexDigit(s[i])
  }

  /** Value of one hexadecimal digit; the inverse of `Digit`. */
  function DigitValue(c: char): (v: nat)
    ensures v < 16
    ensures IsHexDigit(c) ==> Digit(v) == c
  {
    if '0' <= c <= '9' then c as int - '0' as int
    else if 'a' <= c <= 'f' then c as int - 'a' as int + 10
    else 0
  }

  /** Reading a hexadecimal string back as a number (the decoder of `%x`). */
  function HexValue(s: string): nat
  {
    if s == [] then 0 else HexValue(s[..|s| - 1]) * 16 + DigitValue(s[|s| - 1])
  }

  /** `BigInteger.toString(16)` of a non-negative number: no leading zeros,
      "0" for zero. */
  function ToHex(n: nat): (r: string)
    ensures |r| >= 1 && IsLowerHex(r)
    ensures HexValue(r) == n
    ensures |r| > 1 ==> r[0] != '0'
    decreases n
  {
    if n < 16 then [Digit(n)]
    else
      var r := ToHex(n / 16) + [Digit(n % 16)];
      assert r[..|r| - 1] == ToHex(n / 16);
      r
  }

  /** A number below 16^k needs at most k hexadecimal digits. */
  lemma {:induction false} ToHexLength(n: nat, k: nat)
    requires 1 <= k && n < Pow(16, k)
    ensures |ToHex(n)| <= k
  {
    if n >= 16 {
      assert Pow(16, 1) == 16;
      ToHexLength(n / 16, k - 1);
    }
  }

  /** The `0` flag with a width: pad on the left with '0' up to `width`. */
  function ZeroPad(s: string, width: nat): (r: string)
    ensures |r| == if |s| >= width then |s| else width
    ensures r[|r| - |s|..] == s
    ensures forall i :: 0 <= i < |r| - |s| ==> r[i] == '0'
  {
    if |s| >= width then s else seq(width - |s|, _ => '0') + s
  }

  /** Leading zeros do not change the value read back. */
  lemma {:induction false} LeadingZerosValue(z: string, s: string)
    requires forall i :: 0 <= i < |z| ==> z[i] == '0'
    ensures HexValue(z + s) == HexValue(s)
    decreases |s|, |z|
  {
    if s == [] {
      if z != [] {
        assert z + s == z;
        assert z[..|z| - 1] + [] == z[..|z| - 1];
        LeadingZerosValue(z[..|z| - 1], []);
      }
    } else {
      var init := s[..|s| - 1];
      assert (z + s)[..|z + s| - 1] == z + init;
      LeadingZerosValue(z, init);
    }
  }

  /** `String.format("%032x", new BigInteger(1, d))`: at least 32 lowercase
      hexadecimal characters that read back to the value of `d`. */
  function Format032x(d: seq<byte>): (r: string)
    ensures |r| >= 32 && IsLowerHex(r)
    ensures HexValue(r) == BytesValue(d)
  {
    var h := ToHex(BytesValue(d));
    var r := ZeroPad(h, 32);
    LeadingZerosValue(r[..|r| - |h|], h);
    assert r == r[..|r| - |h|] + h;
    r
  }

  /** For a 16-byte digest the rendering is exactly 32 characters: the value
      is below 256^16 = 16^32, so it needs no more than 32 digits. */
  lemma DigestHexShape(d: Digest)
    ensures |Format032x(d)| == 32
    ensures IsLowerHex(Format032x(d))
    ensures HexValue(Format032x(d)) == BytesValue(d)
  {
    PowOf256(16);
    ToHexLength(BytesValue(d), 32);
  }

  /** Distinct digests render as distinct strings. */
  lemma DigestHexInjective(d1: Digest, d2: Digest)
    requires Format032x(d1) == Format032x(d2)
    ensures d1 == d2
  {
    DigestHexShape(d1);
    DigestHexShape(d2);
    BytesValueInjective(d1, d2);
  }

  /** An all-zero digest renders as 32 zeros: the padding is on the left. */
  lemma ZeroDigestHex()
    ensures Format032x(seq(16, _ => 0 as byte)) == seq(32, _ => '0')
  {
    var d: seq<byte> := seq(16, _ => 0 as byte);
    assert BytesValue(d) == 0 by {
      ZeroBytesValue(d);
    }
  }

  lemma {:induction false} ZeroBytesValue(d: seq<byte>)
    requires forall i :: 0 <= i < |d| ==> d[i] == 0
    ensures BytesValue(d) == 0
  {
    if d != [] {
      ZeroBytesValue(d[..|d| - 1]);
    }
  }
}
