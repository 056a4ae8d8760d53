/**
 * The bytes that `getMd5` feeds to the digest: `string.getBytes()` (the
 * platform charset, UTF-8) cut to `string.length()` bytes, where `length()`
 * counts UTF-16 code units rather than bytes.
 */
module Encoding {
  newtype byte = b: int | 0 <= b < 256

  /** A character is ASCII when UTF-8 encodes it as one byte. */
  predicate IsAscii(c: char) {
    c as int < 0x80
  }

  /** UTF-8 encoding of one Unicode scalar value. */
  function CharUtf8(c: char): (r: seq<byte>)
    ensures 1 <= |r| <= 4
    ensures |r| == 1 <==> IsAscii(c)
    ensures IsAscii(c) ==> r[0] as int == c as int
  {
    var v := c as int;
    if v < 0x80 then [v as byte]
    else if v < 0x800 then [(0xC0 + v / 0x40) as byte, (0x80 + v % 0x40) as byte]
    else if v < 0x10000 then
      [(0xE0 + v / 0x1000) as byte, (0x80 + (v / 0x40) % 0x40) as byte, (0x80 + v % 0x40) as byte]
    else
      [(0xF0 + v / 0x40000) as byte, (0x80 + (v / 0x1000) % 0x40) as byte,
       (0x80 + (v / 0x40) % 0x40) as byte, (0x80 + v % 0x40) as byte]
  }

  /** Number of UTF-16 code units of one character: Java's `length()` of it. */
  function CharUtf16Units(c: char): (n: nat)
    ensures n == 1 <==> c as int < 0x10000
    ensures 1 <= n <= 2
  {
    if c as int < 0x10000 then 1 else 2
  }

  /** Every character takes at least as many UTF-8 bytes as UTF-16 units,
      and strictly more unless it is ASCII. */
  lemma CharUnitsVersusBytes(c: char)
    ensures CharUtf16Units(c) <= |CharUtf8(c)|
    ensures CharUtf16Units(c) == |CharUtf8(c)| <==> IsAscii(c)
  {
  }

  /** `s.getBytes()` under UTF-8: one to four bytes per character, one
      exactly for each ASCII character. */
  function Utf8(s: string): (r: seq<byte>)
    ensures |s| <= |r| <= 4 * |s|
  {
    if s == [] then [] else Utf8(s[..|s| - 1]) + CharUtf8(s[|s| - 1])
  }

  /** `s.length()`: the number of UTF-16 code units of `s`. */
  function Utf16Length(s: string): (n: nat)
    ensures |s| <= n <= 2 * |s|
  {
    if s == [] then 0 else Utf16Length(s[..|s| - 1]) + CharUtf16Units(s[|s| - 1])
  }

  /** Java's `length()` never exceeds the UTF-8 byte count, and equals it
      exactly when every character is ASCII. */
  lemma {:induction false} Utf16LengthVersusUtf8(s: string)
    ensures Utf16Length(s) <= |Utf8(s)|
    ensures Utf16Length(s) == |Utf8(s)| <==> forall i :: 0 <= i < |s| ==> IsAscii(s[i])
  {
    if s != [] {
      var init, last := s[..|s| - 1], s[|s| - 1];
      Utf16LengthVersusUtf8(init);
      CharUnitsVersusBytes(last);
      if forall i :: 0 <= i < |s| ==> IsAscii(s[i]) {
        assert forall i :: 0 <= i < |init| ==> IsAscii(init[i]) by {
          forall i | 0 <= i < |init| ensures IsAscii(init[i]) { assert init[i] == s[i]; }
        }
      } else {
        var j :| 0 <= j < |s| && !IsAscii(s[j]);
        if j < |s| - 1 {
          assert init[j] == s[j];
        }
      }
    }
  }

  /** The bytes handed to `md5.update(string.getBytes(), 0, string.length())`. */
  function HashedBytes(s: string): (r: seq<byte>)
    ensures |r| == Utf16Length(s)
    ensures r <= Utf8(s)
  {
    Utf16LengthVersusUtf8(s);
    Utf8(s)[..Utf16Length(s)]
  }

  /** The digest sees the whole encoding of the URL exactly when the URL is
      pure ASCII; otherwise it sees a strict prefix. */
  lemma HashedBytesWholeIffAscii(s: string)
    ensures HashedBytes(s) == Utf8(s) <==> forall i :: 0 <= i < |s| ==> IsAscii(s[i])
    ensures |HashedBytes(s)| <= |Utf8(s)|
  {
    Utf16LengthVersusUtf8(s);
  }

  /** For an ASCII string the hashed bytes are the character codes themselves. */
  lemma {:induction false} AsciiHashedBytes(s: string)
    requires forall i :: 0 <= i < |s| ==> IsAscii(s[i])
    ensures |HashedBytes(s)| == |s|
    ensures forall i :: 0 <= i < |s| ==> HashedBytes(s)[i] as int == s[i] as int
  {
    HashedBytesWholeIffAscii(s);
    AsciiUtf8(s);
  }

  lemma {:induction false} AsciiUtf8(s: string)
    requires forall i :: 0 <= i < |s| ==> IsAscii(s[i])
    ensures |Utf8(s)| == |s|
    ensures forall i :: 0 <= i < |s| ==> Utf8(s)[i] as int == s[i] as int
  {
    if s != [] {
      var init := s[..|s| - 1];
      assert forall i :: 0 <= i < |init| ==> init[i] == s[i];
      AsciiUtf8(init);
    }
  }

  /** UTF-8 encodes a concatenation piece by piece. */
  lemma {:induction false} Utf8Append(a: string, b: string)
    ensures Utf8(a + b) == Utf8(a) + Utf8(b)
  {
    if b != [] {
      var c, init, last := a + b, b[..|b| - 1], b[|b| - 1];
      assert c[..|c| - 1] == a + init && c[|c| - 1] == last;
      calc {
        Utf8(c);
        Utf8(a + init) + CharUtf8(last);
        { Utf8Append(a, init); }
        Utf8(a) + Utf8(init) + CharUtf8(last);
        Utf8(a) + (Utf8(init) + CharUtf8(last));
        Utf8(a) + Utf8(b);
      }
    } else {
      assert a + b == a;
    }
  }

  /** Java's `length()` of a concatenation is the sum of the lengths. */
  lemma {:induction false} Utf16LengthAppend(a: string, b: string)
    ensures Utf16Length(a + b) == Utf16Length(a) + Utf16Length(b)
  {
    if b != [] {
      var c := a + b;
      assert c[..|c| - 1] == a + b[..|b| - 1];
      Utf16LengthAppend(a, b[..|b| - 1]);
    } else {
      assert a + b == a;
    }
  }
}
