/**
 * Cache file naming: `getCacheFileName(url) = getMd5(url) + extension`, where
 * the extension is `url.substring(url.lastIndexOf("."))`.
 */
module Naming {
  import opened Wrappers
  import opened Encoding
  import opened Hex

  /** Whether `MessageDigest.getInstance("MD5")` succeeds, and if so the MD5
      function itself, which this model leaves uninterpreted. */
  datatype DigestProvider = Md5Unavailable | Md5(digest: seq<byte> -> Digest)

  /** The unchecked exceptions naming can throw; `catch (IOException e)`
      in `loadImage` does not handle them. */
  datatype RuntimeError = StringIndexOutOfBounds | NullPointer

  /** `getMd5(string)`: the digest of the hashed bytes as 32 lowercase hex
      characters, or the input itself when MD5 is unavailable. */
  function GetMd5(s: string, p: DigestProvider): (r: string)
    ensures p.Md5? ==> |r| == 32 && IsLowerHex(r)
    ensures p.Md5? ==> HexValue(r) == BytesValue(p.digest(HashedBytes(s)))
    ensures p.Md5Unavailable? ==> r == s
  {
    match p
    case Md5Unavailable => s
    case Md5(digest) =>
      DigestHexShape(digest(HashedBytes(s)));
      Format032x(digest(HashedBytes(s)))
  }

  /** With MD5 available, two URLs get the same name stem only if MD5 maps
      their hashed bytes to the same digest. */
  lemma GetMd5Injective(s1: string, s2: string, p: DigestProvider)
    requires p.Md5?
    requires GetMd5(s1, p) == GetMd5(s2, p)
    ensures p.digest(HashedBytes(s1)) == p.digest(HashedBytes(s2))
  {
    DigestHexInjective(p.digest(HashedBytes(s1)), p.digest(HashedBytes(s2)));
  }

  /** The stem is deterministic in the hashed bytes: two URLs whose hashed
      prefixes agree get the same stem, even if the URLs differ. */
  lemma GetMd5SeesOnlyHashedBytes(s1: string, s2: string, p: DigestProvider)
    requires p.Md5?
    requires HashedBytes(s1) == HashedBytes(s2)
    ensures GetMd5(s1, p) == GetMd5(s2, p)
  {
  }

  /** `s.lastIndexOf(c)`: the largest index holding `c`, or -1 when there is none. */
  function LastIndexOf(s: string, c: char): (i: int)
    ensures -1 <= i < |s|
    ensures i >= 0 ==> s[i] == c
    ensures forall j :: i < j < |s| ==> s[j] != c
  {
    if s == [] then -1
    else if s[|s| - 1] == c then |s| - 1
    else LastIndexOf(s[..|s| - 1], c)
  }

  /** A character is absent from the part of `s` after index `i`. */
  predicate NoneAfter(s: string, i: int, c: char) {
    forall j :: 0 <= j < |s| && i < j ==> s[j] != c
  }

  /** `s.substring(begin)`, which throws for a negative `begin`. */
  function Substring(s: string, begin: int): (r: Result<string, RuntimeError>)
    ensures r.Success? <==> 0 <= begin <= |s|
    ensures r.Success? ==> r.value == s[begin..]
  {
    if 0 <= begin <= |s| then Success(s[begin..]) else Failure(StringIndexOutOfBounds)
  }

  /** `url.substring(url.lastIndexOf("."))`. It exists exactly when the URL
      has a '.'; it then starts with that '.', holds no other '.', and is what
      follows the last '.' in the URL. Nothing else is stripped: '/', '?' and
      '&' stay in it. */
  function Extension(url: string): (r: Result<string, RuntimeError>)
    ensures r.Success? <==> '.' in url
    ensures r.Success? ==>
      && 1 <= |r.value| <= |url| && r.value[0] == '.' && NoneAfter(r.value, 0, '.')
      && url == url[..|url| - |r.value|] + r.value
    ensures r.Failure? ==> r.error == StringIndexOutOfBounds
  {
    var i := LastIndexOf(url, '.');
    if i >= 0 then
      var ext := url[i..];
      assert forall j :: 0 < j < |ext| ==> ext[j] == url[i + j];
      assert url == url[..i] + ext;
      Substring(url, i)
    else
      Substring(url, i)
  }

  /** The extension is determined by its shape: whatever split of the URL ends
      in a '.'-initial, otherwise '.'-free tail, that tail is the extension. */
  lemma ExtensionIsDotTail(url: string, prefix: string, ext: string)
    requires url == prefix + ext
    requires |ext| >= 1 && ext[0] == '.' && NoneAfter(ext, 0, '.')
    ensures Extension(url) == Success(ext)
  {
    assert url[|prefix|] == '.';
    assert forall j :: |prefix| < j < |url| ==> url[j] == ext[j - |prefix|];
    assert url[|prefix|..] == ext;
  }

  /** `getCacheFileName(url)`. */
  function CacheFileName(url: string, p: DigestProvider): (r: Result<string, RuntimeError>)
    ensures r.Success? <==> '.' in url
    ensures r.Failure? ==> r.error == StringIndexOutOfBounds
    ensures r.Success? ==> Extension(url).Success? && r.value == GetMd5(url, p) + Extension(url).value
  {
    match Extension(url)
    case Failure(e) => Failure(e)
    case Success(ext) => Success(GetMd5(url, p) + ext)
  }

  /** With MD5 available the name is 32 lowercase hex characters followed by
      the extension; the stem never holds '/' or '.', so the name holds '/'
      exactly when the extension does. */
  lemma CacheFileNameShape(url: string, p: DigestProvider)
    requires p.Md5? && '.' in url
    ensures var name := CacheFileName(url, p).value;
      && |name| > 32
      && IsLowerHex(name[..32])
      && name[32..] == Extension(url).value
      && name[32] == '.'
      && ('/' in name <==> '/' in Extension(url).value)
  {
    var name := CacheFileName(url, p).value;
    var stem, ext := GetMd5(url, p), Extension(url).value;
    assert name == stem + ext;
    assert name[..32] == stem && name[32..] == ext;
    assert forall k :: 0 <= k < 32 ==> name[k] == stem[k];
    assert forall k :: 32 <= k < |name| ==> name[k] == ext[k - 32];
  }

  /** Two URLs with the same cache file name under MD5 have the same
      extension and digests that collide. */
  lemma CacheFileNameCollision(u1: string, u2: string, p: DigestProvider)
    requires p.Md5? && '.' in u1 && '.' in u2
    requires CacheFileName(u1, p) == CacheFileName(u2, p)
    ensures Extension(u1) == Extension(u2)
    ensures p.digest(HashedBytes(u1)) == p.digest(HashedBytes(u2))
  {
    CacheFileNameShape(u1, p);
    CacheFileNameShape(u2, p);
    var n := CacheFileName(u1, p).value;
    assert GetMd5(u1, p) == n[..32] == GetMd5(u2, p);
    GetMd5Injective(u1, u2, p);
  }

  /** The sample application's image URL, written in three pieces: the host
      up to its last '.', the path, and the query. */
  const SampleHost: string := "https://images.unsplash"
  const SamplePath: string := ".com/photo-1623850015197"
  const SampleQuery: string := "-9aa664d33e66?fit=crop&w=640&q=80"
  const SampleUrl: string := SampleHost + SamplePath + SampleQuery

  /** For the sample URL the last '.' is the one in "unsplash.com", so the
      extension is the whole rest of the URL, path and query included. */
  lemma SampleUrlExtension()
    ensures Extension(SampleUrl) == Success(SamplePath + SampleQuery)
    ensures '/' in Extension(SampleUrl).value
    ensures '.' in SampleUrl && SampleUrl[0] == 'h'
    ensures var ext := Extension(SampleUrl).value; |ext| > 5 && ext[4] == '/' && ext[|ext| - 1] != '/'
  {
    var ext := SamplePath + SampleQuery;
    SampleExtensionHasNoOtherDot();
    SampleExtensionHasSlash();
    ExtensionIsDotTail(SampleUrl, SampleHost, ext);
  }

  lemma SampleExtensionHasNoOtherDot()
    ensures (SamplePath + SampleQuery)[0] == '.' && NoneAfter(SamplePath + SampleQuery, 0, '.')
  {
    assert '.' !in SamplePath[1..];
    assert '.' !in SampleQuery;
  }

  lemma SampleExtensionHasSlash()
    ensures (SamplePath + SampleQuery)[4] == '/'
    ensures var ext := SamplePath + SampleQuery; |ext| > 5 && ext[|ext| - 1] != '/'
    ensures SampleUrl[0] == 'h'
  {
  }

  /** The sample URL is pure ASCII, so its digest covers its whole encoding. */
  lemma SampleUrlIsAscii()
    ensures forall i :: 0 <= i < |SampleUrl| ==> IsAscii(SampleUrl[i])
    ensures HashedBytes(SampleUrl) == Utf8(SampleUrl)
  {
    assert forall i :: 0 <= i < |SampleHost| ==> IsAscii(SampleHost[i]);
    assert forall i :: 0 <= i < |SamplePath| ==> IsAscii(SamplePath[i]);
    assert forall i :: 0 <= i < |SampleQuery| ==> IsAscii(SampleQuery[i]);
    HashedBytesWholeIffAscii(SampleUrl);
  }

  /** Because only `length()` bytes are hashed, two different URLs can share a
      cache file whatever MD5 does: "€€.aX.a" and "€€.aY.a" both have
      `length()` 7, the same first 7 UTF-8 bytes (E2 82 AC E2 82 AC 2E), and
      the extension ".a". */
  lemma DistinctUrlsShareCacheFile(p: DigestProvider)
    requires p.Md5?
    ensures var u1, u2 := "€€.aX.a", "€€.aY.a";
      u1 != u2 && CacheFileName(u1, p).Success? && CacheFileName(u1, p) == CacheFileName(u2, p)
  {
    var head := "€€.";
    var u1, u2 := head + "aX.a", head + "aY.a";
    assert u1 == "€€.aX.a" && u2 == "€€.aY.a";
    assert u1[4] != u2[4];
    WitnessLengths();
    Utf16LengthAppend(head, "aX.a");
    Utf16LengthAppend(head, "aY.a");
    HashedBytesOfPrefix(head, "aX.a");
    HashedBytesOfPrefix(head, "aY.a");
    ExtensionIsDotTail(u1, "€€.aX", ".a");
    ExtensionIsDotTail(u2, "€€.aY", ".a");
  }

  /** "€€." is 3 UTF-16 units but 7 UTF-8 bytes; "aX.a" and "aY.a" are 4 units. */
  lemma WitnessLengths()
    ensures Utf16Length("€€.") == 3 && |Utf8("€€.")| == 7
    ensures Utf16Length("aX.a") == 4 && Utf16Length("aY.a") == 4
  {
    assert "€€."[..2] == "€€" && "€€"[..1] == "€";
    assert "aX.a"[..3] == "aX." && "aX."[..2] == "aX" && "aX"[..1] == "a";
    assert "aY.a"[..3] == "aY." && "aY."[..2] == "aY" && "aY"[..1] == "a";
  }

  /** When the UTF-16 length of `head + tail` equals the UTF-8 length of
      `head`, the hashed bytes are exactly the encoding of `head`. */
  lemma HashedBytesOfPrefix(head: string, tail: string)
    requires Utf16Length(head + tail) == |Utf8(head)|
    ensures HashedBytes(head + tail) == Utf8(head)
  {
    Utf8Append(head, tail);
  }
}
