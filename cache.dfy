/**
 * The cache-hit rule of `getCachedImageSource` and the bypass of
 * `getRemoteImageSource`, first as a pure step over the cache directory's
 * contents, then as the mutable directory and network those methods act on.
 */
module Cache {
  import opened Wrappers
  import opened Encoding
  import opened Hex
  import opened Naming
  import opened Paths

  /** The files directly inside the cache directory, by entry name. */
  type Files = map<string, seq<byte>>

  /** The library never creates subdirectories, so every entry is a plain
      file whose name holds no '/'. */
  predicate AllPlain(files: Files) {
    forall n :: n in files ==> IsEntryName(n)
  }

  /** `new File(getCacheDir(), name).exists()`: the name denotes an entry
      directly in the directory, and that entry is there. A name reaching into
      a subdirectory never exists, since the library creates none. */
  predicate FileExists(files: Files, name: string) {
    Entry(name).Some? && Entry(name).value in files
  }

  /** What `new URL(url).openStream()` and reading that stream yield. */
  datatype Response =
    | Refused                                  // `new URL` or `openStream` throws
    | Body(bytes: seq<byte>, complete: bool)   // bytes read; when not complete, the next read throws

  /** What `ImageSource.create` is given. */
  datatype Source = CachedFile(name: string) | RemoteStream(bytes: seq<byte>)

  /** The `IOException`s of a load. */
  datatype IOError =
    | MalformedUrl   // `new URL(null)`
    | OpenFailed     // `new URL(url).openStream()` threw
    | NoSuchFile     // `Files.copy` cannot create a file under a missing subdirectory
    | ReadFailed     // the stream broke during `Files.copy`

  /** How the background task of `loadImage` ends. */
  datatype Outcome =
    | Ready(source: Source)          // an image source exists; the bitmap is delivered
    | Abandoned(io: IOError)         // caught at `catch (IOException e)` and logged
    | Crashed(error: RuntimeError)   // escapes the task: not an `IOException`

  /** One background load: the directory afterwards, whether
      `new URL(url).openStream()` was evaluated, and how the load ended. */
  datatype Step = Step(files: Files, requested: bool, outcome: Outcome)

  /** `Files.copy(stream, new File(getCacheDir(), name).toPath(), REPLACE_EXISTING)`
      for a stream that yields `bytes`: the file is written with whatever was
      read, even when the read broke; only the denoted entry changes. */
  function CopyReplacing(files: Files, name: string, bytes: seq<byte>, complete: bool): (s: Step)
    ensures s.requested
    ensures forall n :: n in files && Entry(name) != Some(n) ==> n in s.files && s.files[n] == files[n]
    ensures forall n :: n in s.files ==> n in files || Entry(name) == Some(n)
    ensures Entry(name).Some? ==> Entry(name).value in s.files && s.files[Entry(name).value] == bytes
    ensures Entry(name).Some? ==> (s.outcome.Ready? <==> complete)
    ensures Entry(name).None? ==> s.files == files && s.outcome == Abandoned(NoSuchFile)
  {
    match Entry(name)
    case None => Step(files, true, Abandoned(NoSuchFile))
    case Some(e) =>
      Step(files[e := bytes], true, if complete then Ready(CachedFile(e)) else Abandoned(ReadFailed))
  }

  /** `getCachedImageSource()`: reuse the named file if it exists, otherwise
      fetch the URL into it. The load dies before any request exactly when
      there is no cache file name; a request is made exactly when the file
      does not exist; nothing is written without a request; existing entries
      are never changed; and a successful load reads a file that is there. */
  function CachedImageSource(url: Option<string>, p: DigestProvider, files: Files, r: Response): (s: Step)
    ensures s.outcome.Crashed? <==> url.None? || '.' !in url.value
    ensures s.requested <==>
      url.Some? && '.' in url.value && !FileExists(files, CacheFileName(url.value, p).value)
    ensures !s.requested ==> s.files == files
    ensures forall n :: n in files ==> n in s.files && s.files[n] == files[n]
    ensures s.outcome.Ready? ==> s.outcome.source.CachedFile? && s.outcome.source.name in s.files
    ensures forall n :: n in s.files && n !in files ==>
      url.Some? && CacheFileName(url.value, p).Success? && Entry(CacheFileName(url.value, p).value) == Some(n)
    ensures AllPlain(files) ==> AllPlain(s.files)
  {
    match url
    case None => Step(files, false, Crashed(NullPointer))
    case Some(u) =>
      match CacheFileName(u, p)
      case Failure(e) => Step(files, false, Crashed(e))
      case Success(name) =>
        if FileExists(files, name) then Step(files, false, Ready(CachedFile(Entry(name).value)))
        else match r
          case Refused => Step(files, true, Abandoned(OpenFailed))
          case Body(bytes, complete) => CopyReplacing(files, name, bytes, complete)
  }

  /** `getRemoteImageSource()`: read straight from the network. The directory
      is left alone, every load with a URL evaluates `openStream`, and the
      image comes from the stream exactly when it opened. */
  function RemoteImageSource(url: Option<string>, files: Files, r: Response): (s: Step)
    ensures s.files == files
    ensures s.requested <==> url.Some?
    ensures s.outcome.Ready? <==> url.Some? && r.Body?
    ensures s.outcome.Ready? ==> s.outcome.source == RemoteStream(r.bytes)
  {
    match url
    case None => Step(files, false, Abandoned(MalformedUrl))
    case Some(_) =>
      match r
      case Refused => Step(files, true, Abandoned(OpenFailed))
      case Body(bytes, _) => Step(files, true, Ready(RemoteStream(bytes)))
  }

  /** `cacheEnabled ? getCachedImageSource() : getRemoteImageSource()`. A load
      never changes an existing entry, adds only the entry its cache file name
      denotes and only after a request, and keeps the directory plain. */
  function BackgroundStep(enabled: bool, url: Option<string>, p: DigestProvider, files: Files, r: Response): (s: Step)
    ensures forall n :: n in files ==> n in s.files && s.files[n] == files[n]
    ensures forall n :: n in s.files && n !in files ==>
      && enabled && url.Some? && CacheFileName(url.value, p).Success?
      && Entry(CacheFileName(url.value, p).value) == Some(n) && s.requested
    ensures AllPlain(files) ==> AllPlain(s.files)
  {
    if enabled then CachedImageSource(url, p, files, r) else RemoteImageSource(url, files, r)
  }

  /** Cache hit: the named file exists, so nothing is requested, the directory
      is unchanged, and the image comes from that file, whatever the network
      would have answered. */
  lemma CacheHit(u: string, p: DigestProvider, files: Files, r: Response)
    requires CacheFileName(u, p).Success? && FileExists(files, CacheFileName(u, p).value)
    ensures BackgroundStep(true, Some(u), p, files, r)
      == Step(files, false, Ready(CachedFile(Entry(CacheFileName(u, p).value).value)))
  {
  }

  /** Cache miss: exactly one request; afterwards the entry the name denotes
      maps to the bytes read, every other entry is as before, and the load
      succeeds exactly when the whole body was read. */
  lemma CacheMiss(u: string, p: DigestProvider, files: Files, bytes: seq<byte>, complete: bool)
    requires CacheFileName(u, p).Success?
    requires Entry(CacheFileName(u, p).value).Some? && !FileExists(files, CacheFileName(u, p).value)
    ensures var e := Entry(CacheFileName(u, p).value).value;
      var s := BackgroundStep(true, Some(u), p, files, Body(bytes, complete));
      && s.requested
      && s.files == files[e := bytes]
      && (s.outcome.Ready? <==> complete)
      && (complete ==> s.outcome == Ready(CachedFile(e)))
  {
    var name := CacheFileName(u, p).value;
    assert BackgroundStep(true, Some(u), p, files, Body(bytes, complete))
      == CopyReplacing(files, name, bytes, complete);
  }

  /** Cache miss with an unreachable server: one request, nothing written. */
  lemma CacheMissRefused(u: string, p: DigestProvider, files: Files)
    requires CacheFileName(u, p).Success? && !FileExists(files, CacheFileName(u, p).value)
    ensures BackgroundStep(true, Some(u), p, files, Refused) == Step(files, true, Abandoned(OpenFailed))
  {
  }

  /** A URL without '.' has no cache file name: the load dies with an
      unchecked exception before any request, and nothing is written. With
      no URL at all it dies the same way. */
  lemma NoDotCrashes(u: string, p: DigestProvider, files: Files, r: Response)
    requires '.' !in u
    ensures BackgroundStep(true, Some(u), p, files, r) == Step(files, false, Crashed(StringIndexOutOfBounds))
    ensures BackgroundStep(true, None, p, files, r) == Step(files, false, Crashed(NullPointer))
  {
  }

  /** Caching disabled: the directory is neither read nor written (the step
      does not depend on it and leaves it as it was), the digest is not used,
      and every load with a URL evaluates `openStream`. */
  lemma CacheDisabledBypass(url: Option<string>, p1: DigestProvider, p2: DigestProvider,
                            files1: Files, files2: Files, r: Response)
    ensures BackgroundStep(false, url, p1, files1, r).files == files1
    ensures BackgroundStep(false, url, p1, files1, r).requested <==> url.Some?
    ensures BackgroundStep(false, url, p1, files1, r).outcome == BackgroundStep(false, url, p2, files2, r).outcome
  {
  }

  /** With the cache disabled a URL without '.' loads normally. */
  lemma CacheDisabledNeedsNoDot(u: string, p: DigestProvider, files: Files, bytes: seq<byte>, complete: bool)
    requires '.' !in u
    ensures BackgroundStep(false, Some(u), p, files, Body(bytes, complete)).outcome == Ready(RemoteStream(bytes))
  {
  }

  /** Round trip: after a load that succeeded with caching enabled, loading the
      same URL again makes no request, changes nothing and yields the same
      source, whatever the network would answer now. */
  lemma SecondLoadHits(u: string, p: DigestProvider, files: Files, r1: Response, r2: Response)
    requires BackgroundStep(true, Some(u), p, files, r1).outcome.Ready?
    ensures var s1 := BackgroundStep(true, Some(u), p, files, r1);
      BackgroundStep(true, Some(u), p, s1.files, r2) == Step(s1.files, false, s1.outcome)
  {
  }

  /** A transfer that broke midway leaves a truncated file that every later
      load takes as a hit: the entry is never checked or replaced. */
  lemma TruncatedEntryIsReused(u: string, p: DigestProvider, files: Files, bytes: seq<byte>, r2: Response)
    requires CacheFileName(u, p).Success?
    requires Entry(CacheFileName(u, p).value).Some? && !FileExists(files, CacheFileName(u, p).value)
    ensures var e := Entry(CacheFileName(u, p).value).value;
      var s1 := BackgroundStep(true, Some(u), p, files, Body(bytes, false));
      && s1.outcome == Abandoned(ReadFailed)
      && e in s1.files && s1.files[e] == bytes
      && BackgroundStep(true, Some(u), p, s1.files, r2) == Step(s1.files, false, Ready(CachedFile(e)))
  {
    var name := CacheFileName(u, p).value;
    var e := Entry(name).value;
    CacheMiss(u, p, files, bytes, false);
    var s1 := BackgroundStep(true, Some(u), p, files, Body(bytes, false));
    assert s1 == CopyReplacing(files, name, bytes, false);
    assert e in s1.files;
    CacheHit(u, p, s1.files, r2);
  }

  /** A cache file name that reaches into a subdirectory names a file under a
      directory that does not exist: every load misses, makes a request, and
      writes nothing. */
  lemma NestedNameNeverCached(u: string, p: DigestProvider, files: Files, r: Response)
    requires CacheFileName(u, p).Success? && Entry(CacheFileName(u, p).value).None?
    ensures var s := BackgroundStep(true, Some(u), p, files, r);
      s.requested && s.files == files && !s.outcome.Ready?
  {
  }

  /** A '/' inside the extension, with a character other than '/' after it
      somewhere, puts the cache file under a subdirectory (the name never
      starts with '/': it starts with a hex digit, or with the URL itself). */
  lemma InnerSlashNests(u: string, p: DigestProvider, j: nat, k: nat)
    requires '.' in u && (p.Md5Unavailable? ==> u[0] != '/')
    requires var ext := Extension(u).value;
      0 < j < k < |ext| && ext[j] == '/' && ext[k] != '/'
    ensures Entry(CacheFileName(u, p).value).None?
  {
    var ext := Extension(u).value;
    var stem := GetMd5(u, p);
    var name := CacheFileName(u, p).value;
    assert name == stem + ext;
    if p.Md5? {
      assert IsHexDigit(stem[0]);
    } else {
      assert stem == u;
    }
    AppendedSlashIsNested(stem, ext, j, k);
  }

  /** The sample application's URL is such a URL: its extension holds the
      path, so with caching enabled it is fetched on every load and the load
      never produces an image, with or without MD5. */
  lemma SampleUrlNeverCached(p: DigestProvider, files: Files, r: Response)
    ensures var s := BackgroundStep(true, Some(SampleUrl), p, files, r);
      s.requested && s.files == files && !s.outcome.Ready?
  {
    SampleUrlExtension();
    InnerSlashNests(SampleUrl, p, 4, |Extension(SampleUrl).value| - 1);
    NestedNameNeverCached(SampleUrl, p, files, r);
  }

  /** A URL whose extension ends in '/': `https://example.com/`. */
  const ExampleHost: string := "https://example"
  const ExampleUrl: string := ExampleHost + ".com/"

  /** A URL ending in "/": `java.io.File` drops the trailing '/', so
      `https://example.com/` is cached in the plain file `<md5>.com`, written
      on the first load and reused on the next. */
  lemma TrailingSlashUrlCached(p: DigestProvider, files: Files, bytes: seq<byte>, r2: Response)
    requires p.Md5? && GetMd5(ExampleUrl, p) + ".com" !in files
    ensures var u, e := ExampleUrl, GetMd5(ExampleUrl, p) + ".com";
      var s1 := BackgroundStep(true, Some(u), p, files, Body(bytes, true));
      && s1 == Step(files[e := bytes], true, Ready(CachedFile(e)))
      && BackgroundStep(true, Some(u), p, s1.files, r2) == Step(s1.files, false, Ready(CachedFile(e)))
  {
    var u, e := ExampleUrl, GetMd5(ExampleUrl, p) + ".com";
    ExampleUrlEntry(p);
    var s1 := BackgroundStep(true, Some(u), p, files, Body(bytes, true));
    assert s1 == CopyReplacing(files, CacheFileName(u, p).value, bytes, true);
    assert FileExists(s1.files, CacheFileName(u, p).value);
  }

  /** The cache file name of `https://example.com/` is `<md5>.com/`, which
      denotes the plain entry `<md5>.com`. */
  lemma ExampleUrlEntry(p: DigestProvider)
    requires p.Md5?
    ensures var u := ExampleUrl;
      var e := GetMd5(u, p) + ".com";
      && CacheFileName(u, p) == Success(e + "/")
      && Entry(e + "/") == Some(e)
  {
    var u := ExampleUrl;
    ExtensionIsDotTail(u, ExampleHost, ".com/");
    assert CacheFileName(u, p) == Success(GetMd5(u, p) + ".com/");
    assert GetMd5(u, p) + ".com/" == GetMd5(u, p) + ".com" + "/";
    HexStemEntry(GetMd5(u, p), ".com");
  }

  /** A hex stem followed by a slash-free rest and one trailing '/' denotes the
      plain entry without that '/'. */
  lemma HexStemEntry(stem: string, rest: string)
    requires IsLowerHex(stem) && IsEntryName(rest)
    ensures Entry(stem + rest + "/") == Some(stem + rest)
  {
    var e := stem + rest;
    assert forall i :: 0 <= i < |stem| ==> e[i] == stem[i];
    assert forall i :: |stem| <= i < |e| ==> e[i] == rest[i - |stem|];
    assert e + "/" == e + seq(1, _ => '/');
    EntryDropsTrailingSlashes(e, 1);
  }

  /** The application's cache directory, `getCacheDir()`. */
  class CacheDir {
    var files: Files

    ghost predicate Valid()
      reads this
    {
      AllPlain(files)
    }

    constructor (files: Files)
      requires AllPlain(files)
      ensures Valid() && this.files == files
    {
      this.files := files;
    }

    /** `new File(getCacheDir(), name).exists()`. */
    method Exists(name: string) returns (b: bool)
      requires Valid()
      ensures b <==> FileExists(files, name)
      ensures b ==> Entry(name).Some? && Entry(name).value in files
    {
      var e := Entry(name);
      b := e.Some? && e.value in files;
    }

    /** `Files.copy(stream, new File(getCacheDir(), name).toPath(), REPLACE_EXISTING)`. */
    method Copy(name: string, bytes: seq<byte>, complete: bool) returns (failure: Option<IOError>)
      requires Valid()
      modifies this
      ensures Valid()
      ensures var s := CopyReplacing(old(files), name, bytes, complete);
        files == s.files && (failure.None? <==> s.outcome.Ready?)
        && (failure.Some? ==> s.outcome == Abandoned(failure.value))
    {
      var s := CopyReplacing(files, name, bytes, complete);
      files := s.files;
      failure := if s.outcome.Abandoned? then Some(s.outcome.io) else None;
    }
  }

  /** The network, as seen through `new URL(url).openStream()`: `respond(u, k)`
      is the answer to evaluation number `k`, and `requests` counts them. */
  class Network {
    const respond: (string, nat) -> Response
    var requests: nat

    constructor (respond: (string, nat) -> Response)
      ensures this.respond == respond && requests == 0
    {
      this.respond := respond;
      requests := 0;
    }

    method OpenStream(u: string) returns (r: Response)
      modifies this
      ensures requests == old(requests) + 1 && r == respond(u, old(requests))
    {
      r := respond(u, requests);
      requests := requests + 1;
    }
  }

  /** The answer the next request for `url` would get. */
  function NextResponse(respond: (string, nat) -> Response, requests: nat, url: Option<string>): Response
  {
    if url.Some? then respond(url.value, requests) else Refused
  }
}
