# HarmonyOS ImageLoader: a Dafny model of its cache rule

`ImageLoader` is a fluent builder. `with(ability).load(url)[.disableCache()].into(image)`
fetches an image over HTTP(S) and decodes it off the UI thread. It then hands the pixel map to an `Image`
widget. With caching on, the raw bytes are kept in the ability's cache directory. The file name there is
the MD5 of the URL followed by the URL's "extension". A file that exists is reused, and a missing one is
fetched and written.

The model has seven modules, one per concern of `ImageLoader.java`:

- `Wrappers`: `Option` (Java `null`) and `Result` (a thrown exception).
- `Encoding`: the bytes `getMd5` hashes. `string.getBytes()` is taken as UTF-8, the platform charset.
  It is cut to `string.length()` bytes, and `length()` counts UTF-16 code units, not bytes. The digest
  therefore sees the whole encoding exactly when the URL is ASCII, and a strict prefix otherwise.
- `Hex`: `String.format("%032x", new BigInteger(1, digest))`. This is the unsigned big-endian value in
  lowercase hex, left-padded with `0` to 32 characters. It is always 32 lowercase hex characters, it
  reads back to the digest's value, and it is injective on 16-byte digests.
- `Naming`: `getMd5` and `getCacheFileName`. MD5 is a function-valued parameter that the model leaves
  uninterpreted (`DigestProvider.Md5`). `Md5Unavailable` stands for `NoSuchAlgorithmException`, and then
  the input comes back unchanged. The extension is `url.substring(url.lastIndexOf("."))`. It starts at the
  last `.`, holds no other `.`, and is not normalised. A URL without `.` makes `substring(-1)` throw, which
  is an unchecked exception.
- `Paths`: which entry of the cache directory `new File(getCacheDir(), name)` denotes. On a Unix
  file system `java.io.File` merges runs of `/` and drops a trailing `/`, so `a/` denotes the entry `a`,
  while a `/` that is not leading and has a character other than `/` somewhere after it reaches into a
  subdirectory (`a/b` and `a/b/` both do).
- `Cache`: the hit/miss/bypass rule as a pure step (`BackgroundStep`) over the directory's contents and a
  response from the network. It also has the mutable `CacheDir` (a map from file name to bytes) and the
  `Network` (answers plus a request counter) that the builder's methods act on.
- `Loader`: the `ImageLoader` class with fields `url`, `image` and `cacheEnabled`, its setters, and `Into`.
  `Into` runs the background task and its UI step synchronously.

Three consequences of the code as written are proved rather than assumed:

- The cache file name can hold `/`, because the extension is not normalised. A `/` in the extension
  with a character other than `/` somewhere after it puts `new File(getCacheDir(), name)` in a
  subdirectory that nothing creates; a trailing `/` after that does not change this.
  `exists()` is false, the URL is opened, and `Files.copy` fails with an `IOException` that is caught
  and logged. Such a URL is opened on every load, and the load never produces an image
  (`Cache.InnerSlashNests`, `Cache.NestedNameNeverCached`). The sample application's URL
  `https://images.unsplash.com/photo-...?fit=crop&w=640&q=80` is such a URL. Its last `.` is the one
  in `unsplash.com`, so its extension is `.com/photo-...?fit=crop&w=640&q=80`
  (`Naming.SampleUrlExtension`, `Cache.SampleUrlNeverCached`, `Loader.SampleLoad`). A name whose only
  `/` characters are trailing is different: `https://example.com/` gets the name `<md5>.com/`, which
  is the plain file `<md5>.com`. It is written on the first load and reused on the next
  (`Cache.TrailingSlashUrlCached`).
- `Files.copy` may leave a partly written file when the stream breaks. That truncated file is then
  treated as a hit forever (`Cache.TruncatedEntryIsReused`). Existing entries are never rewritten, even
  though the copy uses `REPLACE_EXISTING`, because a copy only happens when the file is absent.
- Only `string.length()` bytes of the encoding are hashed, so two different non-ASCII URLs can share a
  cache file whatever MD5 computes: `€€.aX.a` and `€€.aY.a` both hash the 7 bytes of `€€.` and both
  end in `.a` (`Naming.DistinctUrlsShareCacheFile`). The second one loaded is served the first one's
  image.

`ImageLoader.java` has no age-based expiry and no `setValidCacheDays`, although the sample calls it.
It has no `clearCache` and no `cached_images` subdirectory: files sit directly in `getCacheDir()`.
It does no aspect-fit resize, because the requested size is just the widget's width and height. A URL
without `.` crashes the load when caching is on.

## Model

| member | source | states |
|---|---|---|
| `Encoding.HashedBytes` | library/src/main/java/com/marcoscg/ohos/imageloader/ImageLoader.java:106 | the hashed bytes are a prefix of the UTF-8 encoding, as long as the string's UTF-16 length |
| `Encoding.Utf8` | library/src/main/java/com/marcoscg/ohos/imageloader/ImageLoader.java:106 | `getBytes()` under UTF-8 is at least one and at most four bytes per character in total (the per-character encoding is `CharUtf8`) |
| `Encoding.Utf8Append` | library/src/main/java/com/marcoscg/ohos/imageloader/ImageLoader.java:106 | the encoding of a concatenation is the concatenation of the encodings |
| `Encoding.Utf16LengthAppend` | library/src/main/java/com/marcoscg/ohos/imageloader/ImageLoader.java:106 | `length()` of a concatenation is the sum of the lengths |
| `Encoding.Utf16Length` | library/src/main/java/com/marcoscg/ohos/imageloader/ImageLoader.java:106 | `length()` lies between the number of characters and twice that |
| `Encoding.Utf16LengthVersusUtf8` | library/src/main/java/com/marcoscg/ohos/imageloader/ImageLoader.java:106 | `length()` never exceeds the UTF-8 byte count, and equals it iff every character is ASCII |
| `Encoding.HashedBytesWholeIffAscii` | library/src/main/java/com/marcoscg/ohos/imageloader/ImageLoader.java:105-106 | the digest sees the whole `getBytes()` iff the string is ASCII; otherwise a strict prefix |
| `Encoding.AsciiHashedBytes` | library/src/main/java/com/marcoscg/ohos/imageloader/ImageLoader.java:106 | for an ASCII string the hashed bytes are its character codes |
| `Hex.BytesValue` | library/src/main/java/com/marcoscg/ohos/imageloader/ImageLoader.java:107 | `new BigInteger(1, d)` is non-negative and below 256^|d| |
| `Hex.BytesValueInjective` | library/src/main/java/com/marcoscg/ohos/imageloader/ImageLoader.java:107 | equal-length byte strings with equal magnitude are equal |
| `Hex.ToHex` | library/src/main/java/com/marcoscg/ohos/imageloader/ImageLoader.java:107 | hex rendering is nonempty, lowercase, has no leading zero, and reads back to the number |
| `Hex.ToHexLength` | library/src/main/java/com/marcoscg/ohos/imageloader/ImageLoader.java:107 | a number below 16^k has at most k hex digits |
| `Hex.ZeroPad` | library/src/main/java/com/marcoscg/ohos/imageloader/ImageLoader.java:107 | the `0` flag pads on the left to the width, keeping the digits as the tail |
| `Hex.Format032x` | library/src/main/java/com/marcoscg/ohos/imageloader/ImageLoader.java:107 | `%032x` of `new BigInteger(1, d)` is at least 32 lowercase hex characters that read back to the value of `d` |
| `Hex.DigestHexShape` | library/src/main/java/com/marcoscg/ohos/imageloader/ImageLoader.java:107 | `%032x` of a 16-byte digest is exactly 32 lowercase hex characters that read back to the digest's value |
| `Hex.DigestHexInjective` | library/src/main/java/com/marcoscg/ohos/imageloader/ImageLoader.java:107 | distinct 16-byte digests render as distinct strings |
| `Hex.ZeroDigestHex` | library/src/main/java/com/marcoscg/ohos/imageloader/ImageLoader.java:107 | an all-zero digest renders as 32 zeros: padding is on the left |
| `Naming.GetMd5` | library/src/main/java/com/marcoscg/ohos/imageloader/ImageLoader.java:103-113 | with MD5: 32 lowercase hex characters worth the digest of the hashed bytes; without: the input unchanged |
| `Naming.GetMd5Injective` | library/src/main/java/com/marcoscg/ohos/imageloader/ImageLoader.java:105-107 | equal stems mean MD5 collided on the two hashed byte strings |
| `Naming.GetMd5SeesOnlyHashedBytes` | library/src/main/java/com/marcoscg/ohos/imageloader/ImageLoader.java:106 | two strings with equal hashed prefixes get the same stem |
| `Naming.LastIndexOf` | library/src/main/java/com/marcoscg/ohos/imageloader/ImageLoader.java:99 | `lastIndexOf` is -1 or an index holding the character, with none after it |
| `Naming.Substring` | library/src/main/java/com/marcoscg/ohos/imageloader/ImageLoader.java:99 | `substring(begin)` succeeds iff 0 <= begin <= length, and then yields the tail |
| `Naming.Extension` | library/src/main/java/com/marcoscg/ohos/imageloader/ImageLoader.java:99 | the extension exists iff the URL has a `.`; it starts with `.`, holds no other `.`, and is a suffix of the URL; otherwise `StringIndexOutOfBounds` |
| `Naming.ExtensionIsDotTail` | library/src/main/java/com/marcoscg/ohos/imageloader/ImageLoader.java:99 | any suffix that starts with `.` and holds no other `.` is the extension |
| `Naming.CacheFileName` | library/src/main/java/com/marcoscg/ohos/imageloader/ImageLoader.java:98-101 | the name exists iff the URL has a `.`, and is then the stem followed by the extension |
| `Naming.CacheFileNameShape` | library/src/main/java/com/marcoscg/ohos/imageloader/ImageLoader.java:98-101 | with MD5 the name is 32 hex characters, then the extension starting with `.`; it holds `/` iff the extension does |
| `Naming.CacheFileNameCollision` | library/src/main/java/com/marcoscg/ohos/imageloader/ImageLoader.java:98-101 | two URLs sharing a name share the extension and an MD5 value |
| `Naming.SampleUrlExtension` | entry/src/main/java/com/marcoscg/ohos/imageloadersample/slice/MainAbilitySlice.java:13 | the sample URL's extension is `.com/photo-...?fit=crop&w=640&q=80` and holds `/` |
| `Naming.SampleUrlIsAscii` | entry/src/main/java/com/marcoscg/ohos/imageloadersample/slice/MainAbilitySlice.java:13 | the sample URL is ASCII, so its whole encoding is hashed |
| `Naming.DistinctUrlsShareCacheFile` | library/src/main/java/com/marcoscg/ohos/imageloader/ImageLoader.java:105-106 | with MD5, the distinct URLs `€€.aX.a` and `€€.aY.a` get the same cache file name, whatever the digest function |
| `Naming.HashedBytesOfPrefix` | library/src/main/java/com/marcoscg/ohos/imageloader/ImageLoader.java:106 | when `length()` of the whole string equals the byte count of a prefix, exactly that prefix's encoding is hashed |
| `Paths.StripLeading` | library/src/main/java/com/marcoscg/ohos/imageloader/ImageLoader.java:84 | the leading `/` characters are removed and nothing else; the rest does not start with `/` |
| `Paths.StripTrailing` | library/src/main/java/com/marcoscg/ohos/imageloader/ImageLoader.java:84 | the trailing `/` characters are removed and nothing else; the rest does not end with `/` |
| `Paths.Entry` | library/src/main/java/com/marcoscg/ohos/imageloader/ImageLoader.java:84 | the entry a child name denotes, when there is one, is nonempty and holds no `/` |
| `Paths.EntryOfSlashFree` | library/src/main/java/com/marcoscg/ohos/imageloader/ImageLoader.java:84 | a child name without `/` denotes the entry of that name |
| `Paths.EntryDropsTrailingSlashes` | library/src/main/java/com/marcoscg/ohos/imageloader/ImageLoader.java:84 | a plain name followed by any number of `/` denotes the plain entry |
| `Paths.InnerSlashIsNested` | library/src/main/java/com/marcoscg/ohos/imageloader/ImageLoader.java:84 | a child that does not start with `/` and holds a `/` followed somewhere later by a non-`/` means a path through a subdirectory, whatever trailing `/` it has |
| `Paths.AppendedSlashIsNested` | library/src/main/java/com/marcoscg/ohos/imageloader/ImageLoader.java:84 | a stem not starting with `/` followed by a part holding such a `/` is a path through a subdirectory |
| `Cache.CopyReplacing` | library/src/main/java/com/marcoscg/ohos/imageloader/ImageLoader.java:87-88 | the copy always evaluates `openStream`; it adds or replaces only the entry the name denotes, with the bytes read, and succeeds iff the body was complete; a name through a subdirectory writes nothing |
| `Cache.CachedImageSource` | library/src/main/java/com/marcoscg/ohos/imageloader/ImageLoader.java:83-92 | no URL or no `.` crashes before `openStream`; `openStream` is evaluated iff the denoted file is absent; nothing is written otherwise; old entries are kept; a new entry is the one the name denotes; a success reads a file that exists |
| `Cache.RemoteImageSource` | library/src/main/java/com/marcoscg/ohos/imageloader/ImageLoader.java:94-96 | the directory is untouched, `openStream` is evaluated iff there is a URL, and the image comes from the stream iff it opened |
| `Cache.BackgroundStep` | library/src/main/java/com/marcoscg/ohos/imageloader/ImageLoader.java:63 | a load never changes or removes an existing entry; it adds only the entry its cache file name denotes, and only with caching on and after evaluating `openStream`; it keeps the directory free of nested names |
| `Cache.CacheHit` | library/src/main/java/com/marcoscg/ohos/imageloader/ImageLoader.java:84-91 | when the file the name denotes exists: no `openStream`, directory unchanged, image from that entry |
| `Cache.CacheMiss` | library/src/main/java/com/marcoscg/ohos/imageloader/ImageLoader.java:86-91 | when the name denotes an absent entry: one `openStream`, that entry maps to the bytes read, all else unchanged, success iff the body was complete |
| `Cache.CacheMissRefused` | library/src/main/java/com/marcoscg/ohos/imageloader/ImageLoader.java:87 | an `openStream` that fails on a miss writes nothing and abandons the load |
| `Cache.NoDotCrashes` | library/src/main/java/com/marcoscg/ohos/imageloader/ImageLoader.java:62-78 | with caching on, a URL without `.` (or no URL) ends in an uncaught exception before any request, with nothing written |
| `Cache.CacheDisabledBypass` | library/src/main/java/com/marcoscg/ohos/imageloader/ImageLoader.java:63 | with caching off the directory is not changed, its contents and the digest do not affect the result, and every load with a URL evaluates `openStream` |
| `Cache.CacheDisabledNeedsNoDot` | library/src/main/java/com/marcoscg/ohos/imageloader/ImageLoader.java:94-96 | with caching off a URL without `.` loads from the stream |
| `Cache.SecondLoadHits` | library/src/main/java/com/marcoscg/ohos/imageloader/ImageLoader.java:83-92 | after a successful cached load, the same URL loads again with no `openStream` and no change |
| `Cache.TruncatedEntryIsReused` | library/src/main/java/com/marcoscg/ohos/imageloader/ImageLoader.java:86-91 | a broken transfer leaves the truncated file, which every later load takes as a hit |
| `Cache.NestedNameNeverCached` | library/src/main/java/com/marcoscg/ohos/imageloader/ImageLoader.java:84-89 | a name through a subdirectory evaluates `openStream` on every load, is never written, and never yields an image |
| `Cache.InnerSlashNests` | library/src/main/java/com/marcoscg/ohos/imageloader/ImageLoader.java:98-101 | a `/` inside the extension with a non-`/` after it somewhere (the extension may still end in `/`, as in `.com/a/`) makes the cache file name a path through a subdirectory |
| `Cache.SampleUrlNeverCached` | library/src/main/java/com/marcoscg/ohos/imageloader/ImageLoader.java:84-91 | with caching on, the sample URL evaluates `openStream` on every load and never yields an image, with or without MD5 |
| `Cache.TrailingSlashUrlCached` | library/src/main/java/com/marcoscg/ohos/imageloader/ImageLoader.java:84-91 | with MD5, `https://example.com/` is written to the plain entry `<md5>.com` on the first load and read from it on the next, with no `openStream` |
| `Cache.ExampleUrlEntry` | library/src/main/java/com/marcoscg/ohos/imageloader/ImageLoader.java:98-101 | the cache file name of `https://example.com/` is `<md5>.com/`, which denotes the entry `<md5>.com` |
| `Cache.HexStemEntry` | library/src/main/java/com/marcoscg/ohos/imageloader/ImageLoader.java:84 | a hex stem, a slash-free rest and one trailing `/` denote the entry without the `/` |
| `Cache.CacheDir.Exists` | library/src/main/java/com/marcoscg/ohos/imageloader/ImageLoader.java:86 | `exists()` holds iff the name denotes an entry and that entry is in the directory |
| `Cache.CacheDir.Copy` | library/src/main/java/com/marcoscg/ohos/imageloader/ImageLoader.java:87-88 | the directory becomes what `CopyReplacing` says, keeps only plain entries, and the failure is reported as that `IOException` |
| `Cache.Network.OpenStream` | library/src/main/java/com/marcoscg/ohos/imageloader/ImageLoader.java:87 | each call is one more evaluation of `openStream` and gets that evaluation's answer |
| `Loader.ImageLoader.With` | library/src/main/java/com/marcoscg/ohos/imageloader/ImageLoader.java:30-38 | a new builder has no URL, no widget, and caching on |
| `Loader.ImageLoader.Load` | library/src/main/java/com/marcoscg/ohos/imageloader/ImageLoader.java:40-43 | `load` sets the URL to its argument, `load(null)` clearing it, changes nothing else, and returns the same builder |
| `Loader.ImageLoader.DisableCache` | library/src/main/java/com/marcoscg/ohos/imageloader/ImageLoader.java:45-48 | `disableCache` turns caching off, changes nothing else, and returns the same builder |
| `Loader.ImageLoader.Into` | library/src/main/java/com/marcoscg/ohos/imageloader/ImageLoader.java:50-53 | `into` records the widget; the directory and request count move as `BackgroundStep` says; the widget gets a picture iff an image source was obtained |
| `Loader.ImageLoader.LoadImage` | library/src/main/java/com/marcoscg/ohos/imageloader/ImageLoader.java:55-81 | the task follows line 63's choice, asks for the widget's own size, and updates the widget only on success |
| `Loader.ImageLoader.GetCachedImageSource` | library/src/main/java/com/marcoscg/ohos/imageloader/ImageLoader.java:83-92 | the method's result, directory and `openStream` count are those of `CachedImageSource` |
| `Loader.ImageLoader.GetRemoteImageSource` | library/src/main/java/com/marcoscg/ohos/imageloader/ImageLoader.java:94-96 | one `openStream` per load with a URL, and the image comes from the stream |
| `Loader.SampleLoad` | entry/src/main/java/com/marcoscg/ohos/imageloadersample/slice/MainAbilitySlice.java:22-25 | the sample's chain makes one request, writes nothing, and leaves the widget as it was |

## Left out

- Network: `new URL(url).openStream()` is the `Network` class. Its answer to evaluation `k` for a URL is
  the parameter `respond(url, k)`. Redirects, timeouts and HTTP status handling are inside that answer.
- Cache.Network.OpenStream: `requests` counts evaluations of `new URL(url).openStream()`, not network
  traffic. A URL that `new URL` rejects (`MalformedURLException`) is counted although it never reaches
  the network, and `respond` is not constrained to refuse it. URL parsing is not modelled.
- MD5 itself is an uninterpreted parameter. So is its availability (`NoSuchAlgorithmException`).
- Image decoding (`ImageSource.create`, `createPixelmap`, the `release` calls) is foreign media code.
  A successful load hands the widget the image source it would decode, at the widget's size.
  Decoding a truncated or malformed stream is not modelled.
- Task dispatchers: `into` runs the background task and its UI step at once. Races between concurrent
  loads, and a later `load` changing `url` before the task reads it, are not modelled.
- `printStackTrace` logging is left out. A caught `IOException` is the outcome `Abandoned`. An
  unchecked exception escaping the task is the outcome `Crashed`, and its effect on the dispatcher
  thread is not modelled.
- Strings: a Java string is a sequence of Unicode scalar values. `lastIndexOf` and `substring` index
  characters rather than UTF-16 units; the extension they produce is the same. Unpaired surrogates
  cannot be written. The platform charset is taken to be UTF-8.
- `Loader.ImageLoader.Into` takes a non-null widget. The `NullPointerException` that `into(null)`
  would raise at `image.getWidth()` is not modelled.
- File system: the cache directory is modelled as plain files only. Subdirectories created there by
  other code, and write failures other than a path through a missing subdirectory (full disk,
  permissions), are not modelled. One such failure depends on the URL alone: a cache file name longer
  than the file system's limit on a name (255 bytes on most Unix file systems, so an extension such as
  a long signed query `.jpg?sig=...` past about 223 bytes) makes every `Files.copy` fail, so that URL is
  fetched on every load and never cached, while the model writes it. The names `.` and `..` are treated like any other entry name,
  although on disk they denote directories. Path handling is that of a Unix file system.
- The input stream that a failed `Files.copy` leaves open is not modelled.
- `setValidCacheDays`, age-based expiry, `clearCache`, the `cached_images` subdirectory and aspect-fit
  resizing are absent from `ImageLoader.java`, so they are not modelled.
