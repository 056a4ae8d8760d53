/**
 * The `ImageLoader` builder: `with(ability).load(url)[.disableCache()].into(image)`.
 * The background task that `into` dispatches runs here to completion before
 * `into` returns, and its UI step follows it directly.
 */
module Loader {
  import opened Wrappers
  import opened Naming
  import opened Cache
  import opened Paths

  /** The host ability; the loader uses only its cache directory. */
  class AbilityContext {
    const cacheDir: CacheDir

    constructor (cacheDir: CacheDir)
      ensures this.cacheDir == cacheDir
    {
      this.cacheDir := cacheDir;
    }
  }

  /** The pixel map handed to the widget: the image source it was created
      from, at the requested size. */
  datatype Picture = Picture(source: Source, desiredWidth: int, desiredHeight: int)

  /** The `Image` widget: its size, and the pixel map it shows. */
  class Image {
    const width: int
    const height: int
    var pixelMap: Option<Picture>

    constructor (width: int, height: int)
      ensures this.width == width && this.height == height && pixelMap == None
    {
      this.width := width;
      this.height := height;
      pixelMap := None;
    }
  }

  class ImageLoader {
    const ability: AbilityContext
    var url: Option<string>
    var image: Image?
    var cacheEnabled: bool

    /** `ImageLoader.with(ability)`: no URL, no widget, caching on. */
    constructor With(ability: AbilityContext)
      ensures this.ability == ability
      ensures url == None && image == null && cacheEnabled
    {
      this.ability := ability;
      url := None;
      image := null;
      cacheEnabled := true;
    }

    /** `load(url)`: replaces the URL and returns the same builder; `load(null)`
        (`None`) clears it. */
    method Load(url: Option<string>) returns (self: ImageLoader)
      modifies this
      ensures self == this
      ensures this.url == url
      ensures cacheEnabled == old(cacheEnabled) && image == old(image)
    {
      this.url := url;
      self := this;
    }

    /** `disableCache()`: turns caching off for good and returns the same builder. */
    method DisableCache() returns (self: ImageLoader)
      modifies this
      ensures self == this
      ensures !cacheEnabled
      ensures url == old(url) && image == old(image)
    {
      cacheEnabled := false;
      self := this;
    }

    /** `into(image)`: records the widget and runs the load. The directory and
        the request count move as `BackgroundStep` says, and the widget shows
        the new picture exactly when an image source was obtained. */
    method Into(image: Image, net: Network, md5: DigestProvider)
      requires ability.cacheDir.Valid()
      modifies this, image, ability.cacheDir, net
      ensures this.image == image && url == old(url) && cacheEnabled == old(cacheEnabled)
      ensures ability.cacheDir.Valid()
      ensures var s := BackgroundStep(cacheEnabled, url, md5, old(ability.cacheDir.files),
                                      NextResponse(net.respond, old(net.requests), url));
        && ability.cacheDir.files == s.files
        && net.requests == old(net.requests) + (if s.requested then 1 else 0)
        && image.pixelMap == (if s.outcome.Ready?
                              then Some(Picture(s.outcome.source, image.width, image.height))
                              else old(image.pixelMap))
    {
      this.image := image;
      LoadImage(net, md5);
    }

    /** `loadImage()`: the background task and, on success, its UI step. */
    method LoadImage(net: Network, md5: DigestProvider)
      requires image != null && ability.cacheDir.Valid()
      modifies image, ability.cacheDir, net
      ensures ability.cacheDir.Valid()
      ensures var s := BackgroundStep(cacheEnabled, url, md5, old(ability.cacheDir.files),
                                      NextResponse(net.respond, old(net.requests), url));
        && ability.cacheDir.files == s.files
        && net.requests == old(net.requests) + (if s.requested then 1 else 0)
        && image.pixelMap == (if s.outcome.Ready?
                              then Some(Picture(s.outcome.source, image.width, image.height))
                              else old(image.pixelMap))
    {
      var desiredWidth, desiredHeight := image.width, image.height;
      ghost var files, response := ability.cacheDir.files, NextResponse(net.respond, net.requests, url);
      var outcome;
      if cacheEnabled {
        assert BackgroundStep(true, url, md5, files, response) == CachedImageSource(url, md5, files, response);
        outcome := GetCachedImageSource(net, md5);
      } else {
        assert BackgroundStep(false, url, md5, files, response) == RemoteImageSource(url, files, response);
        outcome := GetRemoteImageSource(net);
      }
      if outcome.Ready? {
        image.pixelMap := Some(Picture(outcome.source, desiredWidth, desiredHeight));
      }
    }

    /** `getCachedImageSource()`. */
    method GetCachedImageSource(net: Network, md5: DigestProvider) returns (outcome: Outcome)
      requires ability.cacheDir.Valid()
      modifies ability.cacheDir, net
      ensures ability.cacheDir.Valid()
      ensures var s := CachedImageSource(url, md5, old(ability.cacheDir.files),
                                         NextResponse(net.respond, old(net.requests), url));
        && outcome == s.outcome
        && ability.cacheDir.files == s.files
        && net.requests == old(net.requests) + (if s.requested then 1 else 0)
    {
      if url.None? {
        return Crashed(NullPointer);
      }
      var name := CacheFileName(url.value, md5);
      if name.Failure? {
        return Crashed(name.error);
      }
      var present := ability.cacheDir.Exists(name.value);
      if !present {
        var r := net.OpenStream(url.value);
        if r.Refused? {
          return Abandoned(OpenFailed);
        }
        var failure := ability.cacheDir.Copy(name.value, r.bytes, r.complete);
        if failure.Some? {
          return Abandoned(failure.value);
        }
      }
      outcome := Ready(CachedFile(Entry(name.value).value));
    }

    /** `getRemoteImageSource()`. */
    method GetRemoteImageSource(net: Network) returns (outcome: Outcome)
      modifies net
      ensures var s := RemoteImageSource(url, map[], NextResponse(net.respond, old(net.requests), url));
        && outcome == s.outcome
        && net.requests == old(net.requests) + (if s.requested then 1 else 0)
    {
      if url.None? {
        return Abandoned(MalformedUrl);
      }
      var r := net.OpenStream(url.value);
      if r.Refused? {
        return Abandoned(OpenFailed);
      }
      outcome := Ready(RemoteStream(r.bytes));
    }
  }

  /** The sample application's call chain, `with(this).load(imageUrl).into(image)`
      on a fresh loader: with caching on and the cache directory holding only
      plain files, it makes one request, writes nothing, and the widget never
      gets a picture. */
  method SampleLoad(ability: AbilityContext, image: Image, net: Network, md5: DigestProvider)
    requires ability.cacheDir.Valid()
    modifies ability.cacheDir, image, net
    ensures ability.cacheDir.files == old(ability.cacheDir.files)
    ensures net.requests == old(net.requests) + 1
    ensures image.pixelMap == old(image.pixelMap)
  {
    var loader := new ImageLoader.With(ability);
    loader := loader.Load(Some(SampleUrl));
    SampleUrlNeverCached(md5, ability.cacheDir.files, NextResponse(net.respond, net.requests, Some(SampleUrl)));
    loader.Into(image, net, md5);
  }
}
