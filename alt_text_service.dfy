/** `AltTextService::generateAltText`: the per-asset procedure that checks
    the configuration, finds the image bytes, asks the captioning endpoint
    for a caption, falls back to a filename-derived text, and saves the
    asset. */
module AltTextService {
  import opened Wrappers
  import Php
  import Base64
  import opened Assets

  /** The three places image bytes are read from, in the order tried. */
  datatype Source = VolumeFile | TransformSource | PublicUrl(url: string)

  function SourceOrder(url: string): seq<Source> {
    [VolumeFile, TransformSource, PublicUrl(url)]
  }

  /** The JSON body POSTed to the captioning endpoint. */
  datatype CaptionRequest = CaptionRequest(image: string, wpkey: string, language: string)

  /** What one run did to the outside world: whether it asked for the
      asset URL, which acquisition stages ran (in order), the caption
      request it sent, and the record it handed to `saveElement`. A later
      field is set only when the earlier steps happened. */
  datatype Trace = Trace(
    urlLookedUp: bool,
    attempts: seq<Source>,
    caption: Option<CaptionRequest>,
    saved: Option<AssetRecord>)

  const Untouched := Trace(false, [], None, None)

  /** Everything the procedure asks of its environment, given up front.
      `files` maps the paths of readable files to their contents; `web`
      maps the URLs that `file_get_contents` can fetch to their bodies. */
  datatype Io = Io(
    url: Option<string>,
    siteBaseUrl: string,
    rootPath: Option<string>,
    assetPath: string,
    transformPath: Option<string>,
    files: map<string, Base64.Bytes>,
    web: map<string, Base64.Bytes>,
    reply: HttpReply,
    save: AssetRecord -> SaveOutcome)

  /** The return value, the asset's `alt` afterwards, and the trace. */
  datatype Generation = Generation(ok: bool, alt: Option<string>, trace: Trace)

  predicate HasHost(url: string) {
    Php.Truthy(Php.UrlHost(url))
  }

  /** A URL without a host is prefixed with the site base URL, its trailing
      slashes removed. */
  function AbsoluteUrl(url: string, siteBaseUrl: string): (r: string)
    ensures |url| <= |r| && r[|r| - |url|..] == url
    ensures HasHost(url) ==> r == url
    ensures !HasHost(url) ==> r[..|r| - |url|] == Php.RTrim(siteBaseUrl, {'/'})
  {
    if HasHost(url) then url else Php.RTrim(siteBaseUrl, {'/'}) + url
  }

  /** A URL `scheme://host/path` with a truthy host is left as it is. */
  lemma AbsoluteUrlUnchanged(scheme: string, host: string, path: string, siteBaseUrl: string)
    requires Php.IsScheme(scheme)
    requires forall k :: 0 <= k < |host| ==> host[k] !in {'/', '?', '#', '@', ':'}
    requires !Php.EmptyString(host)
    requires |path| == 0 || path[0] in {'/', '?', '#'}
    ensures AbsoluteUrl(scheme + "://" + host + path, siteBaseUrl) == scheme + "://" + host + path
  {
    Php.AbsoluteUrlHost(scheme, host, path);
  }

  /** What one acquisition stage reads, or None for PHP's `false`. */
  function Yield(io: Io, source: Source): Option<Base64.Bytes> {
    match source
    case VolumeFile =>
      if Php.Truthy(io.rootPath) && io.rootPath.value + "/" + io.assetPath in io.files
      then Some(io.files[io.rootPath.value + "/" + io.assetPath]) else None
    case TransformSource =>
      if Php.Truthy(io.transformPath) && io.transformPath.value in io.files
      then Some(io.files[io.transformPath.value]) else None
    case PublicUrl(url) =>
      if url in io.web then Some(io.web[url]) else None
  }

  /** The three-stage acquisition: the stages run in order, a stage runs
      only when every earlier one read nothing, and the first read wins. */
  function Acquire(io: Io, url: string): (r: (Option<Base64.Bytes>, seq<Source>))
    ensures 1 <= |r.1| <= 3 && r.1 == SourceOrder(url)[..|r.1|]
    ensures forall k :: 0 <= k < |r.1| - 1 ==> Yield(io, r.1[k]).None?
    ensures r.0 == Yield(io, r.1[|r.1| - 1])
    ensures r.0.None? ==> |r.1| == 3
  {
    if Yield(io, VolumeFile).Some? then (Yield(io, VolumeFile), [VolumeFile])
    else if Yield(io, TransformSource).Some? then (Yield(io, TransformSource), [VolumeFile, TransformSource])
    else (Yield(io, PublicUrl(url)), SourceOrder(url))
  }

  /** The data URL of section 3 of RFC 2397, base64 form. */
  function DataUrl(mime: string, data: Base64.Bytes): string
  {
    "data:" + mime + ";base64," + Base64.Encode(data)
  }

  /** Reads back the media type and the octets of a base64 data URL. */
  function ParseDataUrl(u: string): Option<(string, Base64.Bytes)> {
    if |u| < 5 || u[..5] != "data:" then None
    else
      var rest := u[5..];
      match Php.IndexOf(rest, ';')
      case None => None
      case Some(i) =>
        var tail := rest[i..];
        if |tail| < 8 || tail[..8] != ";base64," then None
        else
          match Base64.Decode(tail[8..])
          case None => None
          case Some(data) => Some((rest[..i], data))
  }

  /** The payload sent carries exactly the media type and the image bytes. */
  lemma {:induction false} DataUrlRoundTrip(mime: string, data: Base64.Bytes)
    requires ';' !in mime
    ensures ParseDataUrl(DataUrl(mime, data)) == Some((mime, data))
  {
    var enc := Base64.Encode(data);
    var tail := ";base64," + enc;
    var rest := mime + tail;
    var u := DataUrl(mime, data);
    assert u == "data:" + rest;
    assert u[..5] == "data:" && u[5..] == rest;
    assert rest[..|mime|] == mime && rest[|mime|] == ';';
    assert Php.IndexOf(rest, ';') == Some(|mime|);
    assert rest[|mime|..] == tail;
    assert tail[..8] == ";base64," && tail[8..] == enc;
    Base64.DecodeEncode(data);
  }

  /** The caption-or-fallback policy: a 200 reply whose trimmed body is not
      PHP-empty becomes the alt text; anything else gets the fallback. */
  function CaptionOrFallback(reply: HttpReply, filename: string): (alt: string)
    ensures HasAltText(Some(alt)) && !Php.Empty(Some(alt))
    ensures reply.body.Some? && reply.code == 200 && !Php.EmptyString(Php.Trim(reply.body.value))
            ==> alt == Php.Trim(reply.body.value)
    ensures !(reply.body.Some? && reply.code == 200 && !Php.EmptyString(Php.Trim(reply.body.value)))
            ==> alt == Fallback(filename)
  {
    FallbackHasAltText(filename);
    if reply.body.Some? && reply.code == 200 then
      var text := Php.Trim(reply.body.value);
      Php.TrimIdempotent(reply.body.value);
      if !Php.EmptyString(text) then text else Fallback(filename)
    else
      Fallback(filename)
  }

  function Absolute(io: Io): string
    requires io.url.Some?
  {
    AbsoluteUrl(io.url.value, io.siteBaseUrl)
  }

  /** `generateAltText($asset)` as a function of the asset before the call,
      the settings and the environment. */
  function Generate(a: AssetRecord, settings: Settings, io: Io): (g: Generation)
    // An empty key stops everything before any other step.
    ensures Php.EmptyString(settings.apiKey) ==> g == Generation(false, a.alt, Untouched)
    // Without a URL nothing is read, posted or saved.
    ensures !Php.EmptyString(settings.apiKey) && !Php.Truthy(io.url)
            ==> g == Generation(false, a.alt, Untouched.(urlLookedUp := true))
    // Each step happens only after the one before it.
    ensures g.trace.attempts != [] ==> g.trace.urlLookedUp
    ensures g.trace.caption.Some? ==> g.trace.attempts != []
    ensures g.trace.saved.Some? <==> g.trace.caption.Some?
    // A caption is requested, and the asset saved, exactly when bytes were read.
    ensures g.trace.caption.Some? <==> !Php.EmptyString(settings.apiKey) && io.url.Some? && !Php.EmptyString(io.url.value)
                                       && Acquire(io, AbsoluteUrl(io.url.value, io.siteBaseUrl)).0.Some?
    // The record saved is the asset with its new alt, which is present
    // under both the trim test and PHP `empty`.
    ensures g.trace.saved.Some? ==> g.trace.saved.value == a.(alt := g.alt) && HasAltText(g.alt) && !Php.Empty(g.alt)
    // `alt` changes only on the way to a save.
    ensures g.trace.saved.None? ==> g.alt == a.alt
    // The result is the save's.
    ensures g.ok <==> g.trace.saved.Some? && io.save(g.trace.saved.value) == Saved
  {
    if Php.EmptyString(settings.apiKey) then Generation(false, a.alt, Untouched)
    else if !Php.Truthy(io.url) then Generation(false, a.alt, Untouched.(urlLookedUp := true))
    else
      var acquired := Acquire(io, Absolute(io));
      var tried := Trace(true, acquired.1, None, None);
      match acquired.0
      case None => Generation(false, a.alt, tried)
      case Some(data) =>
        var request := CaptionRequest(DataUrl(a.mime, data), settings.apiKey, settings.language);
        var alt := CaptionOrFallback(io.reply, a.filename);
        var record := a.(alt := Some(alt));
        Generation(io.save(record) == Saved, Some(alt), tried.(caption := Some(request), saved := Some(record)))
  }

  /** The three acquisition stages: `$imageData` is reassigned until one
      of them reads something. */
  method AcquireImage(io: Io, url: string) returns (imageData: Option<Base64.Bytes>, attempts: seq<Source>)
    ensures (imageData, attempts) == Acquire(io, url)
  {
    imageData := None;
    attempts := [VolumeFile];
    if Php.Truthy(io.rootPath) {
      var filePath := io.rootPath.value + "/" + io.assetPath;
      if filePath in io.files {
        imageData := Some(io.files[filePath]);
      }
    }
    assert imageData == Yield(io, VolumeFile);
    if imageData.None? {
      attempts := attempts + [TransformSource];
      var sourcePath := io.transformPath;
      if Php.Truthy(sourcePath) && sourcePath.value in io.files {
        imageData := Some(io.files[sourcePath.value]);
      }
      assert imageData == Yield(io, TransformSource);
      assert attempts == [VolumeFile, TransformSource];
    }
    if imageData.None? {
      attempts := attempts + [PublicUrl(url)];
      if url in io.web {
        imageData := Some(io.web[url]);
      }
      assert imageData == Yield(io, PublicUrl(url));
      assert attempts == SourceOrder(url);
    }
  }

  /** The imperative procedure: `$assetUrl` is rewritten, `$imageData` is
      reassigned stage by stage, and the element's `alt` is assigned before
      the save. */
  method GenerateAltText(asset: Asset, settings: Settings, io: Io) returns (ok: bool, trace: Trace)
    modifies asset
    ensures var g := Generate(old(asset.Record()), settings, io);
            ok == g.ok && trace == g.trace && asset.Record() == old(asset.Record()).(alt := g.alt)
  {
    ghost var before := asset.Record();
    trace := Untouched;
    var apiKey := settings.apiKey;
    var language := settings.language;
    if Php.EmptyString(apiKey) {
      return false, trace;
    }

    trace := trace.(urlLookedUp := true);
    var assetUrl := io.url;
    if !Php.Truthy(assetUrl) {
      return false, trace;
    }
    var url := assetUrl.value;
    if !HasHost(url) {
      var siteUrl := Php.RTrim(io.siteBaseUrl, {'/'});
      url := siteUrl + url;
    }
    assert url == Absolute(io);

    var imageData, attempts := AcquireImage(io, url);
    trace := trace.(attempts := attempts);
    if imageData.None? {
      return false, trace;
    }

    var base64Image := "data:" + asset.mime + ";base64," + Base64.Encode(imageData.value);
    trace := trace.(caption := Some(CaptionRequest(base64Image, apiKey, language)));
    var reply := io.reply;
    if reply.body.Some? && reply.code == 200 {
      var altText := Php.Trim(reply.body.value);
      if !Php.EmptyString(altText) {
        asset.alt := Some(altText);
      } else {
        asset.alt := Some(Fallback(asset.filename));
      }
    } else {
      asset.alt := Some(Fallback(asset.filename));
    }

    assert asset.alt == Some(CaptionOrFallback(reply, asset.filename));
    var record := asset.Record();
    assert record == before.(alt := asset.alt);
    trace := trace.(saved := Some(record));
    // `saveElement` returning false and throwing both end in false.
    ok := io.save(record) == Saved;
  }

  /** The stages run are a prefix of the fixed order, every stage but the
      last read nothing, and when all three read nothing no caption is
      requested and nothing is saved. */
  lemma AcquisitionOrder(a: AssetRecord, settings: Settings, io: Io)
    requires !Php.EmptyString(settings.apiKey) && Php.Truthy(io.url)
    ensures var t := Generate(a, settings, io).trace;
            1 <= |t.attempts| <= 3 && t.attempts == SourceOrder(Absolute(io))[..|t.attempts|]
            && (forall k :: 0 <= k < |t.attempts| - 1 ==> Yield(io, t.attempts[k]).None?)
    ensures Acquire(io, Absolute(io)).0.None? ==>
            Generate(a, settings, io) == Generation(false, a.alt, Trace(true, SourceOrder(Absolute(io)), None, None))
  {
  }

  /** When bytes were read, the request carries the data URL of those
      bytes, the key and the language, and the alt follows the caption
      policy. */
  lemma CaptionRequestPayload(a: AssetRecord, settings: Settings, io: Io)
    requires !Php.EmptyString(settings.apiKey) && Php.Truthy(io.url)
    requires Acquire(io, Absolute(io)).0.Some?
    ensures var g := Generate(a, settings, io);
            var data := Acquire(io, Absolute(io)).0.value;
            g.trace.caption == Some(CaptionRequest(DataUrl(a.mime, data), settings.apiKey, settings.language))
            && g.alt == Some(CaptionOrFallback(io.reply, a.filename))
    // The asset is then saved with that alt, and the result is the save's.
    ensures var g := Generate(a, settings, io);
            g.trace.saved == Some(a.(alt := g.alt)) && (g.ok <==> io.save(a.(alt := g.alt)) == Saved)
  {
  }
}
