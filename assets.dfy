/** The host CMS's entities as this plugin sees them: asset records, the
    in-memory asset element whose `alt` the plugin overwrites, sites, the
    plugin settings, the outcome of a save and of an HTTP call, and the
    asset queries the plugin issues. */
module Assets {
  import opened Wrappers
  import Php

  /** `Asset::$kind`; only `image` matters to the plugin. */
  datatype Kind = Image | OtherKind(name: string)

  /** An asset as stored, on one site. `volume` stands for the volume whose
      `saveAssets:<uid>` permission guards saving it. */
  datatype AssetRecord = AssetRecord(
    id: int,
    siteId: int,
    volume: int,
    kind: Kind,
    alt: Option<string>,
    filename: string,
    mime: string)

  /** An asset element loaded into memory. The plugin assigns its `alt`
      and then hands it to the store's save. */
  class Asset {
    const id: int
    const siteId: int
    const volume: int
    const kind: Kind
    const filename: string
    const mime: string
    var alt: Option<string>

    constructor (r: AssetRecord)
      ensures Record() == r
    {
      id, siteId, volume, kind := r.id, r.siteId, r.volume, r.kind;
      filename, mime, alt := r.filename, r.mime, r.alt;
    }

    /** The record a save of this element writes. */
    function Record(): AssetRecord
      reads this
    {
      AssetRecord(id, siteId, volume, kind, alt, filename, mime)
    }
  }

  /** The plugin settings: API key, language, and whether new images get
      alt text automatically. */
  datatype Settings = Settings(apiKey: string, language: string, generateForNewAssets: bool)

  /** The defaults of the settings model. */
  const DefaultSettings := Settings("", "en", false)

  datatype Site = Site(id: int, name: string, baseUrl: string)

  /** What `saveElement` does with an element: saves it, rejects it with
      validation errors (and returns false), or throws. */
  datatype SaveOutcome = Saved | Invalid(errors: seq<string>) | Threw(message: string)

  /** The message of a save that failed: the first validation errors,
      comma-separated, or the exception's own message. */
  function SaveFailure(outcome: SaveOutcome): string
    requires !outcome.Saved?
  {
    match outcome
    case Invalid(errors) => "Could not save asset: " + Php.Join(errors, ", ")
    case Threw(message) => message
  }

  /** The result of one cURL request: the body (`curl_exec` returns false
      on a transport failure) and `CURLINFO_HTTP_CODE`. */
  datatype HttpReply = HttpReply(body: Option<string>, code: int)

  /** "Has alt text" as the settings page counts it: not null and not
      blank after `trim`. */
  predicate HasAltText(alt: Option<string>) {
    alt.Some? && Php.Trim(alt.value) != ""
  }

  /** The database filter `alt IS NULL OR alt = ''` of the missing-alt queries. */
  predicate MatchesMissingAltFilter(alt: Option<string>) {
    alt.None? || alt.value == ""
  }

  /** An alt value that the missing-alt filter selects is "empty" to PHP
      and "without alt text" to the counter. */
  lemma MissingAltFilterIsEmpty(alt: Option<string>)
    requires MatchesMissingAltFilter(alt)
    ensures Php.Empty(alt) && !HasAltText(alt)
  {
  }

  /** "Has alt text" (trim) is not the negation of PHP `empty`: the alt
      "0" has alt text yet is empty, and a blank alt is neither. The
      missing-alt filter misses the blank alt. */
  lemma EmptinessChecksDisagree()
    ensures HasAltText(Some("0")) && Php.Empty(Some("0"))
    ensures !HasAltText(Some(" ")) && !Php.Empty(Some(" ")) && !MatchesMissingAltFilter(Some(" "))
  {
    assert Php.Trim("0") != "" by { assert "0"[0] !in Php.TrimChars; }
    assert Php.Trim(" ") == "" by { assert " "[0] in Php.TrimChars; }
  }

  /** The fallback alt text, `'Image of ' . pathinfo($filename, PATHINFO_FILENAME)`. */
  function Fallback(filename: string): string {
    "Image of " + Php.Stem(filename)
  }

  /** The fallback always has alt text, to the counter and to PHP `empty`
      alike, whatever the file name (even "", ".png" or "0.png"). */
  lemma FallbackHasAltText(filename: string)
    ensures HasAltText(Some(Fallback(filename))) && !Php.Empty(Some(Fallback(filename)))
  {
    var r := Fallback(filename);
    assert r[0] == 'I';
    assert r[0] !in Php.TrimChars;
  }

  datatype Filter = AllImages | MissingAltOnly

  predicate Matches(a: AssetRecord, siteId: int, filter: Filter) {
    a.kind == Image && a.siteId == siteId && (filter == AllImages || MatchesMissingAltFilter(a.alt))
  }

  /** `Asset::find()->kind('image')->siteId($siteId)` (with the missing-alt
      condition when asked), in store order. */
  function Select(store: seq<AssetRecord>, siteId: int, filter: Filter): (r: seq<AssetRecord>)
    ensures |r| <= |store|
    ensures forall k :: 0 <= k < |r| ==> r[k] in store && Matches(r[k], siteId, filter)
    ensures forall a :: a in store && Matches(a, siteId, filter) ==> a in r
  {
    if |store| == 0 then []
    else
      var rest := Select(store[..|store| - 1], siteId, filter);
      var last := store[|store| - 1];
      assert store == store[..|store| - 1] + [last];
      if Matches(last, siteId, filter) then rest + [last] else rest
  }

  /** A query keeps store order and multiplicity: over two stretches of
      the store it returns the matches of the first, then those of the
      second. */
  lemma {:induction false} SelectAppend(xs: seq<AssetRecord>, ys: seq<AssetRecord>, siteId: int, filter: Filter)
    ensures Select(xs + ys, siteId, filter) == Select(xs, siteId, filter) + Select(ys, siteId, filter)
    decreases |ys|
  {
    if |ys| == 0 {
      assert xs + ys == xs;
    } else {
      var init, last := ys[..|ys| - 1], ys[|ys| - 1];
      assert (xs + ys)[..|xs + ys| - 1] == xs + init && (xs + ys)[|xs + ys| - 1] == last;
      SelectAppend(xs, init, siteId, filter);
      var sx, si := Select(xs, siteId, filter), Select(init, siteId, filter);
      assert (sx + si) + [last] == sx + (si + [last]);
    }
  }
}
