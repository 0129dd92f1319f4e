# Alt Text Generator — a Dafny model

This project models the core of the Craft CMS plugin "Alt Text Generator". The plugin writes alternative text for image assets. It asks an external captioning service for a caption. When no caption is given, it falls back to the text `Image of <file stem>`.

The model covers these parts of the plugin:

- **`AltTextService::generateAltText`** (module `AltTextService`). It checks the API key, looks up the asset URL and makes the URL absolute. It then tries three ways to read the image bytes. It encodes the bytes as a base64 data URL and posts it with the key and language. It chooses between the caption and the fallback, assigns the asset's `alt` and saves the asset. The function `Generate` specifies the procedure over the asset record, the settings and an `Io` record holding everything the environment answers. Its `Trace` records which steps touched the outside world. The method `GenerateAltText` performs the procedure on an `Asset` object whose `alt` it assigns, and it is proved equal to `Generate`.
- **`GenerateAltTextJob::execute`** (module `GenerateAltTextJob`). It models the queued job's guard chain before it hands over to the service. `Run` is the method for the job and `Execute` is its specification.
- **`GenerateController`** (module `GenerateController`):
  - The two bulk actions share one body, `RunBatch`. It resolves the site parameter, runs the count phase and then the page loop of each site. Each page holds 100 assets at offsets 0, 100, 200 and so on, and the loop ends at the first empty page. Each asset gets a per-asset dispatch that may throw.
  - `Batch` specifies that body. It returns the three counters, the jobs queued and the page fetches made.
  - `actionSingleAsset` is modelled by `SingleAsset` / `SingleAssetAction`.
- **`SettingsController`**. `actionVerifyApi` becomes `VerifyApi`. Each `throw` in its `try` becomes the failure reply carrying that message. `actionGetSettings` becomes `GetSettings`.
- **The element action `GenerateAltText::performAction`** (module `GenerateAltTextAction`). It is the loop over the selected elements that writes the fallback text, with the accumulators `$success` and `$failMessage`. `Fold` and `Action` specify it, and `PerformAction` is the loop.
- **The plugin class** (module `AltTextGenerator`). It covers the `EVENT_AFTER_SAVE` handler that queues a job for a new image, and the per-site counting of `settingsHtml`.
- **Shared modules:**
  - `Php` holds the PHP string semantics the code relies on: `trim`, `rtrim`, `empty` (where `"0"` is empty), `pathinfo(..., PATHINFO_FILENAME)`, `implode` and the host part of `parse_url`.
  - `Base64` is the encoding of section 4 of RFC 4648, with its decoder and the round trip.
  - `Assets` holds the asset record, the `Asset` element class, the settings model, sites, save outcomes and the asset queries.

The environment is given as data:

- HTTP replies and file contents;
- the store of assets;
- the sites registry;
- the permissions;
- the outcome of each save;
- the set of dispatches that throw.

The model therefore states exactly which requests, reads and saves each operation makes, and with what content.

## Model

| member | source | states |
|---|---|---|
| Php.Trim | src/services/AltTextService.php:112 | `trim` gives the slice of the input between a whitespace prefix and a whitespace suffix, with no whitespace at either end; it is empty exactly when every character of the input is whitespace |
| Php.TrimIdempotent | src/AltTextGenerator.php:366 | trimming an already trimmed string changes nothing |
| Php.Stem | src/services/AltTextService.php:117 | the stem is the prefix of the file name before its last `.`, or the whole name when it has no `.` |
| Php.HostOf | src/services/AltTextService.php:45 | the host is the stretch of the authority that starts after its last `@` (or at its start) and runs to the first `:` after that, or to the end; it holds no `:` |
| Php.UrlHost | src/services/AltTextService.php:45 | a host is found exactly when the URL has an authority part; the host is `HostOf` that authority, and it holds no `/`, `?` or `#` |
| Php.AbsoluteUrlHost | src/services/AltTextService.php:45 | the host of `scheme://host/path` is exactly `host` |
| Php.RootRelativeHasNoHost | src/services/AltTextService.php:45-48 | a root-relative path such as `/uploads/a.jpg` has no host, so it gets the site's base URL in front |
| Base64.Encode | src/services/AltTextService.php:92 | the encoding is 4·⌈n/3⌉ characters long and uses only the alphabet and `=` |
| Base64.DecodeEncodeGroup | src/services/AltTextService.php:92 | each group of one to three octets decodes back to itself, and a full group has no padding |
| Base64.DecodeEncode | src/services/AltTextService.php:92 | decoding the encoding of any octet string gives that string back |
| Assets.Select | src/controllers/GenerateController.php:105-111 | a query returns only store assets that match the kind, site and alt filter, and it returns every such asset |
| Assets.SelectAppend | src/controllers/GenerateController.php:131-140 | a query keeps store order and multiplicity: over two stretches of the store, it returns the matches of the first stretch and then those of the second |
| Assets.MissingAltFilterIsEmpty | src/controllers/GenerateController.php:134-137 | an asset matched by `alt IS NULL OR alt = ''` is PHP-empty and has no alt text |
| Assets.EmptinessChecksDisagree | src/AltTextGenerator.php:366 | the alt `"0"` has alt text for the counter but is empty for the job, and the alt `" "` has none for the counter yet is neither empty nor matched by the query |
| Assets.FallbackHasAltText | src/services/AltTextService.php:117 | the fallback `Image of …` always counts as alt text, under both the trim test and `empty` |
| AltTextService.AbsoluteUrl | src/services/AltTextService.php:44-48 | a URL with a host is unchanged; otherwise it ends in the URL and starts with the base URL stripped of trailing `/` |
| AltTextService.AbsoluteUrlUnchanged | src/services/AltTextService.php:45-48 | an absolute URL `scheme://host/path` whose host is truthy is passed on unchanged |
| AltTextService.Acquire | src/services/AltTextService.php:52-85 | the stages tried are a prefix of volume file, transform source, public URL; every stage before the last read nothing; the last one gives the result; nothing read means all three were tried |
| AltTextService.AcquireImage | src/services/AltTextService.php:52-85 | the imperative three stages read what `Acquire` specifies and try the same stages |
| AltTextService.DataUrlRoundTrip | src/services/AltTextService.php:92 | the data URL parses back to exactly the media type and the image octets (for a media type without `;`) |
| AltTextService.CaptionOrFallback | src/services/AltTextService.php:111-123 | a 200 reply whose trimmed body is not PHP-empty becomes the alt text, and anything else gives the fallback; the result always counts as alt text |
| AltTextService.Generate | src/services/AltTextService.php:25-131 | an empty key touches nothing; a missing URL stops after the lookup; each step needs the one before; a caption is requested, and the asset saved, exactly when the key is set, the URL is truthy and bytes were read; the saved record is the asset with its new alt; `alt` changes only when a save happens; the result is the save's outcome |
| AltTextService.GenerateAltText | src/services/AltTextService.php:25-131 | the method's return value, its trace and the asset's new state are those `Generate` gives for the asset before the call |
| AltTextService.AcquisitionOrder | src/services/AltTextService.php:52-90 | the stages run follow the fixed order, and when none reads anything there is no caption request and no save |
| AltTextService.CaptionRequestPayload | src/services/AltTextService.php:92-123 | the caption request carries the data URL of the bytes read, the key and the language; the alt follows the caption policy; the asset with that alt is then saved, and the result is the save's outcome |
| GenerateAltTextJob.Execute | src/jobs/GenerateAltTextJob.php:25-62 | a lookup exception is rethrown; a missing asset, a non-image or an asset with alt text each stop with their own outcome; otherwise the service runs exactly once on the asset found and its result is reported |
| GenerateAltTextJob.Run | src/jobs/GenerateAltTextJob.php:25-62 | the job method gives what `Execute` specifies |
| GenerateAltTextJob.SecondRunIsNoOp | src/jobs/GenerateAltTextJob.php:43-46 | after a successful run, a second job on the saved asset skips it, whatever the environment |
| GenerateController.FindSite | src/controllers/GenerateController.php:90 | a site found is registered under that id, and none is found only when no registered site has it |
| GenerateController.ResolveSites | src/controllers/GenerateController.php:89-100 | a given but unknown site id happens exactly when no sites are returned; a known id gives that one site; no id (or 0) gives all sites |
| GenerateController.Page | src/controllers/GenerateController.php:131-140 | a page holds at most 100 assets; it is the window of the matches starting at the offset, and it is empty past their end |
| GenerateController.Batch | src/controllers/GenerateController.php:75-209 | an invalid site is reported exactly when the id given is unknown; jobs queued ≤ assets processed; processed is the sum of the page sizes; every page holds at most 100 |
| GenerateController.DispatchedAppend | src/controllers/GenerateController.php:152-169 | the jobs queued for two runs of assets, one after the other, are the jobs of the first run followed by those of the second |
| GenerateController.DispatchedMembers | src/controllers/GenerateController.php:152-169 | a job is queued exactly for each asset of the run that the re-check does not skip and whose dispatch does not throw |
| GenerateController.FailureIsLocal | src/controllers/GenerateController.php:159-168 | a dispatch that throws loses only its own job; the loop goes on with the next asset |
| GenerateController.AllQueued | src/controllers/GenerateController.php:152-169 | without skips or failures, every asset gets its job, in order |
| GenerateController.MissingAltPagesSkipNothing | src/controllers/GenerateController.php:153-157 | on pages read from the same store as the missing-alt query, the `!empty($asset->alt)` re-check never skips |
| GenerateController.QueuedAtMostProcessed | src/controllers/GenerateController.php:143-165 | the queued count never exceeds the processed count |
| GenerateController.FetchPlanShape | src/controllers/GenerateController.php:126-178 | a site with n matches is fetched at offsets 0, 100, …; every page but the last is non-empty and at most 100; the last is empty; there are ⌈n/100⌉+1 fetches, and their sizes add up to n |
| GenerateController.TwoHundredFiftyAssets | src/controllers/GenerateController.php:126-178 | 250 matches take pages of 100, 100 and 50, then one empty fetch at offset 300 |
| GenerateController.ProcessedIsFetched | src/controllers/GenerateController.php:142-143 | the processed count is the sum of what the count queries would give for the store the pages read |
| GenerateController.PagesAreBounded | src/controllers/GenerateController.php:127-140 | no fetch returns more than 100 assets |
| GenerateController.ConsistentStoreCountsAgree | src/controllers/GenerateController.php:104-143 | when the store does not change between the two phases, the reported total equals the assets processed |
| GenerateController.DispatchPage | src/controllers/GenerateController.php:152-169 | the page loop queues exactly the jobs `Dispatched` specifies |
| GenerateController.PaginateSite | src/controllers/GenerateController.php:126-178 | the `while ($hasMore)` loop processes every match of the site, queues their jobs and makes the fetches of `FetchPlan` |
| GenerateController.CountPhase | src/controllers/GenerateController.php:104-115 | the count phase sums the count query over the sites |
| GenerateController.ProcessSites | src/controllers/GenerateController.php:120-179 | the processing phase gives, across the sites, the processed count, the queued jobs with their count, and the fetches |
| GenerateController.RunBatch | src/controllers/GenerateController.php:89-179 | the shared body returns what `Batch` specifies |
| GenerateController.GenerateAssetsWithoutAltText | src/controllers/GenerateController.php:75-209 | the missing-alt bulk action is `Batch` over images whose alt is null or `''` |
| GenerateController.GenerateAllAssets | src/controllers/GenerateController.php:216-336 | the all-assets bulk action is `Batch` over every image |
| GenerateController.SingleAsset | src/controllers/GenerateController.php:26-68 | not found gives "Asset not found"; an unpermitted volume gives a 403; otherwise the fallback is saved; success holds exactly when the save succeeded, and a failure reply carries the save's message |
| GenerateController.SingleAssetAction | src/controllers/GenerateController.php:26-68 | the action on an element gives what `SingleAsset` specifies |
| GenerateController.SingleAssetOverwrites | src/controllers/GenerateController.php:48 | the single-asset action overwrites existing alt text (unless it already equals the fallback), and what it saves always has alt text |
| SettingsController.Field | src/controllers/SettingsController.php:60 | `isset($data[$key])` holds exactly for an object with a non-null value at that key |
| SettingsController.VerifyApi | src/controllers/SettingsController.php:25-76 | an empty key (also `"0"`) fails with no request; otherwise one POST of `{"apiKey": key}` is sent to the verify endpoint; no body or a non-200 code fails, with "API Key not found" on 404; a 200 reply succeeds exactly when it sets `freeRewritesLeft` |
| SettingsController.VerifyReplyShape | src/controllers/SettingsController.php:60-75 | success, the credits and the "valid" message always come together, and every reply carries one of the five messages |
| SettingsController.ValidIff | src/controllers/SettingsController.php:33-68 | a key is reported valid exactly when it is not empty, the reply is 200 with a body, and the body sets `freeRewritesLeft`; the credits are that value |
| SettingsController.ZeroKeyIsRequired | src/controllers/SettingsController.php:33-35 | the key `"0"` is rejected as missing without contacting the service |
| SettingsController.GetSettings | src/controllers/SettingsController.php:83-106 | success holds exactly when the settings loaded; loaded settings are passed through; on an exception the reply is `""`, `"english"` and the message |
| SettingsController.LanguageDefaultsDisagree | src/models/Settings.php:22-27 | untouched settings report the language "en", while the exception path reports "english" |
| GenerateAltTextAction.CrashIsFinal | src/elements/actions/GenerateAltText.php:77-80 | after a re-read that comes back null, the loop does nothing more |
| GenerateAltTextAction.CrashedIff | src/elements/actions/GenerateAltText.php:77-80 | the loop dies exactly when some selected asset's re-read is null |
| GenerateAltTextAction.SuccessIff | src/elements/actions/GenerateAltText.php:67-100 | without a crash, `$success` stays true exactly when no element is refused permission or fails to save |
| GenerateAltTextAction.LastFailureWins | src/elements/actions/GenerateAltText.php:80-99 | after a failure, `$failMessage` is the text of the last failing element |
| GenerateAltTextAction.SavesComeFromSelection | src/elements/actions/GenerateAltText.php:77-94 | every save is the rewritten re-read of a selected asset the user may save |
| GenerateAltTextAction.SavesInOrder | src/elements/actions/GenerateAltText.php:71-100 | every permitted element is saved, in selection order: without a crash, the saves are the permitted rewrites of the whole selection; after a crash, they are those of the elements before the first null re-read |
| GenerateAltTextAction.SavesBounded | src/elements/actions/GenerateAltText.php:71-100 | at most one save per selected element |
| GenerateAltTextAction.SavesArePermittedFallbacks | src/elements/actions/GenerateAltText.php:80-94 | every save is of a permitted volume and carries the fallback alt text |
| GenerateAltTextAction.ActionOutcome | src/elements/actions/GenerateAltText.php:59-112 | the action finishes exactly when no re-read is null; it returns true exactly when no element failed; a failure message names the last failure |
| GenerateAltTextAction.PerformAction | src/elements/actions/GenerateAltText.php:59-112 | the loop with its accumulators gives what `Action` specifies, including the crash and the saves before it |
| AltTextGenerator.AfterSave | src/AltTextGenerator.php:114-124 | at most one job is queued; the job for the asset's id is queued exactly when the save is new, the asset is an image, auto-generation is on and the key is not PHP-empty |
| AltTextGenerator.HookedJobPassesKeyGuard | src/AltTextGenerator.php:118 | a job the hook queued for an image still without alt text gets past the service's key guard |
| AltTextGenerator.DisabledHookQueuesNothing | src/AltTextGenerator.php:117-118 | with auto-generation off, or an empty key (also `"0"`), nothing is queued |
| AltTextGenerator.WithPlusWithout | src/AltTextGenerator.php:363-371 | each image is counted once, with or without alt text |
| AltTextGenerator.WithoutCoversMissingAlt | src/AltTextGenerator.php:366 | the "without" count is at least the number the missing-alt query matches |
| AltTextGenerator.EntryConsistent | src/AltTextGenerator.php:344-387 | in each site's entry, with plus without is the total; the total is the number of the site's images; a failing site has zeros |
| AltTextGenerator.TableEntries | src/AltTextGenerator.php:343-388 | the table has an entry for exactly the sites iterated, and each entry is that site's |
| AltTextGenerator.TotalsAddUp | src/AltTextGenerator.php:381-382 | the all-sites totals add up to the images of the sites whose query succeeded |
| AltTextGenerator.CurrentDefaultsToZero | src/AltTextGenerator.php:391-393 | a current site with no entry gets 0 for each figure |
| AltTextGenerator.CurrentIsEntry | src/AltTextGenerator.php:391-393 | a listed current site gets its own entry |
| AltTextGenerator.CountAltText | src/AltTextGenerator.php:358-371 | the inner loop counts the images with and without alt text |
| AltTextGenerator.CountFigures | src/AltTextGenerator.php:338-393 | the counting part of `settingsHtml` builds the table, the totals and the current figures that `SettingsFigures` specifies |

## Left out

- The client-side JavaScript: the edit-page button, DOM lookup, `srcset` parsing and `fetch`. It runs in the browser.
- Template-root and URL-rule registration, `renderTemplate`, `handleAssetActionMenuItems` and the display labels. These are framework wiring and UI.
- cURL, `file_get_contents` and `file_exists`. They are given as data: `Io.reply`, `Io.files` and `Io.web`.
- The Craft queue, `saveElement`, the permission checks and element queries. They are given as data too: `AssetRecord -> SaveOutcome`, a set of permitted volumes, a store and a site registry. The order in which a query returns assets is that of the store.
- Logging, flash messages and redirects. Only the outcome chosen is kept (`BatchResult`, `JobOutcome`).
- `Craft::t` translation. Messages are the source's English texts.
- `gc_collect_cycles`. It is a memory hint with no effect on the results.
- Concurrency between queued jobs and editors. The one race modelled is a store that changes between the count query and the page queries (`countStore` and `store`).
- `requirePostRequest`, `requireAcceptsJson` and `getRequiredBodyParam`.
  - Their 400 and 403 responses for a missing parameter or a wrong request are not modelled.
  - Parameters are assumed to be strings or ints.
  - The `requirePermission('accessCp')` of the bulk actions is not modelled.
  - The single-asset permission check is modelled (`Forbidden`).
- `createJob`: the services class the bulk actions call (`AiAltText`/`AiAltTextService`) is not defined in the plugin. Each per-asset dispatch is abstract: `failing` lists the dispatches that throw. Its six flags are not modelled.
- GenerateController.RunBatch: it assumes that `AiAltText::getInstance()->getSettings()` (src/controllers/GenerateController.php:83 and :224) succeeds.
  - That class is not defined, so under PHP 7 or later that line raises an `Error` before the `try`.
  - That `Error` stops both bulk actions before the site is resolved.
  - The model describes the actions as they would run if that class existed.
- GenerateController.Batch: it does not model an exception from the count or page queries, which the outer `catch` turns into an error flash. The queries are total.
- AltTextService.Generate: the outer `catch (\Exception)` covers only a save that throws (`SaveOutcome.Threw`) and ends in `false`. An exception from `getUrl` or `getMimeType` is not modelled. Exceptions in the first two stages are modelled as stages that read nothing.
- Php.UrlHost approximates `parse_url`. It recognises authorities in `scheme://…` and `//…` form only, and removes user information and the port.
- AltTextService.Yield joins the volume's root path and the asset path with `/`, for `DIRECTORY_SEPARATOR` (src/services/AltTextService.php:60). This assumes a POSIX system. The joined path matters only as a key of the `files` map.
- Php.Stem models `pathinfo(..., PATHINFO_FILENAME)` on a base name. Directory parts in `filename` are not removed, since Craft's asset file names have none.
- The job's `$asset` is re-read into a fresh element (`new Asset`) in each method, so aliasing between elements is not modelled.
- Duplicate site ids in the registry are allowed. The counts table keeps the last entry, as `$siteAltTextCounts[$site->id] = …` does.
- Assets.MatchesMissingAltFilter: the query condition `alt = ''` is modelled as exact string equality. That is how PostgreSQL and NO PAD collations compare.
  - Under a PAD SPACE collation (MySQL 5.7, MariaDB's `utf8mb4_unicode_ci`), trailing spaces are ignored, so a blank alt such as `" "` also matches.
  - The claim that the query does not match a blank alt (`Assets.EmptinessChecksDisagree`) holds only under exact comparison.
- `src/models/Settings.php` has no behaviour. It is the `Settings` datatype with its defaults, `DefaultSettings`. Its properties are typed non-null, so the `?? ''` and `?? 'english'` fallbacks in `generateAltText` and `actionGetSettings` never fire.

## Notes on the code

- The pagination loop stops only on an empty page. A site with 250 matches therefore takes four fetches (100, 100, 50 and an empty one at offset 300), not three. The model follows the code (`GenerateController.TwoHundredFiftyAssets`).
- The default language is `"en"` in the settings model, but `actionGetSettings` falls back to `"english"` on an exception (`SettingsController.LanguageDefaultsDisagree`).
- The three places that ask "has alt text?" disagree (`Assets.EmptinessChecksDisagree`):
  - the job and the bulk re-check use PHP `empty`;
  - the missing-alt query uses `alt IS NULL OR alt = ''`, compared exactly (a PAD SPACE collation would also match `" "`);
  - the settings counter trims.
