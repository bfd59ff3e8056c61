# AF-PWA in Dafny

AF-PWA is a Laravel package. It turns a Laravel application into a Progressive Web App. This project models its core in Dafny and proves properties of that model:

- **The two service workers.** Each decides which requests it intercepts and runs cache strategies over named caches. It synthesizes 408 and 503 JSON answers when the network fails, chooses an offline page, and manages cache generations at install, activate and on messages. One worker is built from a JavaScript template; the other is rendered from a Blade view.
- **The server side.** The route checks, route discovery and configuration of the manager class, the allowlist and manifest lists of the PWA service, and the session-expiry arithmetic of the session manager.
- **The two page scripts.** Both define an `AfPwa` class. They cover CSRF handling (token injection, the retry after a 419, the token refresh), notification routing, the session-timeout latch and the offline retry queue.
- **The Artisan commands.** `.env` and config rewriting, the JavaScript syntax heuristic and auto-fix, step selection, colour darkening, the minifier, the manifest rewrite, the validators and the placeholder-icon loop.
- **The icon generator page.** The icon matrix, colour shading, the shortcut and protocol-handler lists, and the manifest it builds.

The browser and the framework appear only through explicit parameters:

- a `fetch` is an oracle answer `Answered(response) | TimedOut | Aborted | Failed`;
- `CacheStorage` is a class holding the cache names in creation order and a map from name to (URL → response);
- files are `Option<string>` contents;
- the clock, route tables, prompt answers and checkbox states are plain values.

Code that works by mutation is modelled imperatively:

- the cache handlers are methods over a `CacheStorage` object;
- both `AfPwa` classes, the test command's result lists and the icon generator's globals are classes whose methods state their whole new state;
- loops that update variables are `while` or `for` loops with the invariants their proofs need; a loop that only computes a value (such as `canAutoFix`'s `foreach`) is a recursive function.

Pure code (classifiers, string rewriting, colour arithmetic) is modelled as functions, with lemmas for the promised properties.

Modules, one per source file plus shared ones:

| module | models |
|---|---|
| `Wrappers`, `Text`, `Glob`, `ManifestJson`, `HexColor` | `Option`; JavaScript and PHP string helpers; `*`-wildcard matching as the service-worker `RegExp` and Laravel's `Str::is` do it; decoded JSON and PHP's `empty`; `hexdec` and `sprintf('%02x')` |
| `Web`, `Csrf` | requests, responses, `FormData`, the named caches (W3C Service Workers, section 5); the CSRF token extraction both scripts share |
| `TemplateWorker`, `BladeWorker` | resources/js/service-worker.template.js, resources/views/service-worker.blade.php |
| `PwaManager`, `Session`, `PwaService` | src/AfPwaManager.php, src/Services/SessionManager.php, src/Services/PWAService.php |
| `Client`, `ResourcesClient`, `PublicClient` | what the two page scripts share; resources/js/af-pwa.js; public/js/af-pwa.js |
| `InstallCommand`, `TestCommand`, `GenerateCommand`, `GeneratePwa`, `GenerateIconsCommand` | the five console commands |
| `IconGenerator` | icon-generator-script.js |

The two generate commands run the same service-worker minifier. The one in src/Console/Commands/GeneratePWA.php:251-274 performs the same four rewrites as src/Console/GenerateCommand.php:347-374, so `GenerateCommand.OptimizeServiceWorker` models both.

## Model

| member | source | states |
|---|---|---|
| Web.ErrorName | resources/js/service-worker.template.js:184-226 | a rejected fetch is an `AbortError` exactly when it was aborted, or timed out under a manual `AbortController` rather than `AbortSignal.timeout` |
| Web.ResolveAll | resources/js/service-worker.template.js:59-67 | every configured path is resolved on the worker's own origin, one URL per path, in order |
| Web.FormSetThenGet | resources/js/service-worker.template.js:346-347 | after `formData.set('_token', t)`, `get('_token')` yields `t` |
| Web.FormSetKeepsOthers | resources/js/service-worker.template.js:346-347 | `set` leaves every other field's value unchanged |
| Web.FormSetSingle | resources/js/service-worker.template.js:346-347 | after `set` exactly one entry carries the name |
| Web.FirstMatch | resources/js/service-worker.template.js:458-466 | `caches.match` finds nothing exactly when no cache holds the key; otherwise it returns the entry of the first cache, in creation order, that holds the key |
| Web.OpenKeepsMatch | resources/js/service-worker.template.js:136-141 | opening (creating) a cache never changes what `caches.match` finds |
| Web.CacheStorage.Open | resources/js/service-worker.template.js:57 | `caches.open` appends a missing cache, empty, and changes nothing else |
| Web.CacheStorage.Put | resources/js/service-worker.template.js:148-150 | `cache.put` sets exactly the one key of the one cache |
| Web.CacheStorage.Delete | resources/js/service-worker.template.js:88-92 | `caches.delete` reports whether the cache existed and removes exactly that cache |
| Web.CacheStorage.AddAll | resources/js/service-worker.template.js:59-62 | `cache.addAll` stores every response in order when every fetch is ok, and otherwise stores nothing |
| Web.DeleteUnless | resources/js/service-worker.template.js:85-95 | the clean-up loop over `caches.keys()` deletes exactly the caches the test rejects, keeping the rest in order with their entries |
| Web.Without | resources/views/service-worker.blade.php:76-88 | removing a set of names keeps exactly the other names, in order |
| Web.WithoutTwice | resources/views/service-worker.blade.php:76-88 | deleting two sets of names one after the other is deleting their union |
| Glob.LiteralMatchesItself | resources/views/service-worker.blade.php:196-204 | a pattern without wildcards matches exactly itself |
| Glob.StarMatchesFree | resources/views/service-worker.blade.php:196-204 | a lone `*` matches exactly the strings without line terminators |
| Glob.PrefixStarMatches | resources/views/service-worker.blade.php:196-204 | `q*` matches exactly the strings that start with `q` and continue without line terminators |
| Csrf.QuoteFreeRun | resources/js/service-worker.template.js:333 | the `[^"]+` run stops at the first quote or at the end |
| Csrf.TokenAt | resources/js/service-worker.template.js:333 | a match at one index yields its capture, and no capture when the expression does not match there |
| Csrf.CaptureIsRun | resources/js/service-worker.template.js:333 | the capture of a match is exactly the quote-free run after `name="csrf-token" content="` |
| Csrf.ExtractFrom | resources/js/service-worker.template.js:333 | the leftmost match at or after an index: the capture of a match at some index from there with no match at any index before it; none when nothing matches from there |
| Csrf.ExtractToken | resources/js/service-worker.template.js:333 | a found token is the capture of the leftmost match in the page, as `html.match` returns it, and is non-empty, quote-free and between the prefix and a quote; none exactly when the expression matches nowhere |
| Csrf.MetaTagYieldsToken | resources/js/service-worker.template.js:333 | the meta tag Laravel layouts render yields its token |
| TemplateWorker.GenerationCachesCarryVersion | resources/js/service-worker.template.js:9-12 | the page, asset and API cache names of one configuration are pairwise distinct and each contains the cache version |
| TemplateWorker.SubstringVersionKeepsLaterGeneration | resources/js/service-worker.template.js:88-92 | activation tests the version as a substring, so version `v1` keeps a cache named `App-v10` |
| TemplateWorker.StarSuffixRemoved | resources/js/service-worker.template.js:421-423 | `replace('*', '')` on a pattern whose only `*` is last yields the pattern without it |
| TemplateWorker.RouteMatches | resources/js/service-worker.template.js:418-427 | every match starts with the pattern minus its first `*` (the whole pattern when it has none); a pattern without `*` matches a longer path only when a `/` follows it |
| TemplateWorker.IsStaticAsset | resources/js/service-worker.template.js:30-38 | a pathname without a dot is its own last segment, so it is an asset only through an asset pattern; the extension and pattern lists are the only inputs |
| TemplateWorker.IsApiRequest | resources/js/service-worker.template.js:43-46 | no API patterns means no API request; an empty pattern makes every path one, since `includes("")` holds |
| TemplateWorker.TrailingStarRouteIsPrefix | resources/js/service-worker.template.js:418-427 | a route ending in its only `*` matches exactly the paths that start with the rest of the route |
| TemplateWorker.SegmentBoundary | resources/js/service-worker.template.js:418-427 | a route without `*` matches the path itself or below a `/` (`/admin` matches `/admin/users`, not `/administrator`); `/admin*` matches both |
| TemplateWorker.UpperCaseExtensionIsAsset | resources/js/service-worker.template.js:30-38 | the extension is lower-cased before the lookup, so `/img/logo.PNG` is a static asset |
| TemplateWorker.SourceMapIsNotAsset | resources/js/service-worker.template.js:30-38 | only the text after the last dot is the extension: with no asset patterns `/app.js.map` is not a static asset |
| TemplateWorker.ExtensionAfterLastDot | resources/js/service-worker.template.js:32 | `split('.').pop()` of `base.ext` is `ext` when `ext` has no dot |
| TemplateWorker.Route | resources/js/service-worker.template.js:105-131 | the fetch listener leaves cross-origin requests, requests neither a route nor an asset, and methods other than GET and POST to the browser; a GET goes to the asset, else the API, else the page handler; a POST to the POST handler (each direction an iff) |
| TemplateWorker.AssetsWinOverRoutesAndApi | resources/js/service-worker.template.js:115-127 | a same-origin GET for a static asset goes to the asset handler even when no route covers it and it also looks like an API call |
| TemplateWorker.StaticAssetReply | resources/js/service-worker.template.js:136-179 | always a response: under cache-first, or when the fetch fails, a hit is served; otherwise the fetched response; with neither, the 503 text |
| TemplateWorker.StaticAssetEffect | resources/js/service-worker.template.js:136-179 | the asset cache is always opened and written exactly when the fetch answers ok |
| TemplateWorker.HandleStaticAsset | resources/js/service-worker.template.js:136-179 | the reply is `StaticAssetReply` of the asset-cache entry found before the fetch, and the caches change exactly by `StaticAssetEffect`: the asset cache is opened and exactly an ok response is written |
| TemplateWorker.ApiReply | resources/js/service-worker.template.js:184-237 | always a response: the fetched one whatever its status; on failure the cached entry for a network-first GET, else the 408 body for an abort or timeout and the 503 body for anything else |
| TemplateWorker.ApiEffect | resources/js/service-worker.template.js:184-237 | the API cache is written exactly for an ok GET response, opened without a write exactly for a failed network-first GET, and otherwise untouched |
| TemplateWorker.HandleApiRequest | resources/js/service-worker.template.js:184-237 | the reply is `ApiReply` of the API-cache entry found before the fetch and the caches change exactly by `ApiEffect`: only an ok GET response is written |
| TemplateWorker.FirstCovering | resources/js/service-worker.template.js:454-463 | returns the first entry at or after the start whose pattern covers the path, and none before it covers it; none when no entry covers it |
| TemplateWorker.OfflinePageFor | resources/js/service-worker.template.js:448-467 | the page of the first entry, in insertion order, whose pattern covers the path; the default offline page when none covers it |
| TemplateWorker.RootEntryShadowsLater | resources/js/service-worker.template.js:454-463 | when the first entry is `/*`, every absolute path gets that entry's page, so later entries are never consulted |
| TemplateWorker.GetOfflinePage | resources/js/service-worker.template.js:448-467 | the result is what all the caches hold for the page of the first covering entry, or for the default offline page |
| TemplateWorker.PageReply | resources/js/service-worker.template.js:242-270 | never a bypass; an answered fetch is served as is; a failed one falls back to the cached page, then the offline page, and ends in a network error exactly when both are missing |
| TemplateWorker.PageEffect | resources/js/service-worker.template.js:242-270 | the page cache is written exactly for an ok response; a response that is not ok leaves the caches untouched; a failed fetch only opens the page cache |
| TemplateWorker.HandlePageRequest | resources/js/service-worker.template.js:242-270 | the reply is `PageReply` of the page-cache entry and the offline page found before the fetch, and the caches change exactly by `PageEffect` |
| TemplateWorker.HandlePostRequest | resources/js/service-worker.template.js:428-443 | the later declaration: an answered POST is passed through unchanged, any failure becomes the 503 offline body |
| TemplateWorker.HandleCsrfError | resources/js/service-worker.template.js:320-371 | with `auto_refresh` literally false nothing is sent and the original is returned; otherwise at most the token page and one retry are fetched, the retry happens exactly when the page is ok and holds a token, and only an ok retry replaces the original |
| TemplateWorker.HandleSessionError | resources/js/service-worker.template.js:376-392 | the original response is returned and nothing is fetched; one `session_expired` notice is posted exactly when `show_notification` is set |
| TemplateWorker.HandlePostRequestShadowed | resources/js/service-worker.template.js:275-315 | the first declaration: 419 goes to the CSRF handler, 401 and 403 to the session handler, other statuses pass through; a failure yields 408 exactly for an abort |
| TemplateWorker.CsrfRetryIsUnreachable | resources/js/service-worker.template.js:275-289 | because the later `handlePostRequest` wins, a 419 from a POST reaches the page unchanged although the shadowed handler would have retried it and returned the ok retry |
| TemplateWorker.HandleFetch | resources/js/service-worker.template.js:105-131 | requests outside the worker's scope are bypassed with the caches unchanged; the asset, API and page routes give exactly their handler's reply and cache change; a POST is answered by `HandlePostRequest` and never cached; every handled request gets a reply other than a bypass, which is a response except for a page request that fails with nothing cached |
| TemplateWorker.RoutesToCache | resources/js/service-worker.template.js:58 | the routes pre-cached at install are exactly the configured routes without `*` |
| TemplateWorker.Install | resources/js/service-worker.template.js:51-77 | opens the page cache then the asset cache; each `addAll` is all-or-nothing; the page batch fails whenever offline pages are configured (their object is spread); `skipWaiting` runs exactly when both batches succeed |
| TemplateWorker.OfflinePageUrls | resources/js/service-worker.template.js:61 | the offline page URLs are the entries' values in insertion order |
| TemplateWorker.InstallCorrected | resources/js/service-worker.template.js:51-77 | the install step with the offline page URLs spread: it skips waiting exactly when every fetch is ok, and then every route, offline page and asset is cached |
| TemplateWorker.Activate | resources/js/service-worker.template.js:82-100 | deletes exactly the caches whose name does not contain the version; the rest keep their entries and their creation order, which decides what `caches.match` finds |
| TemplateWorker.ClearAllCaches | resources/js/service-worker.template.js:485-489 | afterwards no cache exists |
| TemplateWorker.HandleMessage | resources/js/service-worker.template.js:472-480 | `SKIP_WAITING` asks to skip waiting, `CACHE_CLEAR` deletes every cache, any other type changes nothing |
| BladeWorker.IsRouteAllowed | resources/views/service-worker.blade.php:196-204 | an empty allowlist allows every path; a plain entry (no `*`, `.` or other regular-expression character) allows itself; the entry `*` allows every path without a line terminator |
| BladeWorker.LiteralAllowlist | resources/views/service-worker.blade.php:196-204 | a non-empty allowlist of plain paths allows exactly its own entries |
| BladeWorker.StarPatternIsPrefix | resources/views/service-worker.blade.php:196-204 | with the single allowlist entry `q*` (no other `*` or `.`, and none of the other regular-expression characters), a path is allowed exactly when it starts with `q` and has no line terminator after it |
| BladeWorker.DotIsWildcard | resources/views/service-worker.blade.php:196-204 | a `.` in an allowlist entry is not escaped, so `/a.b` also allows `/axb` |
| BladeWorker.UpperCaseExtensionIsAsset | resources/views/service-worker.blade.php:206-210 | the extension test ignores case: `/a.PDF` is a static asset |
| BladeWorker.BareExtensionIsNotAsset | resources/views/service-worker.blade.php:206-210 | the extension must follow a dot: `/pdf` is not a static asset |
| BladeWorker.IsStaticAsset | resources/views/service-worker.blade.php:206-210 | an asset exactly when some dot of the path is followed by text whose lower-case form is a listed extension |
| BladeWorker.IsApiRequest | resources/views/service-worker.blade.php:212-217 | an `X-Requested-With: XMLHttpRequest` request is an API request whatever its path; without that header the path must be at least as long as `/api/` and start with `/` |
| BladeWorker.IsPageRequest | resources/views/service-worker.blade.php:219-221 | a request without `Accept` is never a page request; one whose `Accept` starts with `text/html`, as a browser navigation sends, always is |
| BladeWorker.Route | resources/views/service-worker.blade.php:95-127 | non-GET and cross-origin requests are not intercepted; a path outside the allowlist gets the redirect page; allowed requests go to the asset, API or page handler in that order, and a request that is none of these is not intercepted (each an iff) |
| BladeWorker.RedirectPage | resources/views/service-worker.blade.php:223-244 | a 200 HTML page whose meta refresh points at the request URL |
| BladeWorker.StaticStrategy | resources/views/service-worker.blade.php:246-259 | the static strategy is `cache.static_strategy`, else the worker's strategy; unknown names fall to cache-first |
| BladeWorker.StrategyReply | resources/views/service-worker.blade.php:323-377 | a strategy serves either the entry found before the fetch or the fetched response, fails exactly when there is neither, serves a hit unless it is network-first, and serves the fetched response under network-first |
| BladeWorker.CacheFirstFetch | resources/views/service-worker.blade.php:323-340 | returns a hit without fetching; otherwise the fetched response, written when ok |
| BladeWorker.NetworkFirstFetch | resources/views/service-worker.blade.php:342-359 | the fetched response wins and is written when ok; a failure falls back to the cached entry, else fails |
| BladeWorker.StaleWhileRevalidateFetch | resources/views/service-worker.blade.php:361-377 | returns the cached entry when there is one while the fetch still runs and writes an ok response; with no entry returns the fetched response |
| BladeWorker.HandleStaticAsset | resources/views/service-worker.blade.php:246-259 | runs the configured strategy, with the reply and cache writes `StrategyReply` and `StrategyWrites` describe |
| BladeWorker.ApiReply | resources/views/service-worker.blade.php:261-295 | always a response: the fetched one whatever its status, else the entry found before the fetch, else the 503 JSON body |
| BladeWorker.HandleApiRequest | resources/views/service-worker.blade.php:261-295 | network first: the reply is `ApiReply` of the entry any cache held before the fetch, and the only change is writing an ok GET response to `CACHE_NAME` |
| BladeWorker.OfflineKind | resources/views/service-worker.blade.php:384-390 | `admin` exactly for paths starting `/admin`, `member` exactly for others starting `/member`, `default` otherwise (plain prefixes, so `/administrator` counts as admin) |
| BladeWorker.InlineOfflinePage | resources/views/service-worker.blade.php:406-429 | the last-resort 200 HTML page, titled after the manifest name or `PWA` |
| BladeWorker.OfflinePage | resources/views/service-worker.blade.php:379-430 | the cached page for the path's kind when there is one, else the cached default page, else a 200 HTML page |
| BladeWorker.PageReply | resources/views/service-worker.blade.php:297-321 | always a response: the fetched one, else the entry found before the fetch, else the offline page |
| BladeWorker.HandlePageRequest | resources/views/service-worker.blade.php:297-321 | network first: the reply is `PageReply` of the entry any cache held and of the offline page, and the only change is writing an ok response to `CACHE_NAME`; a page request always gets a response |
| BladeWorker.HandleFetch | resources/views/service-worker.blade.php:95-127 | requests that are not intercepted are bypassed with the caches unchanged; disallowed paths get the redirect page with the caches unchanged; the static, API and page routes give exactly their handler's reply and cache writes; every intercepted request gets a reply other than a bypass |
| BladeWorker.OfflineUrl | resources/views/service-worker.blade.php:33 | an offline page entry's URL is never empty: its `url`, else `/offline-<name>.html` |
| BladeWorker.OfflineUrls | resources/views/service-worker.blade.php:33 | one URL per offline page entry, in order |
| BladeWorker.DropEmpty | resources/views/service-worker.blade.php:42 | `filter(Boolean)` keeps exactly the non-empty strings |
| BladeWorker.EssentialAssets | resources/views/service-worker.blade.php:30-42 | the install list starts with `/` and `/manifest.json`, contains every offline page URL, contains at most the first 20 static assets and only when `cache.static_assets` is set |
| BladeWorker.InstallListMembers | resources/views/service-worker.blade.php:30-39 | every offline page URL, and with `cache.static_assets` each of the first 20 assets, is in the list before filtering, and nothing else is |
| BladeWorker.PutOkKeepsOnlyOk | resources/views/service-worker.blade.php:45-58 | install stores exactly the keys that got an ok answer, and every stored response was there before or is an ok answer for its key |
| BladeWorker.Install | resources/views/service-worker.blade.php:21-69 | opens the cache, fetches every listed asset on its own and stores each ok response, ignores failures, and always skips waiting |
| BladeWorker.Activate | resources/views/service-worker.blade.php:72-92 | deletes every cache except `CACHE_NAME`, which keeps its entries |
| BladeWorker.HandleMessage | resources/views/service-worker.blade.php:130-160 | `SKIP_WAITING` skips waiting, `GET_VERSION` answers with the cache name, `CACHE_URLS` adds all the URLs or none, `CLEAR_CACHE` deletes `CACHE_NAME` only; anything else changes nothing |
| PwaManager.AssignShape | src/AfPwaManager.php:457 | `$pages[$key] = $v` keeps an existing key in its place and appends a new one |
| PwaManager.AssignEntries | src/AfPwaManager.php:457 | the assignment adds no entry other than the assigned one |
| PwaManager.AssignThenGet | src/AfPwaManager.php:457 | after the assignment the key reads back as the value and every other key as before |
| PwaManager.Dedup | src/AfPwaManager.php:558 | the values `array_unique` keeps: exactly the elements of the list, without repeats, never more of them (their keys are `DedupKeys`) |
| PwaManager.DedupKeys | src/AfPwaManager.php:558 | the keys `array_unique` keeps: for each kept value, in order, the index of its first occurrence, strictly increasing |
| PwaManager.DedupKeysContiguous | src/AfPwaManager.php:512 | the keys of the routes `getFrontendConfig` hands to `@json` run 0, 1, 2, ... (the only case `json_encode` writes as a list) exactly when the first occurrences are the front of the list |
| PwaManager.KeysFromFront | src/AfPwaManager.php:558 | when the kept values are the front of the list, the kept keys are 0 up to their count |
| PwaManager.RepeatLeavesGap | src/AfPwaServiceProvider.php:214 | `['/a', '/a', '/b']` keeps the keys 0 and 2, which `json_encode` writes for the info route and the page config as the object `{"0":"/a","2":"/b"}` |
| PwaManager.DedupDistinct | src/AfPwaManager.php:558 | a list without repeats is its own `array_unique` |
| PwaManager.AnyRouteCovers | src/AfPwaManager.php:470-483 | the `isPwaRoute` loop is true exactly when some route, slashes trimmed, is the path or a parent segment of it |
| PwaManager.RouteCoversSegments | src/AfPwaManager.php:475-478 | a route covers itself and its sub-paths however it is slashed, and not a longer sibling segment (`/admin` does not cover `administrator`) |
| PwaManager.SkippedRoutes | src/AfPwaManager.php:628-648 | every URI with a `{` is skipped, and the patterns are substrings: `therapi/notes` is skipped as an API route |
| PwaManager.ShouldSkipRoute | src/AfPwaManager.php:628-648 | a URI starting with `api/` is skipped, and the empty URI never is |
| PwaManager.StarPatternMatches | src/AfPwaManager.php:653-663 | `base*` matches exactly the URIs that start with a non-empty `base`; `*` alone matches nothing, since Laravel's `startsWith` refuses an empty prefix |
| PwaManager.MatchesPattern | src/AfPwaManager.php:653-663 | a pattern made only of `*` matches nothing, and the empty URI is matched only by the empty pattern |
| PwaManager.ExactPatternMatches | src/AfPwaManager.php:653-663 | a pattern without a trailing `*` matches only the identical URI |
| PwaManager.ReplaceParamsNoBrace | src/AfPwaManager.php:671 | text without `{` has no route parameter to replace |
| PwaManager.ReplaceParamsSegment | src/AfPwaManager.php:671 | the first `{name}` becomes one `*`, the text before it kept |
| PwaManager.ConvertToWildcardPattern | src/AfPwaManager.php:668-682 | a URI that contains `{` always comes out ending in `*` |
| PwaManager.ConvertWithoutParams | src/AfPwaManager.php:668-682 | without `{` only the `/*/*` clean-up applies, and without `/*/*` as well the URI is returned unchanged |
| PwaManager.ConvertSingleParameter | src/AfPwaManager.php:668-682 | `/users/{id}` becomes `/users/*` |
| PwaManager.SingleParameter | src/AfPwaManager.php:668-682 | the single `{id}` of `/users/{id}` is replaced by `*` |
| PwaManager.ConvertAdjacentParameters | src/AfPwaManager.php:668-682 | `/a/{x}/{y}` becomes `/a/*` |
| PwaManager.Normalize | src/AfPwaManager.php:597 | `'/' . ltrim($uri, '/')` always starts with a slash |
| PwaManager.RouteCandidatesMembers | src/AfPwaManager.php:600-608 | one route proposes a URI exactly when it is that route's converted URI and some discovery pattern matches |
| PwaManager.DiscoveredShape | src/AfPwaManager.php:572-623 | discovery returns no repeats and always `/`, first unless a route produced it; besides `/` it holds exactly the converted URIs of the GET routes not skipped that match a pattern |
| PwaManager.DiscoveredHaveNoParams | src/AfPwaManager.php:590-599 | parameterised routes are skipped before conversion, so no discovered route holds a `{` |
| PwaManager.ProposeRoute | src/AfPwaManager.php:600-608 | the inner loop appends each new converted URI once, keeping the list equal to `array_unique` of everything proposed so far |
| PwaManager.Starred | src/AfPwaManager.php:457 | one key per configured route, the route followed by `*` |
| PwaManager.OfflineEntriesShape | src/AfPwaManager.php:448-465 | the offline-page array has one key per distinct starred route, in first-appearance order, each mapped to the offline page |
| PwaManager.JoinUrl | src/AfPwaManager.php:687-691 | the asset URL is the base without trailing slashes, one slash, the path without leading slashes |
| PwaManager.JoinUrlSingleSlash | src/AfPwaManager.php:687-691 | exactly one slash joins base and path, and adding slashes on either side changes nothing |
| PwaManager.Manager.GetAssetUrl | src/AfPwaManager.php:687-691 | starts with the configured `asset_url` (default `/vendor/af-pwa`) without trailing slashes plus one `/`, and ends with the path without leading slashes |
| PwaManager.Manager.GetConfig | src/AfPwaManager.php:488-495 | a falsy key returns the whole configuration; any other key its value, or null when missing |
| PwaManager.Manager.SetConfig | src/AfPwaManager.php:500-503 | afterwards the key reads back as the value and every other key as before |
| PwaManager.Manager.IsPwaRoute | src/AfPwaManager.php:470-483 | with no routes configured no path is a PWA route |
| PwaManager.Manager.GetStaticAssets | src/AfPwaManager.php:427-443 | the configured assets in order, then AF-PWA's own two |
| PwaManager.Manager.GetOfflinePages | src/AfPwaManager.php:448-465 | the offline-page array over `pwa_routes`, which defaults to `/` alone |
| PwaManager.Manager.DiscoverApplicationRoutes | src/AfPwaManager.php:572-623 | the discovered list when the route table can be read, `['/']` when it throws |
| PwaManager.Manager.GetDiscoveredRoutes | src/AfPwaManager.php:549-559 | no repeats; configured routes, when there are any, are exactly their `array_unique` values (`Dedup`, whose keys are `DedupKeys`); otherwise the discovered routes with discovery on (the default), nothing with it off |
| PwaManager.Manager.ServiceWorkerConfig | src/AfPwaManager.php:193-229 | the worker's configuration: the static assets and the offline URL as given, and routes defaulting to three sections |
| PwaManager.Manager.GeneratedOfflinePagesNonEmpty | src/AfPwaManager.php:205-211 | unless `pwa_routes` is an empty list, the generated worker gets a non-empty `offline_pages` object |
| Session.MetadataKey | src/Services/SessionManager.php:228-234 | every metadata key lies under the cache prefix |
| Session.CountsBounded | src/Services/SessionManager.php:326-362 | no key counts as both active and expired, so the two counters never exceed the number of keys |
| Session.CountStaleIsStaleKeys | src/Services/SessionManager.php:298-362 | over keys without repeats, the expired counter of the statistics is the number of entries cleanup removes |
| Session.SessionManager.constructor | src/Services/SessionManager.php:16-19 | starts with the given configuration and lifetime and no stored metadata |
| Session.SessionManager.Lifetime | src/Services/SessionManager.php:257-260 | the lifetime is the configured minutes times 60 seconds |
| Session.SessionManager.Ttl | src/Services/SessionManager.php:231 | metadata is kept by the cache for five minutes past the lifetime |
| Session.SessionManager.IsValid | src/Services/SessionManager.php:85-101 | a valid session has its token and metadata |
| Session.SessionManager.GetTimeoutInfo | src/Services/SessionManager.php:106-131 | without live metadata (none stored, or its cache TTL has passed) the report is expired, with no time left, a warning and no refresh fields; otherwise expired exactly when no time remains, the time remaining clipped at 0, a warning exactly in the last warning window, auto-refresh defaulting to on, and the next refresh time |
| Session.SessionManager.ExpiredAgreesWithValidity | src/Services/SessionManager.php:85-131 | with the token present, the report says expired exactly when `isValid` rejects the session |
| Session.SessionManager.GetNextRefreshTime | src/Services/SessionManager.php:265-272 | the last refresh, else the last activity, else now, plus the refresh interval |
| Session.SessionManager.GetTimeoutRedirectUrl | src/Services/SessionManager.php:277-293 | the admin, member or general login URL by the path's prefix, each defaulting to `/login` |
| Session.SessionManager.RedirectByCharacterPrefix | src/Services/SessionManager.php:277-293 | the test is on characters: `administrators` goes to the admin login, `members-area` to the member login |
| Session.SessionManager.StoreSessionMetadata | src/Services/SessionManager.php:228-234 | stores the metadata stamped now with the TTL and changes no other entry; it reads back exactly until the TTL has passed, and a TTL that is not positive forgets the key |
| Session.SessionManager.Initialize | src/Services/SessionManager.php:24-42 | stores fresh metadata stamped now; the session is then valid and its next refresh is one interval away; once the TTL has passed the report is the one for missing metadata |
| Session.SessionManager.Refresh | src/Services/SessionManager.php:47-80 | on success returns the new token, stamps both activity and refresh time with now, and while the entry lives the next refresh is one interval away; on failure stores nothing and returns the login URL |
| Session.SessionManager.UpdateActivity | src/Services/SessionManager.php:153-167 | with metadata only `last_activity` changes and the session is valid again; without metadata nothing changes |
| Session.SessionManager.HandleTimeout | src/Services/SessionManager.php:136-148 | removes exactly the session's metadata, after which the session is never valid, and returns the login URL for the path |
| Session.SessionManager.ForceLogout | src/Services/SessionManager.php:367-389 | the metadata is removed even when logging out fails; a failure redirects to `/login` |
| Session.SessionManager.Cleanup | src/Services/SessionManager.php:298-321 | on a store other than Redis, `Cache::getRedis()` raises an `\Error` that `catch (\Exception)` lets through: the call throws and the store is unchanged; on Redis it removes and counts exactly the entries idle for more than the lifetime, and when listing the keys raises an exception it removes nothing and returns 0 |
| Session.SessionManager.GetStatistics | src/Services/SessionManager.php:326-362 | on a store other than Redis the call throws (`None`); on Redis it counts one status per key, active plus expired at most the total, clean-up needed exactly when some are expired, and a zeroed report when listing the keys raises an exception |
| Session.SessionManager.BoundaryAgeKeptButInvalid | src/Services/SessionManager.php:85-101 | an entry exactly one lifetime old is kept by cleanup although `isValid` already rejects its session |
| PwaService.IsRouteAllowed | src/Services/PWAService.php:123-135 | true exactly when some allowlist pattern matches the route (the request path when no route is given) in the sense of `Str::is`; an empty allowlist allows nothing |
| PwaService.ListedRouteAllowed | src/Services/PWAService.php:123-135 | a route named literally in the allowlist is allowed |
| PwaService.PngIcon | src/Services/PWAService.php:192-201 | each PNG entry is labelled with its size, is `image/png`, and is maskable exactly from 192 pixels up |
| PwaService.GenerateIcons | src/Services/PWAService.php:185-214 | one PNG entry per size in size order, then the SVG entry exactly when `favicon.svg` exists |
| PwaService.MaskableFromIndexFive | src/Services/PWAService.php:187-201 | exactly the last three sizes (192, 384, 512) are maskable |
| PwaService.GenerateShortcuts | src/Services/PWAService.php:219-259 | the admin shortcut when `admin.dashboard` exists, then the member shortcut when `member.dashboard` exists, then the configured shortcuts in order |
| PwaService.ListedFiles | src/Services/PWAService.php:285-288 | every file of a scanned directory gives exactly one asset URL, in its listing place |
| PwaService.GetStaticAssets | src/Services/PWAService.php:272-293 | the first 50 asset URLs of the scanned directories, in listing order |
| PwaService.BuildFilesListedTwice | src/Services/PWAService.php:274-280 | `build/assets` is scanned under both the `css` and the `js` key, so its files are listed twice |
| PwaService.ServiceWorkerConfig | src/Services/PWAService.php:69-86 | the cache name defaults to the app name, `_v` and the app version (default `1.0`); the strategy to `cache_first`; the allowlist and offline pages to empty; the assets as scanned |
| PwaService.EmptyAllowlistDisagreement | src/Services/PWAService.php:123-135 | with no allowlist the Blade worker lets every path through while `isRouteAllowed` on the server refuses every route |
| Client.Merge | resources/js/af-pwa.js:8-36 | `{...defaults, ...config}`: keys of both, passed values override, other defaults survive |
| Client.OrElse | resources/js/af-pwa.js:170-198 | `s \|\| d` on a string: `s` unless empty, else `d` |
| Client.FromWorker | resources/js/af-pwa.js:159-165 | a notice the worker posts reaches the page with its kind, token, message and login fields, and never with `auto_refresh` |
| Client.RedirectTargetsAppend | resources/js/af-pwa.js:497-510 | the redirects of two runs of effects are the redirects of each, in order |
| ResourcesClient.EffectiveToken | resources/js/af-pwa.js:311-312 | a token passed in wins; without one the meta tag's content is used, empty when there is no tag |
| ResourcesClient.AddCsrfToken | resources/js/af-pwa.js:311-330 | without any token the options come back unchanged; otherwise the token and the AJAX marker are added to the headers unless the caller's headers already hold them, and a form body gets `_token` |
| ResourcesClient.RefreshedToken | resources/js/af-pwa.js:441-471 | a refreshed token is non-empty and is the fetched page's meta token; a rejected fetch or a non-ok answer yields none |
| ResourcesClient.StaleRetryHeader | resources/js/af-pwa.js:289-297 | for a JSON request the retry after a 419 still sends the old meta token in `X-CSRF-TOKEN` and carries the new token nowhere |
| ResourcesClient.CorrectedRetryOptions | resources/js/af-pwa.js:289-297 | the intended retry: the new token is in the header, every other header is kept, a form body carries `_token` and any other body is unchanged |
| ResourcesClient.CorrectedRetryAgrees | resources/js/af-pwa.js:311-330 | when the first request carried no token header of its own, the corrected retry is exactly the written one |
| ResourcesClient.HandleNotification | resources/js/af-pwa.js:170-198 | a notice causes no effect exactly when its kind is none of `csrf_error`, `session_expired` and `network_error`, or it is a `csrf_error` without `auto_refresh`; the only redirect is for `session_expired` with `redirect_to_login`, to the notice's login route or `/login` |
| ResourcesClient.WorkerTokenNoticeIgnored | resources/js/af-pwa.js:170-198 | the worker's `csrf_token_updated` notice has no effect on this page |
| ResourcesClient.WorkerSessionNoticeRedirects | resources/js/af-pwa.js:170-198 | the worker's `session_expired` notice with `redirect_to_login` redirects to its login route |
| ResourcesClient.LatchRun | resources/js/af-pwa.js:497-510 | a run of session events schedules at most one redirect per event |
| ResourcesClient.AtMostOneRedirectBetweenSuccesses | resources/js/af-pwa.js:406-427 | between two successful Livewire requests the timeout redirects at most once: exactly once when an authentication failure arrives with the latch clear |
| ResourcesClient.AfPwa.constructor | resources/js/af-pwa.js:8-80 | the options are the defaults overridden by those passed; the instance is initialised unless registration failed, and the fetch wrapper is installed only with session handling on |
| ResourcesClient.AfPwa.Features | resources/js/af-pwa.js:50-71 | network handling, the install prompt and the error handlers always run; session handling and notifications exactly when their flags are set |
| ResourcesClient.AfPwa.Init | resources/js/af-pwa.js:41-80 | a second call does nothing; a failed registration leaves the instance uninitialised |
| ResourcesClient.AfPwa.OnWorkerStateChange | resources/js/af-pwa.js:134-154 | a new worker is announced exactly when it is installed while a controller exists; it is activated at once without the prompt, and with the prompt exactly when the user accepts |
| ResourcesClient.AfPwa.NetworkErrorEffects | resources/js/af-pwa.js:641-647 | the offline banner appears exactly when offline with status display on; the last effect is the `af-pwa:network-error` event |
| ResourcesClient.AfPwa.UpdateCsrfToken | resources/js/af-pwa.js:476-492 | the meta tag, when present, and every form token take the new value; nothing else changes |
| ResourcesClient.AfPwa.RefreshCsrfToken | resources/js/af-pwa.js:441-471 | the refreshed token is written into the page; without one nothing changes |
| ResourcesClient.AfPwa.Fetch | resources/js/af-pwa.js:277-305 | mutating requests get the token; a 419 answer with a refreshed token is retried once, other answers are returned as they are; a rejected fetch raises the network-error effects |
| ResourcesClient.AfPwa.HandleSessionTimeout | resources/js/af-pwa.js:497-510 | the first timeout shows the warning and schedules one redirect to `/login`; later ones do nothing until the latch is cleared |
| ResourcesClient.AfPwa.HandleLivewireSuccess | resources/js/af-pwa.js:406-409 | the timeout latch is cleared |
| ResourcesClient.UpdatePromptDefaults | resources/js/af-pwa.js:12-16 | with no options the update prompt is on, so a waiting worker waits for consent; passing `updatePrompt: false` activates it at once |
| PublicClient.Requests | public/js/af-pwa.js:355-370 | a queue stands for its fetches, one per item, in queue order |
| PublicClient.RequestsSnoc | public/js/af-pwa.js:375-377 | queueing a request adds exactly its fetch at the end |
| PublicClient.RefreshedToken | public/js/af-pwa.js:151-181 | a rejected fetch yields no token; otherwise the first meta token in the page, whatever the status; a token is non-empty and has no quote |
| PublicClient.ErrorPageStillYieldsToken | public/js/af-pwa.js:151-181 | a 500 page that renders the meta tag still yields its token |
| PublicClient.AfPwa.constructor | public/js/af-pwa.js:7-21 | the options are the defaults overridden by those passed, and the retry queue starts empty |
| PublicClient.AfPwa.SessionExpired | public/js/af-pwa.js:123-135 | a redirect, to the notice's login route or `/login`, only when the notice asks for one; a toast exactly when notifications are shown; the last effect is the `af-pwa:session-expired` event |
| PublicClient.AfPwa.NetworkError | public/js/af-pwa.js:140-146 | no redirect; a toast exactly when notifications are shown; the last effect is the `af-pwa:network-error` event |
| PublicClient.AfPwa.UpdateCsrfToken | public/js/af-pwa.js:104-118 | the meta tag, when present, and every form token take the new value; nothing else changes |
| PublicClient.AfPwa.HandleNotification | public/js/af-pwa.js:85-99 | a token notice updates the page; expiry and network notices go to their handlers; any other notice has no effect |
| PublicClient.AfPwa.RefreshCsrfToken | public/js/af-pwa.js:151-181 | the refreshed token is written into the page and `af-pwa:csrf-refreshed` is dispatched; without one nothing changes and nothing is dispatched |
| PublicClient.AfPwa.AddToRetryQueue | public/js/af-pwa.js:375-377 | the request is appended to the queue |
| PublicClient.AfPwa.ProcessRetryQueue | public/js/af-pwa.js:355-370 | every queued request is fetched once, in order, and the queue is emptied |
| PublicClient.AfPwa.OnOnline | public/js/af-pwa.js:239-247 | the page is online, the queue has been flushed in order and is empty |
| PublicClient.AfPwa.OnOffline | public/js/af-pwa.js:248-256 | the page is offline and the queue is kept |
| PublicClient.QueueThenReconnect | public/js/af-pwa.js:239-247 | a request queued while offline is fetched once, after everything queued before it, on reconnection |
| PublicClient.WorkerTokenReachesPage | public/js/af-pwa.js:85-99 | the worker's `csrf_token_updated` notice writes its token into the page and dispatches `af-pwa:csrf-updated` |
| InstallCommand.UnlinesLines | src/Console/InstallCommand.php:435-443 | splitting `.env` text into lines and joining them again gives the text back |
| InstallCommand.LinesUnlines | src/Console/InstallCommand.php:435-443 | joining lines without a newline and splitting again gives the lines back |
| InstallCommand.LinesAppend | src/Console/InstallCommand.php:442 | appending a line after a newline adds it as a line of its own |
| InstallCommand.RewriteLines | src/Console/InstallCommand.php:436-440 | every line starting with `KEY=` becomes the new assignment, inserted literally, and every other line is kept, so the line count is unchanged |
| InstallCommand.MidLineOnlyIsNoOp | src/Console/InstallCommand.php:435-443 | when `KEY=` occurs only inside lines (as in `OTHER_KEY=`), the file is left unchanged and the key is never added |
| InstallCommand.SetEnvLines | src/Console/InstallCommand.php:435-443 | each line that began with `KEY=` is now the new assignment and the others are untouched; a file without `KEY=` gains the assignment as its last line |
| InstallCommand.SetEnv | src/Console/InstallCommand.php:432-443 | when `KEY=` occurs, the lines of the result are the old lines with each one beginning with `KEY=` replaced by the assignment (for a one-line assignment); otherwise the old text, a line break, and the assignment |
| InstallCommand.SetEnvIdempotent | src/Console/InstallCommand.php:435-443 | setting the same key to the same value twice equals setting it once |
| InstallCommand.SetNewKey | src/Console/InstallCommand.php:441-443 | a key the file does not mention is added as the new last line |
| InstallCommand.LaterValueWins | src/Console/InstallCommand.php:432-444 | after two settings of a new key, its line holds the second value and no line holds the first |
| InstallCommand.UpdateEnvFile | src/Console/InstallCommand.php:422-447 | no `.env` file means no change; otherwise the keys are applied one after another, in the order given, with each replacement inserted literally |
| InstallCommand.HomeOnlyLiteral | src/Console/InstallCommand.php:462-466 | the default route list is written as a one-route PHP array literal |
| InstallCommand.SkipSpace | src/Console/InstallCommand.php:469 | `\s*` consumes exactly the run of whitespace |
| InstallCommand.CloseFrom | src/Console/InstallCommand.php:469 | `[^\]]*\]` ends at the first `]` |
| InstallCommand.MatchAt | src/Console/InstallCommand.php:469 | a match of the routes pattern begins with `'pwa_routes'` and ends in the bracketed array |
| InstallCommand.ReplaceFromNoKey | src/Console/InstallCommand.php:468-472 | text with no `'pwa_routes'` is copied unchanged |
| InstallCommand.SingleArrayReplaced | src/Console/InstallCommand.php:468-472 | in a file whose only routes array follows quote-free text, the array is replaced by the new literal and everything else is kept |
| InstallCommand.UpdateConfigFile | src/Console/InstallCommand.php:452-475 | no config file means no change; otherwise the substitution of the routes literal, whose routes are inserted literally |
| InstallCommand.GetCustomRoutes | src/Console/InstallCommand.php:198-227 | `/` comes first, every route appears once, a suggestion is kept exactly when accepted or typed, every non-empty typed route is kept, and nothing else appears |
| TestCommand.CountCharPositions | src/Console/TestCommand.php:570-578 | `substr_count` of one character is the number of its positions |
| TestCommand.JavaScriptSyntaxOk | src/Console/TestCommand.php:567-598 | a script is accepted exactly when it has as many `{` as `}` and as many `(` as `)` |
| TestCommand.SyntaxCheckIgnoresOrder | src/Console/TestCommand.php:567-598 | only the counts matter: any reordering of an accepted script, `}{` included, is accepted |
| TestCommand.SyntaxCheckConcat | src/Console/TestCommand.php:567-598 | two accepted scripts put together are accepted |
| TestCommand.ContainsAny | src/Console/TestCommand.php:724-730 | the loop finds a command exactly when some command occurs in the fix |
| TestCommand.CanAutoFix | src/Console/TestCommand.php:716-731 | a fix is auto-fixable exactly when it mentions `af-pwa:install`, `af-pwa:generate` or `php artisan vendor:publish` |
| TestCommand.AutoFixCall | src/Console/TestCommand.php:736-744 | a fix naming `af-pwa:` runs a command; otherwise one naming `vendor:publish` publishes the assets; any other fix runs nothing |
| TestCommand.PrefixedFixRunsCommand | src/Console/TestCommand.php:738-740 | a fix written `php artisan <command>` runs `<command>` |
| TestCommand.AutoFixableRunsSomething | src/Console/TestCommand.php:694-697 | every fix `canAutoFix` accepts leads to an Artisan call |
| TestCommand.Fixable | src/Console/TestCommand.php:693-694 | the errors `--fix` attempts are errors with a non-empty, auto-fixable fix |
| TestCommand.FixCallsFollowFixable | src/Console/TestCommand.php:693-703 | one call per fixable error, in order, each the call its fix names |
| TestCommand.FixedAtMostFixable | src/Console/TestCommand.php:693-703 | the fixed count never exceeds the number of fixable errors |
| TestCommand.AllCallsCompleteFixAll | src/Console/TestCommand.php:693-703 | when every call completes, every fixable error counts as fixed |
| TestCommand.ShapeWarningsExact | src/Console/TestCommand.php:488-492 | exactly the routes that do not start with `/` are warned about |
| TestCommand.TestRun.constructor | src/Console/TestCommand.php:24-26 | a run starts with no results, warnings or errors |
| TestCommand.TestRun.AddSuccess | src/Console/TestCommand.php:603-607 | the message is appended to the results and nothing else changes |
| TestCommand.TestRun.AddWarning | src/Console/TestCommand.php:612-616 | the warning is appended with its fix and nothing else changes |
| TestCommand.TestRun.AddError | src/Console/TestCommand.php:621-625 | the error is appended with its fix and nothing else changes |
| TestCommand.TestRun.ExitCode | src/Console/TestCommand.php:48 | success exactly when no error was recorded |
| TestCommand.TestRun.CheckRouteShapes | src/Console/TestCommand.php:488-492 | one warning per route without a leading `/`, in route order |
| TestCommand.TestRun.AutoFix | src/Console/TestCommand.php:685-711 | one Artisan call per fixable error, in order, and the number of calls that completed |
| TestCommand.ErrorFailsRun | src/Console/TestCommand.php:621-625 | any recorded error makes the run fail |
| TestCommand.PlainCommandRuns | src/Console/TestCommand.php:716-744 | an `af-pwa:` fix with no `php artisan ` prefix is passed to `$this->call` unchanged |
| TestCommand.InstallFixRuns | src/Console/TestCommand.php:716-744 | the suggested `af-pwa:install` fix is passed to `$this->call` unchanged |
| TestCommand.GenerateFixRuns | src/Console/TestCommand.php:716-744 | the suggested `af-pwa:generate --icons` fix is passed to `$this->call` unchanged |
| TestCommand.SplitLine | src/Console/TestCommand.php:740-741 | the part before the first space, which holds no space, and the rest, which together give back the line; a line without a space is all name |
| TestCommand.RegisteredHaveNoSpace | src/AfPwaServiceProvider.php:57-63 | no command name the package registers holds a space |
| TestCommand.WholeLineNotFound | src/Console/TestCommand.php:740-741 | as written: a line holding a space, passed whole to `$this->call`, is no registered command name nor an abbreviation of one |
| TestCommand.CallFinds | src/Console/TestCommand.php:738-742 | every registered name is found, and nothing longer than the longest registered name is |
| TestCommand.GenerateFixNotFound | src/Console/TestCommand.php:693-701 | as written: the suggested `af-pwa:generate --icons` fix reaches `$this->call` whole and finds no command, so it is reported as failed |
| TestCommand.CorrectedFixCommand | src/Console/TestCommand.php:736-744 | corrected: a fix `executeAutoFix` turns into a command line yields its name, which holds no space and is the line or the line's part before its first space |
| TestCommand.SplitNameOptions | src/Console/TestCommand.php:740-741 | a space-free name followed by a space and options splits back into that name and those options |
| TestCommand.CorrectedCallFinds | src/Console/TestCommand.php:740-741 | corrected: a registered command followed by options is found by name |
| TestCommand.GenerateFixSplits | src/Console/TestCommand.php:740-741 | the `--icons` fix line splits into `af-pwa:generate` and `--icons` |
| TestCommand.GenerateFixNamed | src/Console/TestCommand.php:736-744 | corrected: the command called for the `--icons` fix is `af-pwa:generate` |
| TestCommand.GenerateFixFound | src/Console/TestCommand.php:693-744 | corrected: the `--icons` fix runs the registered `af-pwa:generate` |
| TestCommand.RoutesHintNotFixable | src/Console/TestCommand.php:716-731 | the routes hint is not auto-fixable |
| GenerateCommand.Steps | src/Console/GenerateCommand.php:27-54 | with none of `--manifest`, `--service-worker`, `--icons` all three files are generated, otherwise exactly the selected ones, in that order; `--optimize` adds the optimisation pass last |
| GenerateCommand.Select | src/Console/GenerateCommand.php:27-54 | exactly the selected steps of a list in increasing rank, still in increasing rank |
| GenerateCommand.Clamp255 | src/Console/GenerateCommand.php:299-301 | `max(0, min(255, x))` lies in 0..255 and keeps values already in range |
| GenerateCommand.DarkenChannel | src/Console/GenerateCommand.php:299-303 | a darkened channel lies in 0..255 |
| GenerateCommand.DarkenChannelCeil | src/Console/GenerateCommand.php:299-303 | each channel loses the rounded-up share `c * percent / 100`, clamped to 0..255 |
| GenerateCommand.DarkenChannelBounds | src/Console/GenerateCommand.php:299-303 | a non-negative percentage never lightens, and 100 or more gives 0 |
| GenerateCommand.DarkenColor | src/Console/GenerateCommand.php:287-304 | the result is `#` and six lowercase hexadecimal digits |
| GenerateCommand.DarkenByZero | src/Console/GenerateCommand.php:289-303 | darkening a lowercase six-digit colour by 0 gives it back, however many `#` it began with |
| GenerateCommand.DarkenShorthand | src/Console/GenerateCommand.php:291-293 | a three-digit colour darkens like its six-digit expansion |
| GenerateCommand.DefaultThemeDarkened | src/Console/GenerateCommand.php:258-270 | the placeholder gradient darkens the default `#007bff` by 20% to `#0062cc` |
| GenerateCommand.PngSuffixReplaced | src/Console/GenerateCommand.php:169 | a path ending in its only `.png` ends in `.svg` after the replacement |
| GenerateCommand.SvgSourceTarget | src/Console/GenerateCommand.php:164-177 | an SVG source of size 192 or more is copied to the `.svg` path; anything else to the `.png` destination |
| GenerateCommand.FindSourceIcon | src/Console/GenerateCommand.php:115-134 | `None` exactly when no candidate exists; otherwise one of the candidates |
| GenerateCommand.GenerateIcons | src/Console/GenerateCommand.php:91-110 | the files written are the placeholders without a source, and with one the sized copies, the Apple icons and the maskable icons, in that order |
| GenerateCommand.CreatePlaceholderIcons | src/Console/GenerateCommand.php:240-250 | one placeholder per icon size, at its `.png` path, in size order |
| GenerateCommand.GenerateIconSizes | src/Console/GenerateCommand.php:139-159 | one copy per icon size, to the target `generateIconSize` picks, in size order |
| GenerateCommand.GenerateAppleIcons | src/Console/GenerateCommand.php:182-203 | one copy per Apple icon, to the target `generateIconSize` picks, in the listed order |
| GenerateCommand.GenerateMaskableIcons | src/Console/GenerateCommand.php:208-222 | one copy per maskable size, at its `maskable-icon-` path, in size order |
| GenerateCommand.PngIconsWritten | src/Console/GenerateCommand.php:139-177 | without a source, or with one that is not SVG, every size is written at its `.png` path |
| GenerateCommand.SvgSourceSkipsPng | src/Console/GenerateCommand.php:164-177 | with an SVG source the 192, 384 and 512 PNG paths are never written; `.svg` files are written instead |
| GenerateCommand.SizedSkipPng | src/Console/GenerateCommand.php:139-177 | with an SVG source, no size copy lands on the `.png` path of a size of 192 or more |
| GenerateCommand.AppleSkipIconPath | src/Console/GenerateCommand.php:182-203 | no Apple icon lands on an `icons/icon-` path |
| GenerateCommand.MaskableSkipIconPath | src/Console/GenerateCommand.php:208-222 | no maskable icon lands on an `icons/icon-` path |
| GenerateCommand.DropEmpty | src/Console/GenerateCommand.php:334-336 | exactly the entries whose value is not PHP-empty are kept, in order |
| GenerateCommand.KeptIndices | src/Console/GenerateCommand.php:334-336 | the kept indices are exactly those of the non-empty items |
| GenerateCommand.OptimizedManifest | src/Console/GenerateCommand.php:323-342 | no file means no write; text that is not JSON and scalars throw; an object is decoded to a PHP array, loses its PHP-empty values and is encoded back, as a list when its keys run 0, 1, 2, ... |
| GenerateCommand.KeptKeys | src/Console/GenerateCommand.php:330-336 | a key survives exactly when the value it has last is not PHP-empty, and it keeps that value as decoded |
| GenerateCommand.FilterKeys | src/Console/GenerateCommand.php:334-336 | `array_filter` keeps a key exactly when its value is not PHP-empty, with that value |
| GenerateCommand.DecodedKeys | src/Console/GenerateCommand.php:330 | `json_decode` into an array holds a key exactly when the object has it, with the value it has last, decoded |
| GenerateCommand.AllEmptyWrittenAsList | src/Console/GenerateCommand.php:330-339 | a manifest object whose values are all PHP-empty is written as `[]` |
| GenerateCommand.DropAllEmpty | src/Console/GenerateCommand.php:334-336 | filtering entries that are all PHP-empty leaves nothing |
| GenerateCommand.FalseFlagDropped | src/Console/GenerateCommand.php:334-339 | `"prefer_related_applications": false`, as the key's last value, is removed from the written manifest |
| GenerateCommand.StripBetween | src/Console/GenerateCommand.php:361 | removing lazy `open … close` spans never lengthens the text |
| GenerateCommand.LineEnd | src/Console/GenerateCommand.php:362 | the index of the first line feed, or the length |
| GenerateCommand.StripLineComments | src/Console/GenerateCommand.php:362 | removing line comments never lengthens the text |
| GenerateCommand.AfterSpaces | src/Console/GenerateCommand.php:365 | a suffix of the text that does not start with `\s` |
| GenerateCommand.CollapseSpaces | src/Console/GenerateCommand.php:365 | no two whitespace characters in a row remain; the text is empty only if it was; a non-space first character is kept |
| GenerateCommand.TrimSingleSpaced | src/Console/GenerateCommand.php:365-366 | trimming keeps single spacing and leaves no whitespace at either end |
| GenerateCommand.OptimizeServiceWorker | src/Console/GenerateCommand.php:347-374 | nothing is written without the file; otherwise the minified text, trimmed and without two whitespace characters in a row |
| GenerateCommand.Minified | src/Console/GenerateCommand.php:361-366 | the result of the four rewrites is trimmed and never holds two whitespace characters in a row |
| GenerateCommand.NoCommentsKept | src/Console/GenerateCommand.php:361-362 | text without `/*` or `//` is left alone by both comment rewrites |
| GenerateCommand.DoubleSlashCutsLine | src/Console/GenerateCommand.php:362 | a `//` inside a string literal still cuts the rest of its line |
| GenerateCommand.JoinTags | src/Console/GenerateCommand.php:400 | joining tags never lengthens the text |
| GenerateCommand.JoinTagsVisible | src/Console/GenerateCommand.php:400 | joining tags removes whitespace and nothing else |
| GenerateCommand.CollapseSpacesVisible | src/Console/GenerateCommand.php:365 | collapsing runs of whitespace removes whitespace and nothing else |
| GenerateCommand.SvgCount | src/Console/GenerateCommand.php:395-403 | the count of `.svg` files is at most the number of files |
| GenerateCommand.OptimizeIcons | src/Console/GenerateCommand.php:379-410 | without the directory nothing happens; otherwise each `.svg` file is rewritten and counted, and the others are left as they are |
| GenerateCommand.MinifiedSvg | src/Console/GenerateCommand.php:399-400 | removing comments and the whitespace between tags never lengthens the file |
| GeneratePwa.Steps | src/Console/Commands/GeneratePWA.php:40-71 | the steps of the other generate command in the same order, then validation exactly when `--validate` is given, last |
| GeneratePwa.StepsAgree | src/Console/Commands/GeneratePWA.php:45-59 | apart from validation both commands run the same steps for the same options |
| GeneratePwa.BaseIcon | src/Console/Commands/GeneratePWA.php:115-118 | `favicon.svg` when it exists, else `favicon.ico`; none exactly when neither exists |
| GeneratePwa.GenerateIcons | src/Console/Commands/GeneratePWA.php:108-130 | every size is written at its `.png` path, followed by the maskable icons when there is a base icon |
| GeneratePwa.PngIconsWritten | src/Console/Commands/GeneratePWA.php:135-151 | every `.png` icon path is written, whatever the base icon |
| GeneratePwa.ReencodedManifest | src/Console/Commands/GeneratePWA.php:279-293 | no file means no write; text that is not JSON is written back as `null`; valid JSON is written back as PHP re-encodes its array (`RoundTrip`): `{}` becomes `[]`, and what is written is stable under a second pass |
| GeneratePwa.MissingFieldInjective | src/Console/Commands/GeneratePWA.php:387 | different fields give different messages |
| GeneratePwa.MissingFields | src/Console/Commands/GeneratePWA.php:385-389 | no message exactly when every field is set, and never more messages than fields |
| GeneratePwa.MissingFieldsExact | src/Console/Commands/GeneratePWA.php:385-389 | a field is reported exactly when it is listed and not set |
| GeneratePwa.ManifestErrors | src/Console/Commands/GeneratePWA.php:367-392 | a missing file and invalid JSON each give their single message |
| GeneratePwa.ValidateManifest | src/Console/Commands/GeneratePWA.php:367-392 | the errors for the decoded file |
| GeneratePwa.ManifestValidIff | src/Console/Commands/GeneratePWA.php:383-389 | a manifest passes exactly when all seven required fields are set, and a reported field is one that is required and not set |
| GeneratePwa.InvalidManifestAfterOptimize | src/Console/Commands/GeneratePWA.php:287-288 | after `--optimize` rewrote text that was not JSON, validation reports all seven required fields missing instead of invalid JSON |
| GeneratePwa.MissingEventInjective | src/Console/Commands/GeneratePWA.php:413 | different events give different messages |
| GeneratePwa.MissingEvents | src/Console/Commands/GeneratePWA.php:411-415 | no message exactly when every listener text occurs in the worker |
| GeneratePwa.MissingEventsExact | src/Console/Commands/GeneratePWA.php:411-415 | an event is reported exactly when it is required and its listener text is absent |
| GeneratePwa.WorkerErrors | src/Console/Commands/GeneratePWA.php:397-418 | a missing worker gives its single message; otherwise exactly the required events without a listener are reported |
| GeneratePwa.ValidateServiceWorker | src/Console/Commands/GeneratePWA.php:397-418 | the errors for `public/sw.js` |
| GeneratePwa.IconErrors | src/Console/Commands/GeneratePWA.php:423-442 | a missing directory gives its single message; otherwise no error exactly when the 192 and 512 PNG icons exist |
| GeneratePwa.ValidateIcons | src/Console/Commands/GeneratePWA.php:423-442 | the errors for the icon directory |
| GeneratePwa.OwnIconsValid | src/Console/Commands/GeneratePWA.php:108-151 | the icons this command generates always pass its own icon check |
| GeneratePwa.SvgSourceFailsIconCheck | src/Console/Commands/GeneratePWA.php:432-437 | icons the other generate command makes from an SVG source fail this check: both required sizes are reported missing |
| GeneratePwa.Report | src/Console/Commands/GeneratePWA.php:333-362 | only non-empty error lists appear, each under its key, in the order manifest, service worker, icons; an empty report means no list had an error |
| GeneratePwa.ValidateFiles | src/Console/Commands/GeneratePWA.php:333-362 | the report of the three validations |
| GenerateIconsCommand.Written | src/Console/GenerateIconsCommand.php:26-48 | a name is written exactly when it is a job's name and it does not already exist or `--force` is given |
| GenerateIconsCommand.Handle | src/Console/GenerateIconsCommand.php:13-51 | the written icons in job order; every other job is skipped |
| GenerateIconsCommand.ForceWritesAll | src/Console/GenerateIconsCommand.php:36 | with `--force` all four icons are written |
| GenerateIconsCommand.SecondRunSkipsAll | src/Console/GenerateIconsCommand.php:36-39 | a second run without `--force` writes nothing |
| GenerateIconsCommand.HexToRgb | src/Console/GenerateIconsCommand.php:98-111 | three channels, each below 256, read as the other generate command reads them |
| GenerateIconsCommand.HexToRgbDigits | src/Console/GenerateIconsCommand.php:98-111 | six hex digits of either case after any number of `#` are read pair by pair |
| GenerateIconsCommand.HexToRgbRoundTrip | src/Console/GenerateIconsCommand.php:98-111 | a lowercase six-digit colour read and printed again is the same colour |
| GenerateIconsCommand.DefaultThemeRgb | src/Console/GenerateIconsCommand.php:59 | the default theme colour `#4F46E5` is rgb(79, 70, 229) |
| GenerateIconsCommand.Initial | src/Console/GenerateIconsCommand.php:68 | the upper-cased first character of the app name, empty for an empty name |
| IconGenerator.Prefix | icon-generator-script.js:27-30 | no file-name prefix holds a digit or an `x` |
| IconGenerator.Group | icon-generator-script.js:27-30 | one entry per size of the set, in order, each named after its size |
| IconGenerator.AppendGroup | icon-generator-script.js:27-30 | the group is pushed after what is already there |
| IconGenerator.BuildIconMatrix | icon-generator-script.js:19-36 | the icons of the checked sets, in the order favicons, PWA, Apple, maskable, Windows tiles |
| IconGenerator.WindowsTileNames | icon-generator-script.js:32-34 | the three tiles are named `mstile-70x70.png`, `mstile-150x150.png` and `mstile-310x310.png` |
| IconGenerator.IconNameInjective | icon-generator-script.js:27-30 | two icons share a name only if they have the same kind and size |
| IconGenerator.MatrixShape | icon-generator-script.js:19-36 | the matrix has distinct names, each icon named after its kind and size, and the kinds in set order |
| IconGenerator.MatrixLength | icon-generator-script.js:11-36 | 3, 10, 9, 2 and 3 icons for the favicon, PWA, Apple, maskable and Windows sets, each counted when its box is checked |
| IconGenerator.NoWindowsUnlessChecked | icon-generator-script.js:19-36 | Windows tiles are in the matrix only when their box is checked |
| IconGenerator.DefaultMatrix | icon-generator-script.js:21-25 | with no checkboxes on the page every set but the Windows tiles is built: 24 icons |
| IconGenerator.DigitRun | icon-generator-script.js:430 | `\d+` takes the whole run of digits |
| IconGenerator.MatchLen | icon-generator-script.js:430 | a backtracking `(\d+)x\1` match has a non-empty group and fits in the name |
| IconGenerator.SkipNonDigits | icon-generator-script.js:430 | the leftmost match cannot start at a non-digit |
| IconGenerator.MatchAfterPrefix | icon-generator-script.js:430 | after a digit-free prefix, `dxd` yields `d` as the size |
| IconGenerator.IconNameSize | icon-generator-script.js:27-30 | the size read back from every generated icon name is its own size |
| IconGenerator.NoDigitsNoSize | icon-generator-script.js:430 | a name without digits has no size |
| IconGenerator.KeyIndex | icon-generator-script.js:190 | the position of the entry with the name, or none when no entry has it |
| IconGenerator.Put | icon-generator-script.js:190 | a new name is added at the end of the object's keys |
| IconGenerator.WithField | icon-generator-script.js:780-784 | an input edits exactly its own field of the shortcut |
| IconGenerator.Splice | icon-generator-script.js:764-767 | `splice(index, 1)` removes the element at a valid index, counts a negative index from the end, and leaves the list alone past its end |
| IconGenerator.SpliceUndoesAppend | icon-generator-script.js:759-767 | removing the last shortcut, by its index or by `-1`, undoes an add |
| IconGenerator.Generator.constructor | icon-generator-script.js:4-6 | no icons, no protocol handlers and one empty shortcut |
| IconGenerator.Generator.AddShortcut | icon-generator-script.js:759-763 | a blank shortcut is added exactly when there are fewer than four; nothing else changes |
| IconGenerator.Generator.RemoveShortcut | icon-generator-script.js:764-767 | the shortcuts are spliced at the index; nothing else changes |
| IconGenerator.Generator.EditShortcut | icon-generator-script.js:780-784 | one field of one shortcut takes the new value; nothing else changes |
| IconGenerator.Generator.AddProtocolHandler | icon-generator-script.js:739-747 | the trimmed scheme and URL are added exactly when both are non-empty |
| IconGenerator.Generator.GenerateIcons | icon-generator-script.js:175-197 | the generated icons are exactly the matrix, in order |
| IconGenerator.Int32 | icon-generator-script.js:704-708 | the 32-bit signed value the bit operators see; numbers that fit are unchanged |
| IconGenerator.LeadingHex | icon-generator-script.js:703 | the longest prefix of hexadecimal digits |
| IconGenerator.LeadingHexAll | icon-generator-script.js:703 | a string of hexadecimal digits is read whole |
| IconGenerator.ParseHex | icon-generator-script.js:703 | `NaN` exactly when the text does not begin with a hexadecimal digit |
| IconGenerator.Clamp255 | icon-generator-script.js:705-707 | `Math.max(0, Math.min(255, x))` lies in 0..255 and keeps values in range |
| IconGenerator.Shifted | icon-generator-script.js:705-707 | each shifted channel lies in 0..255 |
| IconGenerator.ColourText | icon-generator-script.js:708 | `"#"` and the padded base-16 text is the six-digit lowercase colour of the channels |
| IconGenerator.AdjustColor | icon-generator-script.js:702-709 | the result is a `#` and six lowercase hex digits: the shifted channels of the parsed colour |
| IconGenerator.HexSixValue | icon-generator-script.js:703 | six hex digits read as one number are the three channel pairs |
| IconGenerator.ShiftedByZero | icon-generator-script.js:705-707 | a shift by 0 gives the channels back |
| IconGenerator.ParseHashSix | icon-generator-script.js:703 | `#` and six hex digits are read as the six digits |
| IconGenerator.AdjustByZero | icon-generator-script.js:702-709 | adjusting a lowercase six-digit colour by 0 gives it back |
| IconGenerator.ShadingMonotone | icon-generator-script.js:702-709 | a negative amount never lightens a channel and a positive one never darkens it |
| IconGenerator.ManifestIcons | icon-generator-script.js:429-432 | at most one manifest icon per generated icon, and one per icon, in order, when every name has a size |
| IconGenerator.MaskableName | icon-generator-script.js:27-30 | an icon name contains `maskable` exactly when it is a maskable icon |
| IconGenerator.IconListed | icon-generator-script.js:429-432 | a generated icon is listed with its own path, its size twice and purpose `maskable` exactly when it is maskable |
| IconGenerator.MatrixIconsListed | icon-generator-script.js:416-432 | every icon of the matrix is in the manifest, in order, with its size and purpose |
| IconGenerator.ConfigIconOf | icon-generator-script.js:447-449 | a name without a size is written as `0x0`; otherwise with the size the manifest uses |
| IconGenerator.ConfigKeepsSizeless | icon-generator-script.js:429-432 | an icon without a size is dropped from the manifest but kept in the Laravel config as `0x0` |
| IconGenerator.ManifestShortcuts | icon-generator-script.js:436-438 | exactly the shortcuts with a name and a URL, each with its short name defaulting to its name |
| IconGenerator.ManifestJson | icon-generator-script.js:416-440 | each of the eleven text fields is the form's value when it is filled in and the script's default (`My PWA App`, `PWA`, the description, `/`, `/`, `standalone`, `#0b1220`, `#2563eb`, `any`, `en`, `ltr`) when it is empty; `categories` exactly when a category is chosen, holding just it; the protocol handlers as added, and the complete shortcuts (`ManifestShortcuts`), each exactly when the page holds any; and the icons as listed |
| HexColor.HexValue | src/Console/GenerateCommand.php:295-297 | a hex digit's value is below 16 |
| HexColor.Digit | src/Console/GenerateCommand.php:303 | the lowercase digit for a value, read back as that value |
| HexColor.Hexdec | src/Console/GenerateCommand.php:295-297 | `hexdec` of one or two characters is below 16 or 256 |
| HexColor.HexdecPair | src/Console/GenerateCommand.php:295-297 | two hex digits read as `16 * a + b` |
| HexColor.HexdecAppendPair | src/Console/GenerateCommand.php:295-297 | two more digits multiply what was read by 256 |
| HexColor.Substr | src/Console/GenerateCommand.php:295-297 | `substr` is the slice when it fits and never longer than asked |
| HexColor.Normalize | src/Console/GenerateCommand.php:289-293 | leading `#`s are removed and a three-digit colour is doubled digit by digit; other lengths are kept |
| HexColor.Channels | src/Console/GenerateCommand.php:295-297 | three channels, each below 256 |
| HexColor.Hex2 | src/Console/GenerateCommand.php:303 | two lowercase hex digits that read back as the number |
| HexColor.Format | src/Console/GenerateCommand.php:303 | `#` and six lowercase hex digits |
| HexColor.PairRoundTrip | src/Console/GenerateCommand.php:295-303 | a lowercase pair printed after reading is the same pair |
| HexColor.ChannelsOfSix | src/Console/GenerateCommand.php:295-297 | the channels of six digits are their pairs' values |
| HexColor.ChannelsRoundTrip | src/Console/GenerateCommand.php:289-303 | a lowercase six-digit colour, with any number of `#`, is read into channels that print back as that colour |
| HexColor.ShorthandExpands | src/Console/GenerateCommand.php:291-293 | `abc` reads as `aabbcc` |
| HexColor.Base16Colour | icon-generator-script.js:708 | `(0x1000000 + R*0x10000 + G*0x100 + B).toString(16).slice(1)` is the three channels as two-digit lowercase pairs |
| ManifestJson.Lookup | src/Console/Commands/GeneratePWA.php:386 | a key is found exactly when some entry has it |
| ManifestJson.KeyIndex | src/Console/Commands/GeneratePWA.php:286 | the position of the first entry with the key, none exactly when no entry has it |
| ManifestJson.MergeKeys | src/Console/Commands/GeneratePWA.php:286 | `json_decode` into an array keeps one entry per key, the same keys, each with the value the key has last |
| ManifestJson.MergeDistinct | src/Console/Commands/GeneratePWA.php:286 | an object without repeated keys is kept as it is |
| ManifestJson.RoundTripEntries | src/Console/Commands/GeneratePWA.php:286-287 | each entry keeps its key and has its value round-tripped |
| ManifestJson.RoundTrip | src/Console/Commands/GeneratePWA.php:287-288 | scalars come back unchanged, a list stays a list of the same length, and an object comes back as an object or as a list (`IndexKeyedObjectIsList` gives the keys that make it a list) |
| ManifestJson.RoundTripIdempotent | src/Console/Commands/GeneratePWA.php:286-287 | decoding and re-encoding what was written changes nothing |
| ManifestJson.PlainObjectKept | src/Console/Commands/GeneratePWA.php:286-287 | an object with distinct keys, not starting with key `0`, whose values are stable comes back unchanged |
| ManifestJson.IndexKeyedObjectIsList | src/Console/Commands/GeneratePWA.php:286-287 | an object keyed `0`, `1`, ... in order comes back as the list of its values |
| ManifestJson.SameKeysRoundTrip | src/Console/Commands/GeneratePWA.php:286-287 | round-tripping the values of an object keyed 0, 1, 2, ... keeps its keys distinct and in that run, so it is encoded as the list of round-tripped values |
| ManifestJson.PhpEmptyRoundTrip | src/Console/GenerateCommand.php:334-336 | `empty` gives the same verdict before and after the round trip |
| ManifestJson.LookupRoundTrip | src/Console/Commands/GeneratePWA.php:286-287 | round-tripping the values keeps the keys, and a key's value is the round trip of its value before |
| ManifestJson.LookupLastWins | src/Console/Commands/GeneratePWA.php:286 | a key's value is the last one given for it |

## Left out

- Browser and framework I/O:
  - the network, the Cache API, `clients.matchAll`/`postMessage`, `skipWaiting`/`claim`, and Laravel's `Http`, `File`, `Cache`, `Session` and `Artisan`;
  - each is an explicit parameter (oracle answers, file contents, stores) or a recorded effect, never a call.
- Concurrency: background refreshes and fire-and-forget `cache.put` calls are sequential effects. Races between concurrent refreshes and late writes after a timeout are not modelled.
- Timers and clocks: `AbortSignal.timeout`, `setTimeout` delays and `time()` become outcome tags, a `delay` carried by an effect, or a `now` parameter.
- Web.CacheStorage.Put: `cache.put` refusing a 206 response or a `Vary: *` header is not modelled.
- Web.CacheStorage.AddAll: the `InvalidStateError` for duplicate requests is not modelled.
- Configured asset URLs are treated as paths on the worker's own origin. Absolute URLs produced by `asset()` are not parsed.
- TemplateWorker.HandleCsrfError: reading the original form body again after the first fetch consumed it is assumed to succeed.
- Background sync and push handlers of both workers are empty or trivial stubs and are not modelled.
- Foreign libraries are replaced by the semantics the code relies on, stated directly:
  - `Str::is`, `Str::startsWith`, `route()`, `asset()`, `csrf_token()` and `DOMParser`;
  - the JavaScript and PCRE regular-expression engines, for the fixed expressions in the source (allowlist patterns built from configuration are covered by the `BladeWorker.IsRouteAllowed` line below).
- Floating point:
  - `formatBytes` in the commands;
  - canvas geometry, SVG safe-zone arithmetic and GD drawing.
- IconGenerator.AdjustColor:
  - takes the integer `Math.round(2.55 * amount)` as its `amt` parameter; the only caller passes -20, giving -51;
  - `parseInt`'s handling of leading whitespace, a sign and a `0x` prefix is not modelled;
  - hex digits beyond 2^53 are read exactly rather than rounded.
- IconGenerator.Generator.EditShortcut: an `oninput` handler exists only for a rendered row, so the index is required to be current.
- Icon generator page:
  - the DOM, file reading, canvas drawing and the ZIP download;
  - only the icon entries of `generateLaravelConfig`'s PHP text;
  - a generated canvas is abstracted as the icon entry it was drawn for.
- `json_encode`'s text is not modelled: manifests and configurations are structured values.
- ManifestJson.RoundTrip: numbers are kept as decoded; how `json_decode` reads large or fractional numbers and how `json_encode` prints them is not modelled.
- InstallCommand.RewriteLines: `preg_replace` expands `$n`, `${n}` and `\n` in its replacement, and the model inserts the new `KEY=value` line literally. A value typed as `Shop $1` is written as `PWA_NAME="Shop "` by the source, since the pattern has no group 1.
- InstallCommand.SetEnvLines: the same literal insertion as `RewriteLines`.
- InstallCommand.SetEnv: the same literal insertion as `RewriteLines`.
- InstallCommand.UpdateEnvFile: values holding `$` or `\` followed by a digit are written literally, whereas `preg_replace` substitutes a group reference.
- InstallCommand.UpdateConfigFile: the intended `$1` is modelled, but a custom route holding `$n`, `${n}` or `\n` is inserted literally, whereas `preg_replace` substitutes it.
- BladeWorker.IsRouteAllowed: only `*` and `.` in an allowlist entry take their regular-expression meaning. The other characters a JavaScript regular expression gives a meaning (`? + ( ) [ ] { } | ^ $ \`, the set `Glob.RegexSpecials`) are read literally, so an entry such as `/a?*` is not modelled as the worker reads it (it allows `/` and `/b`). An entry that is not a valid expression, such as `/a(`, makes `new RegExp` throw inside the fetch listener; that is not modelled either. The lemmas about the allowlist require entries free of these characters.
- BladeWorker.Config: the view prints `cacheName` and `cacheStrategy` through Blade's escaping `{{ }}`, so `&`, `<`, `>`, `"` and `'` in them reach the worker as HTML entities; the model takes the strings as the worker sees them, and `PwaService.ServiceWorkerConfig` gives the unescaped values, which agree only for names without those characters.
- PwaManager.Dedup: the list value holds only the kept elements. The keys `array_unique` preserves are the separate `DedupKeys`, and `json_encode` is not composed with them: a list with a gap such as `['/a', '/a', '/b']` is written by `@json` in the page config and by the info route as the object `{"0":"/a","2":"/b"}`, which the model states only through its keys `[0, 2]`.
- GenerateIconsCommand.Initial: takes the first character of the name, whereas `substr($appName, 0, 1)` takes the first byte, which splits a multibyte first character.
- TestCommand.CallFinds: Symfony's lookup is modelled as whole-name prefix matching against the registered names; its per-segment abbreviation, aliases and case-insensitive retry are not modelled. None of them finds a name holding a space.
- Placeholder SVG and PNG contents are not modelled; only the paths written are:
  - `createPlaceholderIcons`;
  - `createMaskableIcon`;
  - the favicon writer;
  - `GeneratePWA::optimizeIcon`, an empty stub.
- A failed `copy` is not modelled: the icon runs state the files written when every copy succeeds.
- The optimisation pass is one step in the selection model. Its inner order differs between the two generate commands and is not modelled.
- The display, report and prompt-only parts of the commands are not modelled:
  - `displayWelcome`, `displaySuccess`, `displayResults`, `showQuickFixes` and `displayManifestInfo`;
  - `generateReport` and `detectServerUrl`;
  - the HTTP-based tests of `TestCommand`.
- TestCommand.JavaScriptSyntaxOk: the regular-expression loop after the count checks is left out, because it never changes the verdict.
- InstallCommand.SingleArrayReplaced: the result of the `'pwa_routes'` substitution is proved only for a file whose routes array appears once, after quote-free text. `ReplaceFrom` models the replacement of every match, but other layouts are not characterised by a lemma.
- Configuration defaults are taken from the values the code passes to `config()`. The configuration file itself is data and is not modelled.

## Findings

| source | as written | input that shows it | evidently intended | confidence | as-written member | corrected member |
|---|---|---|---|---|---|---|
| resources/js/service-worker.template.js:61 | install spreads `CONFIG.offline_pages` into the URL list, but `src/AfPwaManager.php:448-465` emits it as a JSON object whenever it has entries, and spreading an object throws | any configuration with `pwa_routes` unset: it defaults to `['/']` and gives `offline_pages` `{"/*": <the URL of route af-pwa.offline>}`, so the page batch fails and the worker never skips waiting | spread the offline page URLs, so the routes and offline pages are cached when every fetch succeeds | not executed | TemplateWorker.Install | TemplateWorker.InstallCorrected |
| resources/js/af-pwa.js:289-297 | the retry after a 419 calls `addCSRFToken(options, newToken)` on options that already carry the old `X-CSRF-TOKEN`; the caller's headers are spread last, so the old token wins | a JSON `PUT` sent with meta token `m` that is answered 419 and refreshed to `t` ≠ `m`: the retry still sends `X-CSRF-TOKEN: m` | the retry carries the refreshed token in its header and in a form body | not executed | ResourcesClient.StaleRetryHeader | ResourcesClient.CorrectedRetryOptions |
| src/Console/TestCommand.php:738-741 | `executeAutoFix` passes the whole fix, options included, to `$this->call`, which looks it up as one command name | the suggested fix `af-pwa:generate --icons`: no registered command is named that, so the call throws and `autoFix` reports "Failed to fix" | call `af-pwa:generate` with `--icons` as an option | not executed | TestCommand.GenerateFixNotFound | TestCommand.GenerateFixFound |
