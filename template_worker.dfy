/** The service worker generated from `resources/js/service-worker.template.js`:
    the classifiers that decide which requests it intercepts, the fetch
    dispatch, the per-category handlers over three versioned caches, the
    offline-page lookup, and the install, activate and message lifecycle. */
module TemplateWorker {
  import opened Wrappers
  import opened Text
  import opened Web
  import opened Csrf

  /** The JSON object injected for `__AF_PWA_CONFIG__`. Every string is read
      with `||`, so an absent key and the empty string behave alike and are
      both written `""`; absent arrays are `[]`. `offlinePages` lists the
      entries of the `offline_pages` object in insertion order. */
  datatype Config = Config(
    appName: string,
    cacheVersion: string,
    pwaRoutes: seq<string>,
    staticAssets: seq<string>,
    assetsStrategy: string,
    apiStrategy: string,
    assetPatterns: seq<string>,
    apiPatterns: seq<string>,
    offlinePages: seq<(string, string)>,
    defaultOfflinePage: string,
    errorHandling: ErrorHandling)

  /** The `error_handling` part of the configuration: whether a 419 triggers
      the token refresh (absent is `None`), and how an expired session is
      announced to the pages. */
  datatype ErrorHandling = ErrorHandling(
    csrfAutoRefresh: Option<bool>,
    sessionShowNotification: bool,
    sessionMessage: string,
    sessionRedirectToLogin: bool,
    sessionLoginRoute: string)

  function Version(c: Config): string {
    if c.cacheVersion == "" then "v1" else c.cacheVersion
  }

  /** The page cache, `${app_name}-${CACHE_VERSION}`. */
  function CacheName(c: Config): string {
    c.appName + "-" + Version(c)
  }

  /** The asset cache, `${app_name}-assets-${CACHE_VERSION}`. */
  function AssetsCache(c: Config): string {
    c.appName + "-assets-" + Version(c)
  }

  /** The API cache, `${app_name}-api-${CACHE_VERSION}`. */
  function ApiCache(c: Config): string {
    c.appName + "-api-" + Version(c)
  }

  function AssetsStrategy(c: Config): string {
    if c.assetsStrategy == "" then "cache-first" else c.assetsStrategy
  }

  function ApiStrategy(c: Config): string {
    if c.apiStrategy == "" then "network-first" else c.apiStrategy
  }

  /** The three caches of one generation are distinct and each carries the
      version, so activation keeps all of them. */
  lemma GenerationCachesCarryVersion(c: Config)
    ensures CacheName(c) != AssetsCache(c) && CacheName(c) != ApiCache(c) && AssetsCache(c) != ApiCache(c)
    ensures Contains(CacheName(c), Version(c))
    ensures Contains(AssetsCache(c), Version(c))
    ensures Contains(ApiCache(c), Version(c))
  {
    var a, v := c.appName, Version(c);
    assert |CacheName(c)| != |AssetsCache(c)| && |CacheName(c)| != |ApiCache(c)| && |AssetsCache(c)| != |ApiCache(c)|;
    assert CacheName(c)[|a| + 1..] == v;
    ContainsWitness(CacheName(c), v, |a| + 1);
    assert AssetsCache(c)[|a| + 8..] == v;
    ContainsWitness(AssetsCache(c), v, |a| + 8);
    assert ApiCache(c)[|a| + 5..] == v;
    ContainsWitness(ApiCache(c), v, |a| + 5);
  }

  /** Activation compares by substring, so version `v1` also keeps the caches
      of version `v10`. */
  lemma SubstringVersionKeepsLaterGeneration()
    ensures Contains("App-v10", "v1")
  {
    ContainsWitness("App-v10", "v1", 4);
  }

  // ------------------------------------------------------------ classifiers

  /** `routeMatches(url, pattern)` on the URL's pathname. Every match starts
      with the pattern minus its first `*` (the pattern itself when it has
      none), and a plain pattern matches a longer path only at a segment
      boundary. */
  function RouteMatches(path: string, pattern: string): (b: bool)
    ensures b ==> StartsWith(path, ReplaceFirst(pattern, "*", ""))
    ensures b && !Contains(pattern, "*") && path != pattern ==> |pattern| < |path| && path[|pattern|] == '/'
  {
    if Contains(pattern, "*") then StartsWith(path, ReplaceFirst(pattern, "*", ""))
    else path == pattern || StartsWith(path, pattern + "/")
  }

  /** `isPWARoute`: some configured route matches. */
  predicate IsPwaRoute(c: Config, path: string) {
    exists r | r in c.pwaRoutes :: RouteMatches(path, r)
  }

  const StaticExtensions: seq<string> :=
    ["js", "css", "png", "jpg", "jpeg", "gif", "svg", "ico", "webp", "woff", "woff2", "ttf"]

  /** `isStaticAsset`: the lower-cased text after the last dot is a listed
      extension, or the path contains one of the asset patterns. A pathname
      without a dot is its own last segment, so only an asset pattern can
      make it an asset. */
  function IsStaticAsset(c: Config, path: string): (b: bool)
    ensures b && StartsWith(path, "/") && '.' !in path ==> exists p | p in c.assetPatterns :: Contains(path, p)
  {
    assert StartsWith(path, "/") && '.' !in path ==> Lower(AfterLastDot(path)) !in StaticExtensions by {
      if StartsWith(path, "/") && '.' !in path {
        WholePathIsNoExtension(path);
      }
    }
    Lower(AfterLastDot(path)) in StaticExtensions
    || exists p | p in c.assetPatterns :: Contains(path, p)
  }

  /** A pathname without a dot is its own last segment, and a segment
      starting with `/` is no listed extension. */
  lemma WholePathIsNoExtension(path: string)
    requires StartsWith(path, "/") && '.' !in path
    ensures Lower(AfterLastDot(path)) !in StaticExtensions
  {
    NoDotWhole(path);
    SlashPathIsNoExtension(path);
  }

  lemma SlashPathIsNoExtension(path: string)
    requires StartsWith(path, "/")
    ensures Lower(path) !in StaticExtensions
  {
    assert path[..1] == "/";
    var low := Lower(path);
    assert low[0] == LowerChar(path[0]) == '/';
    ExtensionsStartWithLetters();
    HeadExcludes(low, StaticExtensions);
  }

  /** Without a dot, `split('.').pop()` is the whole string. */
  lemma NoDotWhole(s: string)
    requires '.' !in s
    ensures AfterLastDot(s) == s
  {
    var r := AfterLastDot(s);
    assert |r| == |s|;
  }

  lemma HeadExcludes(x: string, xs: seq<string>)
    requires x != [] && forall e :: e in xs ==> e != [] && e[0] != x[0]
    ensures x !in xs
  {
  }

  lemma ExtensionsStartWithLetters()
    ensures forall e :: e in StaticExtensions ==> e != [] && e[0] != '/'
  {
  }

  /** `isApiRequest`: the path contains one of the API patterns. No patterns
      means no API request, and an empty pattern makes every path one,
      since `includes("")` is true. */
  function IsApiRequest(c: Config, path: string): (b: bool)
    ensures c.apiPatterns == [] ==> !b
    ensures "" in c.apiPatterns ==> b
  {
    assert OccursAt(path, "", 0);
    exists p | p in c.apiPatterns :: Contains(path, p)
  }

  /** Removing the first `*` of a pattern that ends in its only `*`. */
  lemma StarSuffixRemoved(p: string)
    requires '*' !in p
    ensures Contains(p + "*", "*")
    ensures ReplaceFirst(p + "*", "*", "") == p
  {
    var s := p + "*";
    assert OccursAt(s, "*", |p|);
    ContainsWitness(s, "*", |p|);
    var i := IndexOf(s, "*").value;
    assert s[i..i + 1] == "*";
    assert s[i] == '*' by { assert s[i..i + 1][0] == s[i]; }
    assert forall j :: 0 <= j < |p| ==> s[j] == p[j];
    assert i == |p|;
    assert s[..|p|] == p;
  }

  /** A route that ends in its only `*` is a plain prefix test. */
  lemma {:induction false} TrailingStarRouteIsPrefix(path: string, p: string)
    requires '*' !in p
    ensures RouteMatches(path, p + "*") <==> StartsWith(path, p)
  {
    StarSuffixRemoved(p);
  }

  /** A route without `*` matches only at a segment boundary:
      `/admin` matches `/admin/users` but not `/administrator`, while `/admin*`
      matches both. */
  lemma SegmentBoundary()
    ensures RouteMatches("/admin/users", "/admin")
    ensures !RouteMatches("/administrator", "/admin")
    ensures RouteMatches("/administrator", "/admin*")
  {
    assert !Contains("/admin", "*") by {
      forall i: nat | i <= 6 ensures !OccursAt("/admin", "*", i) {
        if i < 6 { assert "/admin"[i..i + 1][0] == "/admin"[i]; }
      }
    }
    assert "/admin/users"[..7] == "/admin/";
    assert "/administrator"[..7] != "/admin/" by { assert "/administrator"[6] == 'i'; }
    assert '*' !in "/admin";
    TrailingStarRouteIsPrefix("/administrator", "/admin");
    assert "/admin" + "*" == "/admin*";
    assert "/administrator"[..6] == "/admin";
  }

  /** Upper-case extensions are recognised. */
  lemma UpperCaseExtensionIsAsset(c: Config)
    ensures IsStaticAsset(c, "/img/logo.PNG")
  {
    assert "/img/logo.PNG" == "/img/logo" + "." + "PNG";
    ExtensionAfterLastDot("/img/logo", "PNG");
    var low := Lower("PNG");
    assert low[0] == 'p' && low[1] == 'n' && low[2] == 'g';
    assert low == StaticExtensions[2];
  }

  /** Only the text after the last dot counts: a source map is not a static
      asset unless an asset pattern says so. */
  lemma SourceMapIsNotAsset(c: Config)
    requires c.assetPatterns == []
    ensures !IsStaticAsset(c, "/app.js.map")
  {
    assert "/app.js.map" == "/app.js" + "." + "map";
    ExtensionAfterLastDot("/app.js", "map");
    var low := Lower("map");
    assert low[0] == 'm' && |low| == 3;
    forall e | e in StaticExtensions ensures e != low {
      assert e[0] != 'm';
    }
  }

  /** What follows the last dot is the extension when it has no dot. */
  lemma {:induction false} ExtensionAfterLastDot(base: string, ext: string)
    requires '.' !in ext
    ensures AfterLastDot(base + "." + ext) == ext
    decreases |ext|
  {
    var s := base + "." + ext;
    if ext != [] {
      var init := ext[..|ext| - 1];
      assert ext[|ext| - 1] in ext;
      assert '.' !in init by {
        forall k | 0 <= k < |init| ensures init[k] != '.' {
          assert init[k] == ext[k];
        }
      }
      ExtensionAfterLastDot(base, init);
      assert s[..|s| - 1] == base + "." + init;
      assert init + [ext[|ext| - 1]] == ext;
    }
  }

  // --------------------------------------------------------------- dispatch

  /** Which handler the fetch listener passes a request to. */
  datatype Handler = NotHandled | StaticAssetHandler | ApiHandler | PageHandler | PostHandler

  /** The request is same-origin and either a PWA route or a static asset. */
  predicate InScope(c: Config, self: string, req: Request) {
    req.url.origin == self && (IsPwaRoute(c, req.url.path) || IsStaticAsset(c, req.url.path))
  }

  /** The fetch listener's decision: out-of-scope requests and methods other
      than GET and POST are left to the browser; GET goes to the asset, API or
      page handler in that order of priority; POST to the POST handler. */
  function Route(c: Config, self: string, req: Request): (h: Handler)
    ensures h == NotHandled <==> !InScope(c, self, req) || (req.verb != "GET" && req.verb != "POST")
    ensures h == StaticAssetHandler <==> InScope(c, self, req) && req.verb == "GET" && IsStaticAsset(c, req.url.path)
    ensures h == ApiHandler <==>
      InScope(c, self, req) && req.verb == "GET" && !IsStaticAsset(c, req.url.path) && IsApiRequest(c, req.url.path)
    ensures h == PageHandler <==>
      InScope(c, self, req) && req.verb == "GET" && !IsStaticAsset(c, req.url.path) && !IsApiRequest(c, req.url.path)
    ensures h == PostHandler <==> InScope(c, self, req) && req.verb == "POST"
  {
    if req.url.origin != self then NotHandled
    else if !IsPwaRoute(c, req.url.path) && !IsStaticAsset(c, req.url.path) then NotHandled
    else if req.verb == "GET" then
      if IsStaticAsset(c, req.url.path) then StaticAssetHandler
      else if IsApiRequest(c, req.url.path) then ApiHandler
      else PageHandler
    else if req.verb == "POST" then PostHandler
    else NotHandled
  }

  /** A same-origin GET for a static asset is handled by the asset handler
      even when no PWA route covers it, and even when it also looks like an
      API call. */
  lemma AssetsWinOverRoutesAndApi(c: Config, self: string, req: Request)
    requires req.url.origin == self && req.verb == "GET" && IsStaticAsset(c, req.url.path)
    ensures Route(c, self, req) == StaticAssetHandler
  {
  }

  // ------------------------------------------------------------- responses

  const AssetUnavailable: Response := Response(503, "text/plain;charset=UTF-8", "Asset not available offline")

  const ApiTimeout: Response := Response(408, "application/json",
    "{\"message\":\"Request timeout. Please check your connection.\",\"offline\":true,\"code\":\"TIMEOUT\"}")

  const ApiOffline: Response := Response(503, "application/json",
    "{\"message\":\"Service temporarily unavailable\",\"offline\":true,\"code\":\"OFFLINE\"}")

  const PostOffline: Response := Response(503, "application/json",
    "{\"message\":\"Cannot perform this action offline\",\"offline\":true,\"code\":\"POST_OFFLINE\"}")

  const PostTimeout: Response := Response(408, "application/json",
    "{\"message\":\"Request timeout. Please try again.\",\"code\":\"TIMEOUT\",\"offline\":true}")

  const PostNetworkError: Response := Response(503, "application/json",
    "{\"message\":\"Unable to complete request. Please check your connection.\",\"code\":\"NETWORK_ERROR\",\"offline\":true}")

  // --------------------------------------------------------------- handlers

  /** What `handleStaticAsset` settles to, from the asset-cache entry found
      before the fetch: under cache-first a hit wins; otherwise the fetched
      response, then the hit, then the 503 text. It always serves a response. */
  function StaticAssetReply(c: Config, hit: Option<Response>, answer: FetchOutcome): (r: Reply)
    ensures r.Serve?
    ensures hit.Some? && (AssetsStrategy(c) == "cache-first" || !answer.Answered?) ==> r == Serve(hit.value)
    ensures answer.Answered? && !(AssetsStrategy(c) == "cache-first" && hit.Some?) ==> r == Serve(answer.response)
    ensures hit.None? && !answer.Answered? ==> r == Serve(AssetUnavailable)
  {
    if AssetsStrategy(c) == "cache-first" && hit.Some? then Serve(hit.value)
    else if answer.Answered? then Serve(answer.response)
    else if hit.Some? then Serve(hit.value)
    else Serve(AssetUnavailable)
  }

  /** The asset cache is always opened, and exactly an ok fetched response is
      written to it. */
  function StaticAssetEffect(c: Config, req: Request, answer: FetchOutcome): (e: CacheEffect)
    ensures e.Stored? <==> OkAnswer(answer)
    ensures !e.Untouched? && e.name == AssetsCache(c)
  {
    if OkAnswer(answer) then Stored(AssetsCache(c), req.url, answer.response) else Opened(AssetsCache(c))
  }

  /** What `handleApiRequest` settles to, from the API-cache entry found before
      the fetch: the fetched response whatever its status; on failure the entry
      for a network-first GET, else the 408 body for an abort and the 503 body
      for anything else. */
  function ApiReply(c: Config, req: Request, hit: Option<Response>, answer: FetchOutcome): (r: Reply)
    ensures r.Serve?
    ensures answer.Answered? ==> r.response == answer.response
    ensures !answer.Answered? && !(req.verb == "GET" && ApiStrategy(c) == "network-first" && hit.Some?) ==>
      r.response == (if answer.TimedOut? || answer.Aborted? then ApiTimeout else ApiOffline)
  {
    if answer.Answered? then Serve(answer.response)
    else if req.verb == "GET" && ApiStrategy(c) == "network-first" && hit.Some? then Serve(hit.value)
    else if ErrorName(answer, false) == "AbortError" then Serve(ApiTimeout)
    else Serve(ApiOffline)
  }

  /** Only an ok GET response is written to the API cache; a failed
      network-first GET opens it to look for an entry; nothing else touches
      the caches. */
  function ApiEffect(c: Config, req: Request, answer: FetchOutcome): (e: CacheEffect)
    ensures e.Stored? <==> OkAnswer(answer) && req.verb == "GET"
    ensures e.Opened? <==> !answer.Answered? && req.verb == "GET" && ApiStrategy(c) == "network-first"
    ensures !e.Untouched? ==> e.name == ApiCache(c)
  {
    if OkAnswer(answer) && req.verb == "GET" then Stored(ApiCache(c), req.url, answer.response)
    else if !answer.Answered? && req.verb == "GET" && ApiStrategy(c) == "network-first" then Opened(ApiCache(c))
    else Untouched
  }

  /** What `handlePageRequest` settles to, from the page-cache entry and the
      offline page found before the fetch. Only when both are missing does a
      failed fetch end in a network error. */
  function PageReply(hit: Option<Response>, page: Option<Response>, answer: FetchOutcome): (r: Reply)
    ensures r != Bypass
    ensures r == NetworkError <==> !answer.Answered? && hit.None? && page.None?
    ensures answer.Answered? ==> r == Serve(answer.response)
  {
    if answer.Answered? then Serve(answer.response)
    else if hit.Some? then Serve(hit.value)
    else if page.Some? then Serve(page.value)
    else NetworkError
  }

  /** An ok response is written to the page cache, a response that is not ok
      leaves the caches alone, and a failed fetch opens the page cache. */
  function PageEffect(c: Config, req: Request, answer: FetchOutcome): (e: CacheEffect)
    ensures e.Stored? <==> OkAnswer(answer)
    ensures e.Untouched? <==> answer.Answered? && !IsOk(answer.response)
    ensures !e.Untouched? ==> e.name == CacheName(c)
  {
    if OkAnswer(answer) then Stored(CacheName(c), req.url, answer.response)
    else if answer.Answered? then Untouched
    else Opened(CacheName(c))
  }

  /** `handleStaticAsset`. Under cache-first a hit is served and the single
      fetch is the background refresh; otherwise the fetch is awaited. Either
      way exactly the ok response of that fetch is written to the asset cache.
      A failed fetch falls back to the cached entry, then to a 503. */
  method HandleStaticAsset(cs: CacheStorage, c: Config, req: Request, answer: FetchOutcome) returns (reply: Reply)
    requires cs.Valid()
    modifies cs
    ensures cs.Valid()
    ensures cs.names == EffectNames(old(cs.names), StaticAssetEffect(c, req, answer))
    ensures cs.stores == EffectStores(old(cs.stores), StaticAssetEffect(c, req, answer))
    ensures reply == StaticAssetReply(c, old(cs.MatchIn(AssetsCache(c), req.url)), answer)
  {
    var name := AssetsCache(c);
    cs.Open(name);
    var hit := cs.MatchIn(name, req.url);
    if AssetsStrategy(c) == "cache-first" && hit.Some? {
      if answer.Answered? && IsOk(answer.response) {
        cs.Put(name, req.url, answer.response);
      }
      return Serve(hit.value);
    }
    match answer {
      case Answered(resp) =>
        if IsOk(resp) {
          cs.Put(name, req.url, resp);
        }
        reply := Serve(resp);
      case _ =>
        var fallback := cs.MatchIn(name, req.url);
        reply := if fallback.Some? then Serve(fallback.value) else Serve(AssetUnavailable);
    }
  }

  /** `handleApiRequest`. Its timer aborts a manual controller, so a timeout
      surfaces as `AbortError` and yields the 408 body; other failures yield
      the 503 body, unless a network-first GET finds the API cache entry. Only
      ok GET responses are written. */
  method HandleApiRequest(cs: CacheStorage, c: Config, req: Request, answer: FetchOutcome) returns (reply: Reply)
    requires cs.Valid()
    modifies cs
    ensures cs.Valid()
    ensures cs.names == EffectNames(old(cs.names), ApiEffect(c, req, answer))
    ensures cs.stores == EffectStores(old(cs.stores), ApiEffect(c, req, answer))
    ensures reply == ApiReply(c, req, old(cs.MatchIn(ApiCache(c), req.url)), answer)
  {
    var name := ApiCache(c);
    if answer.Answered? {
      if IsOk(answer.response) && req.verb == "GET" {
        cs.Put(name, req.url, answer.response);
      }
      return Serve(answer.response);
    }
    if req.verb == "GET" && ApiStrategy(c) == "network-first" {
      cs.Open(name);
      var hit := cs.MatchIn(name, req.url);
      if hit.Some? {
        return Serve(hit.value);
      }
    }
    reply := if ErrorName(answer, false) == "AbortError" then Serve(ApiTimeout) else Serve(ApiOffline);
  }

  /** The pattern of an `offline_pages` entry covers the path: a pattern with
      `*` is a prefix once its first `*` is removed, any other pattern is a
      plain prefix. */
  predicate OfflinePatternCovers(path: string, pattern: string) {
    if Contains(pattern, "*") then StartsWith(path, ReplaceFirst(pattern, "*", ""))
    else StartsWith(path, pattern)
  }

  /** Index of the first entry at or after `k` whose pattern covers the path. */
  function FirstCovering(entries: seq<(string, string)>, path: string, k: nat): (r: Option<nat>)
    decreases |entries| - k
    ensures r.Some? ==> k <= r.value < |entries| && OfflinePatternCovers(path, entries[r.value].0)
    ensures r.Some? ==> forall j :: k <= j < r.value ==> !OfflinePatternCovers(path, entries[j].0)
    ensures r.None? ==> forall j :: k <= j < |entries| ==> !OfflinePatternCovers(path, entries[j].0)
  {
    if |entries| <= k then None
    else if OfflinePatternCovers(path, entries[k].0) then Some(k)
    else FirstCovering(entries, path, k + 1)
  }

  function DefaultOfflinePage(c: Config): string {
    if c.defaultOfflinePage == "" then "/offline.html" else c.defaultOfflinePage
  }

  /** The offline page URL `getOfflinePage` looks up: the page of the first
      covering entry, else the default. */
  function OfflinePageFor(c: Config, path: string): (r: string)
    ensures forall i :: 0 <= i < |c.offlinePages| && OfflinePatternCovers(path, c.offlinePages[i].0)
              && (forall j :: 0 <= j < i ==> !OfflinePatternCovers(path, c.offlinePages[j].0))
              ==> r == c.offlinePages[i].1
    ensures (forall i :: 0 <= i < |c.offlinePages| ==> !OfflinePatternCovers(path, c.offlinePages[i].0))
            ==> r == DefaultOfflinePage(c)
  {
    match FirstCovering(c.offlinePages, path, 0)
    case Some(i) => c.offlinePages[i].1
    case None => DefaultOfflinePage(c)
  }

  /** The star entry that the server emits for the route `/` covers every
      path, so every entry after it is never consulted. */
  lemma {:induction false} RootEntryShadowsLater(c: Config, path: string)
    requires |c.offlinePages| > 0 && c.offlinePages[0].0 == "/*" && StartsWith(path, "/")
    ensures OfflinePageFor(c, path) == c.offlinePages[0].1
  {
    assert "/" + "*" == "/*";
    StarSuffixRemoved("/");
  }

  /** `getOfflinePage(url)`: scans the entries in order and matches the page
      of the first covering one, else the default page, against all caches. */
  method GetOfflinePage(cs: CacheStorage, c: Config, self: string, path: string) returns (r: Option<Response>)
    ensures r == cs.Match(Resolve(self, OfflinePageFor(c, path)))
  {
    var i := 0;
    while i < |c.offlinePages|
      invariant 0 <= i <= |c.offlinePages|
      invariant FirstCovering(c.offlinePages, path, i) == FirstCovering(c.offlinePages, path, 0)
    {
      var (pattern, page) := c.offlinePages[i];
      if Contains(pattern, "*") {
        var prefix := ReplaceFirst(pattern, "*", "");
        if StartsWith(path, prefix) {
          return cs.Match(Resolve(self, page));
        }
      } else if StartsWith(path, pattern) {
        return cs.Match(Resolve(self, page));
      }
      i := i + 1;
    }
    r := cs.Match(Resolve(self, DefaultOfflinePage(c)));
  }

  /** `handlePageRequest`: network first with an ok response written to the
      page cache (a response that is not ok leaves the caches alone); a failed fetch (its timeout is a `TimeoutError`) falls back
      to the page cache, then to the offline page, which may itself be
      missing. */
  method HandlePageRequest(cs: CacheStorage, c: Config, self: string, req: Request, answer: FetchOutcome)
    returns (reply: Reply)
    requires cs.Valid()
    modifies cs
    ensures cs.Valid()
    ensures cs.names == EffectNames(old(cs.names), PageEffect(c, req, answer))
    ensures cs.stores == EffectStores(old(cs.stores), PageEffect(c, req, answer))
    ensures reply == PageReply(old(cs.MatchIn(CacheName(c), req.url)),
      old(cs.Match(Resolve(self, OfflinePageFor(c, req.url.path)))), answer)
  {
    var name := CacheName(c);
    if answer.Answered? {
      if IsOk(answer.response) {
        cs.Put(name, req.url, answer.response);
      }
      return Serve(answer.response);
    }
    OpenKeepsMatch(cs.names, cs.stores, name, Resolve(self, OfflinePageFor(c, req.url.path)));
    cs.Open(name);
    var hit := cs.MatchIn(name, req.url);
    if hit.Some? {
      return Serve(hit.value);
    }
    var page := GetOfflinePage(cs, c, self, req.url.path);
    reply := if page.Some? then Serve(page.value) else NetworkError;
  }

  /** The effective `handlePostRequest`, the later of the two declarations:
      the network response is passed through unchanged and any failure becomes
      the 503 `POST_OFFLINE` body. */
  function HandlePostRequest(answer: FetchOutcome): (r: Response)
    ensures answer.Answered? ==> r == answer.response
    ensures !answer.Answered? ==> r.status == 503 && r == PostOffline
  {
    if answer.Answered? then answer.response else PostOffline
  }

  /** The response a handler produced together with the notices it posted and
      the requests it fetched, in order. */
  datatype Handled = Handled(response: Response, notices: seq<Notice>, sent: seq<Request>)

  /** `handleCSRFError`: unless `auto_refresh` is literally `false`, fetch `/`,
      extract the token, tell the pages, and retry the request once with
      `_token` set; the retry's response is returned only if it is ok. Every
      failure on the way (non-ok page, no token, a body that is not form data,
      a rejected fetch) returns the original response. */
  function HandleCsrfError(c: Config, self: string, req: Request, original: Response,
                           tokenAnswer: FetchOutcome, retryAnswer: FetchOutcome): (h: Handled)
    ensures c.errorHandling.csrfAutoRefresh == Some(false) ==> h == Handled(original, [], [])
    ensures |h.sent| <= 2 && |h.notices| <= 1
    ensures h.response == original
      || (|h.sent| == 2 && retryAnswer.Answered? && IsOk(retryAnswer.response) && h.response == retryAnswer.response)
    ensures |h.sent| == 2 ==>
      req.form.Some? && h.sent[1].url == req.url && h.sent[1].verb == req.verb && h.sent[1].form.Some?
      && |h.notices| == 1 && h.notices[0].kind == "csrf_token_updated"
      && FormGet(h.sent[1].form.value, "_token") == Some(h.notices[0].token)
    ensures |h.sent| == 2 <==>
      c.errorHandling.csrfAutoRefresh != Some(false) && tokenAnswer.Answered? && IsOk(tokenAnswer.response)
      && ExtractToken(tokenAnswer.response.body).Some? && req.form.Some?
  {
    if c.errorHandling.csrfAutoRefresh == Some(false) then Handled(original, [], [])
    else
      var tokenRequest := Request(Resolve(self, "/"), "GET", map[], None);
      if !tokenAnswer.Answered? then Handled(original, [], [tokenRequest])
      else
        var page := tokenAnswer.response;
        if !IsOk(page) then Handled(original, [], [tokenRequest])
        else
          match ExtractToken(page.body)
          case None => Handled(original, [], [tokenRequest])
          case Some(token) =>
            var note := Notice("csrf_token_updated", token, "", false, "");
            match req.form
            case None => Handled(original, [note], [tokenRequest])
            case Some(form) =>
              var retry := Request(req.url, req.verb, req.headers, Some(FormSet(form, "_token", token)));
              FormSetThenGet(form, "_token", token);
              if retryAnswer.Answered? && IsOk(retryAnswer.response) then
                Handled(retryAnswer.response, [note], [tokenRequest, retry])
              else Handled(original, [note], [tokenRequest, retry])
  }

  /** `handleSessionError`: the response is returned unchanged; a
      `session_expired` notice is posted only when `show_notification` is set. */
  function HandleSessionError(c: Config, original: Response): (h: Handled)
    ensures h.response == original && h.sent == []
    ensures |h.notices| == (if c.errorHandling.sessionShowNotification then 1 else 0)
    ensures h.notices != [] ==>
      h.notices[0].kind == "session_expired" && h.notices[0].redirectToLogin == c.errorHandling.sessionRedirectToLogin
      && h.notices[0].loginRoute == (if c.errorHandling.sessionLoginRoute == "" then "/login" else c.errorHandling.sessionLoginRoute)
  {
    if c.errorHandling.sessionShowNotification then
      var message := if c.errorHandling.sessionMessage == "" then "Your session has expired. Please log in again." else c.errorHandling.sessionMessage;
      var login := if c.errorHandling.sessionLoginRoute == "" then "/login" else c.errorHandling.sessionLoginRoute;
      Handled(original, [Notice("session_expired", "", message, c.errorHandling.sessionRedirectToLogin, login)], [])
    else Handled(original, [], [])
  }

  /** The first, shadowed `handlePostRequest`: 419 goes to the CSRF handler,
      401 and 403 to the session handler. Its timeout signal raises
      `TimeoutError`, so only a foreign abort gives the 408 body. */
  function HandlePostRequestShadowed(c: Config, self: string, req: Request, answer: FetchOutcome,
                                     tokenAnswer: FetchOutcome, retryAnswer: FetchOutcome): (h: Handled)
    ensures !answer.Answered? ==> h.sent == [] && h.notices == []
    ensures !answer.Answered? ==> (h.response.status == 408 <==> answer.Aborted?)
    ensures answer.Answered? && answer.response.status !in {419, 401, 403} ==> h == Handled(answer.response, [], [])
    ensures answer.Answered? && answer.response.status in {401, 403} ==> h.response == answer.response
  {
    match answer
    case Answered(resp) =>
      if resp.status == 419 then HandleCsrfError(c, self, req, resp, tokenAnswer, retryAnswer)
      else if resp.status == 401 || resp.status == 403 then HandleSessionError(c, resp)
      else Handled(resp, [], [])
    case _ =>
      if ErrorName(answer, true) == "AbortError" then Handled(PostTimeout, [], [])
      else Handled(PostNetworkError, [], [])
  }

  /** Because the later declaration wins, a 419 from a POST is handed back to
      the page as it is, whereas the shadowed handler would have retried it
      with the fresh token. */
  lemma CsrfRetryIsUnreachable(c: Config, self: string, req: Request, r419: Response, t: string, retried: Response)
    requires InScope(c, self, req) && req.verb == "POST" && r419.status == 419
    requires c.errorHandling.csrfAutoRefresh != Some(false) && req.form.Some?
    requires t != [] && '"' !in t && IsOk(retried)
    ensures Route(c, self, req) == PostHandler
    ensures HandlePostRequest(Answered(r419)) == r419
    ensures var page := Response(200, "text/html", "<meta " + MetaPrefix + t + "\">");
      HandlePostRequestShadowed(c, self, req, Answered(r419), Answered(page), Answered(retried)).response == retried
  {
    MetaTagYieldsToken(t, "");
    assert "<meta " + MetaPrefix + t + "\">" + "" == "<meta " + MetaPrefix + t + "\">";
  }

  /** The fetch listener: dispatches by `Route`, then runs the handler with the
      one fetch it makes answered by `answer`. POST responses are never
      cached. */
  method HandleFetch(cs: CacheStorage, c: Config, self: string, req: Request, answer: FetchOutcome)
    returns (reply: Reply)
    requires cs.Valid()
    modifies cs
    ensures cs.Valid()
    ensures Route(c, self, req) == NotHandled ==> reply == Bypass && unchanged(cs)
    ensures Route(c, self, req) == StaticAssetHandler ==>
      reply == StaticAssetReply(c, old(cs.MatchIn(AssetsCache(c), req.url)), answer)
      && cs.names == EffectNames(old(cs.names), StaticAssetEffect(c, req, answer))
      && cs.stores == EffectStores(old(cs.stores), StaticAssetEffect(c, req, answer))
    ensures Route(c, self, req) == ApiHandler ==>
      reply == ApiReply(c, req, old(cs.MatchIn(ApiCache(c), req.url)), answer)
      && cs.names == EffectNames(old(cs.names), ApiEffect(c, req, answer))
      && cs.stores == EffectStores(old(cs.stores), ApiEffect(c, req, answer))
    ensures Route(c, self, req) == PageHandler ==>
      reply == PageReply(old(cs.MatchIn(CacheName(c), req.url)),
        old(cs.Match(Resolve(self, OfflinePageFor(c, req.url.path)))), answer)
      && cs.names == EffectNames(old(cs.names), PageEffect(c, req, answer))
      && cs.stores == EffectStores(old(cs.stores), PageEffect(c, req, answer))
    ensures Route(c, self, req) == PostHandler ==> reply == Serve(HandlePostRequest(answer)) && unchanged(cs)
    ensures Route(c, self, req) != NotHandled ==> reply != Bypass
  {
    match Route(c, self, req)
    case NotHandled => reply := Bypass;
    case StaticAssetHandler => reply := HandleStaticAsset(cs, c, req, answer);
    case ApiHandler => reply := HandleApiRequest(cs, c, req, answer);
    case PageHandler => reply := HandlePageRequest(cs, c, self, req, answer);
    case PostHandler => reply := Serve(HandlePostRequest(answer));
  }

  // -------------------------------------------------------------- lifecycle

  /** The routes install pre-caches: those without `*`. */
  function RoutesToCache(c: Config): (r: seq<string>)
    ensures forall x :: x in r <==> x in c.pwaRoutes && !Contains(x, "*")
  {
    WithoutWildcards(c.pwaRoutes)
  }

  function WithoutWildcards(routes: seq<string>): (r: seq<string>)
    ensures forall x :: x in r <==> x in routes && !Contains(x, "*")
  {
    if routes == [] then []
    else (if Contains(routes[0], "*") then [] else [routes[0]]) + WithoutWildcards(routes[1..])
  }

  /** The install listener. Both caches are opened, page cache first. The page
      batch spreads `offline_pages`, which the server emits as a JSON object
      whenever it has entries; spreading an object throws, so that batch
      stores nothing then. Each `addAll` is all-or-nothing, and
      `skipWaiting` runs only if both batches succeed. */
  method Install(cs: CacheStorage, c: Config, self: string, routeAnswers: seq<FetchOutcome>, assetAnswers: seq<FetchOutcome>)
    returns (skipWaiting: bool)
    requires cs.Valid()
    requires |routeAnswers| == |RoutesToCache(c)| && |assetAnswers| == |c.staticAssets|
    modifies cs
    ensures cs.Valid()
    ensures cs.names == OpenNames(OpenNames(old(cs.names), CacheName(c)), AssetsCache(c))
    ensures skipWaiting == (c.offlinePages == [] && AllOk(routeAnswers) && AllOk(assetAnswers))
    ensures var s0 := OpenStores(OpenStores(old(cs.stores), CacheName(c)), AssetsCache(c));
      var s1 := if c.offlinePages == [] && AllOk(routeAnswers)
        then s0[CacheName(c) := Batch(s0[CacheName(c)], ResolveAll(self, RoutesToCache(c)), routeAnswers)]
        else s0;
      cs.stores == if AllOk(assetAnswers)
        then s1[AssetsCache(c) := Batch(s0[AssetsCache(c)], ResolveAll(self, c.staticAssets), assetAnswers)]
        else s1
  {
    GenerationCachesCarryVersion(c);
    var pages, assets := CacheName(c), AssetsCache(c);
    cs.Open(pages);
    cs.Open(assets);
    ghost var s0 := cs.stores;
    var pagesStored := false;
    if c.offlinePages == [] {
      pagesStored := cs.AddAll(pages, ResolveAll(self, RoutesToCache(c)), routeAnswers);
    }
    assert cs.stores[assets] == s0[assets];
    var assetsStored := cs.AddAll(assets, ResolveAll(self, c.staticAssets), assetAnswers);
    skipWaiting := pagesStored && assetsStored;
  }

  /** `Object.values(offline_pages)`: the offline page URLs in insertion order. */
  function OfflinePageUrls(c: Config): (r: seq<string>)
    ensures |r| == |c.offlinePages|
    ensures forall i :: 0 <= i < |r| ==> r[i] == c.offlinePages[i].1
  {
    seq(|c.offlinePages|, i requires 0 <= i < |c.offlinePages| => c.offlinePages[i].1)
  }

  /** The corrected page batch lists every cacheable route and every
      offline page. */
  lemma CorrectedListCovers(c: Config, self: string)
    ensures var keys := ResolveAll(self, RoutesToCache(c) + OfflinePageUrls(c));
            (forall p :: p in RoutesToCache(c) ==> Resolve(self, p) in keys)
            && (forall i :: 0 <= i < |c.offlinePages| ==> Resolve(self, c.offlinePages[i].1) in keys)
  {
    var paths := RoutesToCache(c) + OfflinePageUrls(c);
    var keys := ResolveAll(self, paths);
    forall p | p in paths ensures Resolve(self, p) in keys {
      var j :| 0 <= j < |paths| && paths[j] == p;
      assert keys[j] == Resolve(self, p);
    }
    forall i | 0 <= i < |c.offlinePages| ensures Resolve(self, c.offlinePages[i].1) in keys {
      assert paths[|RoutesToCache(c)| + i] == c.offlinePages[i].1;
    }
  }

  /** The install listener as evidently intended: the page batch spreads the
      offline page URLs instead of the object, so it succeeds whenever every
      fetch does, and then the routes and every offline page are cached. */
  method InstallCorrected(cs: CacheStorage, c: Config, self: string,
                          routeAnswers: seq<FetchOutcome>, assetAnswers: seq<FetchOutcome>)
    returns (skipWaiting: bool)
    requires cs.Valid()
    requires |routeAnswers| == |RoutesToCache(c)| + |c.offlinePages| && |assetAnswers| == |c.staticAssets|
    modifies cs
    ensures cs.Valid()
    ensures cs.names == OpenNames(OpenNames(old(cs.names), CacheName(c)), AssetsCache(c))
    ensures skipWaiting == (AllOk(routeAnswers) && AllOk(assetAnswers))
    ensures AllOk(routeAnswers) ==>
      (forall p :: p in RoutesToCache(c) ==> Resolve(self, p) in cs.stores[CacheName(c)])
      && (forall i :: 0 <= i < |c.offlinePages| ==> Resolve(self, c.offlinePages[i].1) in cs.stores[CacheName(c)])
    ensures AllOk(assetAnswers) ==> forall p :: p in c.staticAssets ==> Resolve(self, p) in cs.stores[AssetsCache(c)]
  {
    GenerationCachesCarryVersion(c);
    var pages, assets := CacheName(c), AssetsCache(c);
    cs.Open(pages);
    cs.Open(assets);
    var keys := ResolveAll(self, RoutesToCache(c) + OfflinePageUrls(c));
    var pagesStored := cs.AddAll(pages, keys, routeAnswers);
    CorrectedListCovers(c, self);
    ghost var afterPages := cs.stores;
    var assetsStored := cs.AddAll(assets, ResolveAll(self, c.staticAssets), assetAnswers);
    assert cs.stores[pages] == afterPages[pages];
    skipWaiting := pagesStored && assetsStored;
  }

  /** The activate listener's filter: a cache survives when its name
      contains the version as a substring. */
  function SameGeneration(c: Config): string -> bool {
    n => Contains(n, Version(c))
  }

  /** The activate listener: deletes exactly the caches whose name does not
      contain the version as a substring; the others keep their entries and
      their creation order, which decides what `caches.match` finds. */
  method Activate(cs: CacheStorage, c: Config)
    requires cs.Valid()
    modifies cs
    ensures cs.Valid()
    ensures forall n :: n in cs.stores <==> n in old(cs.stores) && Contains(n, Version(c))
    ensures forall n :: n in cs.stores ==> cs.stores[n] == old(cs.stores)[n]
    ensures forall n :: n in cs.names <==> n in cs.stores
    ensures cs.names == Without(old(cs.names), Dropped(old(cs.names), SameGeneration(c)))
  {
    DeleteUnless(cs, SameGeneration(c));
  }

  /** `clearAllCaches`: every cache is deleted, so a second run changes
      nothing. */
  method ClearAllCaches(cs: CacheStorage)
    requires cs.Valid()
    modifies cs
    ensures cs.Valid() && cs.names == [] && cs.stores == map[]
  {
    ghost var before := cs.names;
    DeleteUnless(cs, n => false);
    WithoutAll(before, Dropped(before, n => false));
  }

  /** The message listener: `SKIP_WAITING` asks to skip waiting,
      `CACHE_CLEAR` clears every cache; any other type does nothing. */
  method HandleMessage(cs: CacheStorage, kind: string) returns (skipWaiting: bool)
    requires cs.Valid()
    modifies cs
    ensures cs.Valid()
    ensures skipWaiting == (kind == "SKIP_WAITING")
    ensures kind == "CACHE_CLEAR" ==> cs.names == [] && cs.stores == map[]
    ensures kind != "CACHE_CLEAR" ==> unchanged(cs)
  {
    skipWaiting := kind == "SKIP_WAITING";
    if kind == "CACHE_CLEAR" {
      ClearAllCaches(cs);
    }
  }
}
