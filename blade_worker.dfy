/** The service worker rendered from `resources/views/service-worker.blade.php`:
    one cache named `CACHE_NAME`, a regular-expression allowlist, a
    configurable strategy for static assets, network-first API and page
    handlers with a global cache fallback, and the install, activate and
    message lifecycle. */
module BladeWorker {
  import opened Wrappers
  import opened Text
  import opened Glob
  import opened Web

  /** A value of the `offline.pages` object: a string names
      `/offline-<page>.html`; an object contributes its `url` member, which is
      `""` when missing or falsy. */
  datatype OfflineValue = Named(page: string) | Entry(url: string)

  /** What the view receives: `cacheName`, `cacheStrategy`, `allowedRoutes`,
      the values of `offlinePages`, `staticAssets`, and the parts of the full
      config object it reads (`cache.static_assets`, `cache.static_strategy`,
      `manifest.name`, with `""` for absent or falsy). The view writes
      `cacheName` and `cacheStrategy` through Blade's escaping `{{ }}`, so a
      name holding `&`, `<`, `>`, `"` or `'` reaches the worker as its HTML
      entity; the strings here are the escaped ones, and `PwaService`'s
      unescaped values equal them only for names without those characters. */
  datatype Config = Config(
    cacheName: string,
    cacheStrategy: string,
    allowedRoutes: seq<string>,
    offlinePages: seq<OfflineValue>,
    staticAssets: seq<string>,
    cacheStaticAssets: bool,
    staticStrategy: string,
    manifestName: string)

  /** The request URL as `request.url` prints it. */
  function Href(u: Url): string {
    u.origin + u.path + u.query
  }

  // ------------------------------------------------------------ classifiers

  /** `isRouteAllowed`: an empty allowlist allows everything; otherwise some
      pattern, with each `*` read as `.*` and anchored at both ends, matches
      the whole path. */
  function IsRouteAllowed(c: Config, path: string): (b: bool)
    ensures c.allowedRoutes == [] ==> b
    ensures path in c.allowedRoutes && Literal(path, true) && Free(path, RegexSpecials) ==> b
    ensures "*" in c.allowedRoutes && Free(path, JsLineTerminators) ==> b
  {
    SelfMatch(path);
    StarMatchesFree(path, true, JsLineTerminators);
    c.allowedRoutes == [] || exists p | p in c.allowedRoutes :: RegexWildcardTest(p, path)
  }

  lemma SelfMatch(p: string)
    ensures Literal(p, true) ==> RegexWildcardTest(p, p)
  {
    if Literal(p, true) {
      LiteralMatchesItself(p, p, true, JsLineTerminators);
    }
  }

  /** A non-empty allowlist of plain paths (no `*`, no `.` and no other
      regular-expression character) allows exactly its own entries. */
  lemma LiteralAllowlist(c: Config, path: string)
    requires c.allowedRoutes != []
    requires forall p | p in c.allowedRoutes :: Literal(p, true) && Free(p, RegexSpecials)
    ensures IsRouteAllowed(c, path) <==> path in c.allowedRoutes
  {
    forall p | p in c.allowedRoutes ensures RegexWildcardTest(p, path) <==> p == path {
      LiteralMatchesItself(p, path, true, JsLineTerminators);
    }
  }

  const AssetExtensions: seq<string> :=
    ["css", "js", "mjs", "jsx", "ts", "tsx", "png", "jpg", "jpeg", "gif", "svg", "ico", "webp",
     "avif", "bmp", "tiff", "woff", "woff2", "ttf", "eot", "otf", "json", "xml", "pdf", "txt",
     "csv", "webm", "mp4", "ogg", "mp3", "wav", "flac", "zip", "gz", "tar", "rar", "7z", "html", "htm"]

  /** `isStaticAsset`: the path ends, ignoring case, in a dot and one of the
      listed extensions; equivalently, some dot of the path is followed by
      text whose lower-case form is a listed extension. */
  function IsStaticAsset(path: string): (b: bool)
    ensures b <==> exists k :: 0 <= k < |path| && path[k] == '.' && Lower(path[k + 1..]) in AssetExtensions
  {
    AssetByDot(path);
    exists e | e in AssetExtensions :: EndsWith(Lower(path), "." + e)
  }

  /** The `/\.(ext|...)$/i` test read as a dot position. */
  lemma AssetByDot(path: string)
    ensures (exists e | e in AssetExtensions :: EndsWith(Lower(path), "." + e))
            <==> exists k :: 0 <= k < |path| && path[k] == '.' && Lower(path[k + 1..]) in AssetExtensions
  {
    ExtensionByDot(path, AssetExtensions);
  }

  lemma ExtensionByDot(path: string, exts: seq<string>)
    ensures (exists e | e in exts :: EndsWith(Lower(path), "." + e))
            <==> exists k :: 0 <= k < |path| && path[k] == '.' && Lower(path[k + 1..]) in exts
  {
    if e :| e in exts && EndsWith(Lower(path), "." + e) {
      var k := |path| - |e| - 1;
      DotOfSuffix(path, e, k);
      assert path[k] == '.' && Lower(path[k + 1..]) in exts;
    }
    if k :| 0 <= k < |path| && path[k] == '.' && Lower(path[k + 1..]) in exts {
      SuffixOfDot(path, k);
    }
  }

  /** A lower-cased path ending in `.e` has a dot where that suffix starts. */
  lemma DotOfSuffix(path: string, e: string, k: nat)
    requires EndsWith(Lower(path), "." + e) && k == |path| - |e| - 1
    ensures k < |path| && path[k] == '.' && Lower(path[k + 1..]) == e
  {
    var low := Lower(path);
    assert low[k..] == "." + e;
    assert LowerChar(path[k]) == low[k];
    LowerSuffix(path, k + 1);
    assert low[k + 1..] == low[k..][1..];
  }

  /** A dot is followed by the lower-case text after it. */
  lemma SuffixOfDot(path: string, k: nat)
    requires k < |path| && path[k] == '.'
    ensures EndsWith(Lower(path), "." + Lower(path[k + 1..]))
  {
    var low := Lower(path);
    LowerSuffix(path, k + 1);
    assert low[k..] == [low[k]] + low[k + 1..];
  }

  lemma LowerSuffix(s: string, k: nat)
    requires k <= |s|
    ensures Lower(s[k..]) == Lower(s)[k..]
  {
  }

  /** `isAPIRequest`: an `/api/` or `/livewire/` path, or an XHR header. An
      XHR counts whatever its path; without the header only a path at least
      as long as `/api/` can count. */
  function IsApiRequest(req: Request): (b: bool)
    ensures ("x-requested-with" in req.headers && req.headers["x-requested-with"] == "XMLHttpRequest") ==> b
    ensures b && !("x-requested-with" in req.headers && req.headers["x-requested-with"] == "XMLHttpRequest")
            ==> |req.url.path| >= 5 && req.url.path[0] == '/'
  {
    StartsWith(req.url.path, "/api/") || StartsWith(req.url.path, "/livewire/")
    || ("x-requested-with" in req.headers && req.headers["x-requested-with"] == "XMLHttpRequest")
  }

  /** `isPageRequest`: an `Accept` header that mentions `text/html`. A
      browser navigation, whose header starts with `text/html`, is one; a
      request without the header never is. */
  function IsPageRequest(req: Request): (b: bool)
    ensures b ==> "accept" in req.headers && |req.headers["accept"]| >= 9
    ensures "accept" in req.headers && StartsWith(req.headers["accept"], "text/html") ==> b
  {
    if "accept" !in req.headers then false
    else if StartsWith(req.headers["accept"], "text/html") then
      ContainsPrefix(req.headers["accept"], "text/html");
      Contains(req.headers["accept"], "text/html")
    else Contains(req.headers["accept"], "text/html")
  }

  /** A pattern ending in its only `*` (and without `.` or another
      regular-expression character) allows exactly the paths that start with
      the rest of it and have no line terminator after. */
  lemma {:induction false} StarPatternIsPrefix(c: Config, q: string, path: string)
    requires c.allowedRoutes == [q + "*"] && '*' !in q && '.' !in q && Free(q, RegexSpecials)
    ensures IsRouteAllowed(c, path) <==> StartsWith(path, q) && Free(path[|q|..], JsLineTerminators)
  {
    PrefixStarMatches(q, path, true, JsLineTerminators);
    assert (exists p | p in c.allowedRoutes :: RegexWildcardTest(p, path)) <==> RegexWildcardTest(q + "*", path);
  }

  /** The dot of a file name in the allowlist is not escaped: it matches any
      character. */
  lemma DotIsWildcard(c: Config)
    requires c.allowedRoutes == ["/a.b"]
    ensures IsRouteAllowed(c, "/axb")
  {
    var p, s := "/a.b", "/axb";
    assert Matches(p[3..], s[3..], true, JsLineTerminators) by {
      assert p[3..][1..] == [] && s[3..][1..] == [];
    }
    assert Matches(p[2..], s[2..], true, JsLineTerminators) by {
      assert p[2..][1..] == p[3..] && s[2..][1..] == s[3..];
    }
    assert Matches(p[1..], s[1..], true, JsLineTerminators) by {
      assert p[1..][1..] == p[2..] && s[1..][1..] == s[2..];
    }
    assert RegexWildcardTest(p, s);
  }

  /** Case is ignored. */
  lemma UpperCaseExtensionIsAsset()
    ensures IsStaticAsset("/a.PDF")
  {
    var low := Lower("/a.PDF");
    assert low[2] == '.' && low[3] == 'p' && low[4] == 'd' && low[5] == 'f';
    assert low[2..] == ".pdf";
    assert "." + AssetExtensions[23] == ".pdf";
  }

  /** The extension must follow a dot. */
  lemma BareExtensionIsNotAsset()
    ensures !IsStaticAsset("/pdf")
  {
    var l := Lower("/pdf");
    assert forall i :: 0 <= i < |l| ==> l[i] != '.';
    forall e | e in AssetExtensions ensures !EndsWith(l, "." + e) {
      var t := "." + e;
      if |t| <= |l| {
        assert l[|l| - |t|..][0] == l[|l| - |t|];
        assert t[0] == '.';
      }
    }
  }

  // --------------------------------------------------------------- dispatch

  datatype Handler = NotIntercepted | DisallowedHandler | StaticHandler | ApiHandler | PageHandler

  /** The fetch listener's decision: non-GET and cross-origin requests are
      left alone, a path outside the allowlist gets the redirect page, and
      allowed requests go to the asset, API or page handler in that order; a
      request that is none of these is left alone. */
  function Route(c: Config, self: string, req: Request): (h: Handler)
    ensures h == NotIntercepted <==>
      req.verb != "GET" || req.url.origin != self
      || (IsRouteAllowed(c, req.url.path) && !IsStaticAsset(req.url.path) && !IsApiRequest(req) && !IsPageRequest(req))
    ensures h == DisallowedHandler <==> req.verb == "GET" && req.url.origin == self && !IsRouteAllowed(c, req.url.path)
    ensures h == StaticHandler <==>
      req.verb == "GET" && req.url.origin == self && IsRouteAllowed(c, req.url.path) && IsStaticAsset(req.url.path)
    ensures h == ApiHandler <==>
      req.verb == "GET" && req.url.origin == self && IsRouteAllowed(c, req.url.path)
      && !IsStaticAsset(req.url.path) && IsApiRequest(req)
    ensures h == PageHandler <==>
      req.verb == "GET" && req.url.origin == self && IsRouteAllowed(c, req.url.path)
      && !IsStaticAsset(req.url.path) && !IsApiRequest(req) && IsPageRequest(req)
  {
    if req.verb != "GET" || req.url.origin != self then NotIntercepted
    else if !IsRouteAllowed(c, req.url.path) then DisallowedHandler
    else if IsStaticAsset(req.url.path) then StaticHandler
    else if IsApiRequest(req) then ApiHandler
    else if IsPageRequest(req) then PageHandler
    else NotIntercepted
  }

  /** `handleDisallowedRoute`: a 200 HTML page that refreshes to, and opens,
      the request URL. */
  function RedirectPage(href: string): (r: Response)
    ensures r.status == 200 && r.contentType == "text/html"
    ensures Contains(r.body, "content=\"0;url=" + href + "\"")
  {
    var refresh := "content=\"0;url=" + href + "\"";
    var body := RedirectHead + refresh + RedirectMiddle + href + RedirectTail;
    assert body == RedirectHead + refresh + (RedirectMiddle + href + RedirectTail);
    ContainsWitness(body, refresh, |RedirectHead|);
    Response(200, "text/html", body)
  }

  const RedirectHead :=
    "<!DOCTYPE html>\n        <html>\n        <head>\n            <title>Opening in Browser...</title>\n"
    + "            <meta http-equiv=\"refresh\" "

  const RedirectMiddle := ">\n        </head>\n        <body>\n            <script>\n                window.open('"

  const RedirectTail :=
    "', '_system');\n            </script>\n            <p>Redirecting to browser...</p>\n        </body>\n        </html>"

  // ------------------------------------------------------------- strategies

  datatype Strategy = CacheFirst | NetworkFirst | StaleWhileRevalidate

  /** `CONFIG.cache?.static_strategy || CACHE_STRATEGY`, then the switch whose
      default is cache-first. */
  function StaticStrategy(c: Config): (s: Strategy)
    ensures var name := if c.staticStrategy != "" then c.staticStrategy else c.cacheStrategy;
      (s == NetworkFirst <==> name == "network_first")
      && (s == StaleWhileRevalidate <==> name == "stale_while_revalidate")
      && (s == CacheFirst <==> name != "network_first" && name != "stale_while_revalidate")
  {
    var name := if c.staticStrategy != "" then c.staticStrategy else c.cacheStrategy;
    if name == "network_first" then NetworkFirst
    else if name == "stale_while_revalidate" then StaleWhileRevalidate
    else CacheFirst
  }

  /** What a strategy settles to, from the entry `caches.match` found before
      any fetch and the outcome of the fetch. */
  function StrategyReply(s: Strategy, hit: Option<Response>, answer: FetchOutcome): (r: Reply)
    ensures r != Bypass
    ensures r.Serve? ==> (hit.Some? && r.response == hit.value) || (answer.Answered? && r.response == answer.response)
    ensures r == NetworkError <==> hit.None? && !answer.Answered?
    ensures s != NetworkFirst && hit.Some? ==> r == Serve(hit.value)
    ensures s == NetworkFirst && answer.Answered? ==> r == Serve(answer.response)
  {
    match s
    case NetworkFirst =>
      if answer.Answered? then Serve(answer.response)
      else if hit.Some? then Serve(hit.value)
      else NetworkError
    case _ =>
      if hit.Some? then Serve(hit.value)
      else if answer.Answered? then Serve(answer.response)
      else NetworkError
  }

  /** Whether the strategy writes the fetched response through: every fetch
      that yields an ok response is stored, and cache-first does not fetch on
      a hit. */
  predicate StrategyWrites(s: Strategy, hit: Option<Response>, answer: FetchOutcome) {
    OkAnswer(answer) && !(s == CacheFirst && hit.Some?)
  }

  /** What a handler writes through: the fetched response is stored in
      `CACHE_NAME` under the request URL exactly when `writes` holds, and the
      caches are otherwise left alone. */
  function WriteThrough(c: Config, req: Request, answer: FetchOutcome, writes: bool): CacheEffect
    requires writes ==> answer.Answered?
  {
    if writes then Stored(c.cacheName, req.url, answer.response) else Untouched
  }

  /** `cacheFirst`: a hit is returned without a network call. */
  method CacheFirstFetch(cs: CacheStorage, c: Config, req: Request, answer: FetchOutcome) returns (reply: Reply)
    requires cs.Valid()
    modifies cs
    ensures cs.Valid()
    ensures reply == StrategyReply(CacheFirst, old(cs.Match(req.url)), answer)
    ensures StrategyWrites(CacheFirst, old(cs.Match(req.url)), answer) ==>
      cs.names == OpenNames(old(cs.names), c.cacheName)
      && cs.stores == PutStores(old(cs.stores), c.cacheName, req.url, answer.response)
    ensures !StrategyWrites(CacheFirst, old(cs.Match(req.url)), answer) ==> unchanged(cs)
  {
    var hit := cs.Match(req.url);
    if hit.Some? {
      return Serve(hit.value);
    }
    if OkAnswer(answer) {
      cs.Put(c.cacheName, req.url, answer.response);
    }
    reply := if answer.Answered? then Serve(answer.response) else NetworkError;
  }

  /** `networkFirst`: the network response wins; a failure falls back to the
      cache and otherwise rethrows. */
  method NetworkFirstFetch(cs: CacheStorage, c: Config, req: Request, answer: FetchOutcome) returns (reply: Reply)
    requires cs.Valid()
    modifies cs
    ensures cs.Valid()
    ensures reply == StrategyReply(NetworkFirst, old(cs.Match(req.url)), answer)
    ensures StrategyWrites(NetworkFirst, old(cs.Match(req.url)), answer) ==>
      cs.names == OpenNames(old(cs.names), c.cacheName)
      && cs.stores == PutStores(old(cs.stores), c.cacheName, req.url, answer.response)
    ensures !StrategyWrites(NetworkFirst, old(cs.Match(req.url)), answer) ==> unchanged(cs)
  {
    if answer.Answered? {
      if IsOk(answer.response) {
        cs.Put(c.cacheName, req.url, answer.response);
      }
      return Serve(answer.response);
    }
    var hit := cs.Match(req.url);
    reply := if hit.Some? then Serve(hit.value) else NetworkError;
  }

  /** `staleWhileRevalidate`: the cached entry is looked up first and returned
      if present, while the fetch always runs and writes an ok response; with
      no entry the fetch's response is returned, and a failed fetch resolves to
      `undefined`. */
  method StaleWhileRevalidateFetch(cs: CacheStorage, c: Config, req: Request, answer: FetchOutcome) returns (reply: Reply)
    requires cs.Valid()
    modifies cs
    ensures cs.Valid()
    ensures reply == StrategyReply(StaleWhileRevalidate, old(cs.Match(req.url)), answer)
    ensures StrategyWrites(StaleWhileRevalidate, old(cs.Match(req.url)), answer) ==>
      cs.names == OpenNames(old(cs.names), c.cacheName)
      && cs.stores == PutStores(old(cs.stores), c.cacheName, req.url, answer.response)
    ensures !StrategyWrites(StaleWhileRevalidate, old(cs.Match(req.url)), answer) ==> unchanged(cs)
  {
    var hit := cs.Match(req.url);
    if OkAnswer(answer) {
      cs.Put(c.cacheName, req.url, answer.response);
    }
    reply := if hit.Some? then Serve(hit.value) else if answer.Answered? then Serve(answer.response) else NetworkError;
  }

  /** `handleStaticAsset`: runs the configured strategy. */
  method HandleStaticAsset(cs: CacheStorage, c: Config, req: Request, answer: FetchOutcome) returns (reply: Reply)
    requires cs.Valid()
    modifies cs
    ensures cs.Valid()
    ensures reply == StrategyReply(StaticStrategy(c), old(cs.Match(req.url)), answer)
    ensures var e := WriteThrough(c, req, answer, StrategyWrites(StaticStrategy(c), old(cs.Match(req.url)), answer));
      cs.names == EffectNames(old(cs.names), e) && cs.stores == EffectStores(old(cs.stores), e)
  {
    match StaticStrategy(c)
    case CacheFirst => reply := CacheFirstFetch(cs, c, req, answer);
    case NetworkFirst => reply := NetworkFirstFetch(cs, c, req, answer);
    case StaleWhileRevalidate => reply := StaleWhileRevalidateFetch(cs, c, req, answer);
  }

  const ApiUnavailable: Response := Response(503, "application/json",
    "{\"error\":\"Network unavailable\",\"offline\":true,\"cached\":false}")

  /** What `handleAPIRequest` settles to, from the entry `caches.match` finds
      before the fetch: the fetched response whatever its status, else the
      entry, else the 503 body; it always serves a response. */
  function ApiReply(hit: Option<Response>, answer: FetchOutcome): (r: Reply)
    ensures r.Serve?
    ensures answer.Answered? ==> r.response == answer.response
    ensures !answer.Answered? && hit.Some? ==> r.response == hit.value
    ensures !answer.Answered? && hit.None? ==> r.response == ApiUnavailable
  {
    if answer.Answered? then Serve(answer.response) else Serve(hit.GetOr(ApiUnavailable))
  }

  /** `handleAPIRequest`: network first, ok GET responses written; a failure
      returns the entry of any cache, else the 503 body. */
  method HandleApiRequest(cs: CacheStorage, c: Config, req: Request, answer: FetchOutcome) returns (reply: Reply)
    requires cs.Valid()
    modifies cs
    ensures cs.Valid()
    ensures var e := WriteThrough(c, req, answer, OkAnswer(answer) && req.verb == "GET");
      cs.names == EffectNames(old(cs.names), e) && cs.stores == EffectStores(old(cs.stores), e)
    ensures reply == ApiReply(old(cs.Match(req.url)), answer)
  {
    if answer.Answered? {
      if IsOk(answer.response) && req.verb == "GET" {
        cs.Put(c.cacheName, req.url, answer.response);
      }
      return Serve(answer.response);
    }
    var hit := cs.Match(req.url);
    reply := if hit.Some? then Serve(hit.value) else Serve(ApiUnavailable);
  }

  // ---------------------------------------------------------- offline pages

  /** The offline page kind by path prefix. The test is a plain prefix, so
      `/administrator` and `/members` count too. */
  function OfflineKind(path: string): (k: string)
    ensures k == "admin" <==> StartsWith(path, "/admin")
    ensures k == "member" <==> !StartsWith(path, "/admin") && StartsWith(path, "/member")
    ensures k == "default" <==> !StartsWith(path, "/admin") && !StartsWith(path, "/member")
  {
    if StartsWith(path, "/admin") then "admin"
    else if StartsWith(path, "/member") then "member"
    else "default"
  }

  /** The last-resort page, titled after the manifest name or `PWA`. */
  function InlineOfflinePage(c: Config): (r: Response)
    ensures r.status == 200 && r.contentType == "text/html"
    ensures var name := if c.manifestName == "" then "PWA" else c.manifestName;
      Contains(r.body, "<title>Offline - " + name + "</title>")
  {
    var name := if c.manifestName == "" then "PWA" else c.manifestName;
    var title := "<title>Offline - " + name + "</title>";
    ContainsWitness(InlinePageHead + title + InlinePageTail, title, |InlinePageHead|);
    Response(200, "text/html", InlinePageHead + title + InlinePageTail)
  }

  const InlinePageHead := "<!DOCTYPE html>\n        <html>\n        <head>\n            "

  const InlinePageTail :=
    "\n            <meta name=\"viewport\" content=\"width=device-width, initial-scale=1\">\n            <style>\n"
    + "                body { font-family: Arial, sans-serif; text-align: center; padding: 50px; }\n"
    + "                .offline { color: #666; }\n            </style>\n        </head>\n        <body>\n"
    + "            <div class=\"offline\">\n                <h1>You're Offline</h1>\n"
    + "                <p>This page is not available offline. Please check your internet connection.</p>\n"
    + "            </div>\n        </body>\n        </html>"

  /** `getOfflinePage`: the cached page for the path's kind, else the cached
      default page, else the inline page, so it always yields a response. */
  function OfflinePage(cs: CacheStorage, c: Config, self: string, path: string): (r: Response)
    reads cs
    ensures var k, d := Resolve(self, OfflinePath(OfflineKind(path))), Resolve(self, OfflinePath("default"));
      (cs.Match(k).Some? ==> r == cs.Match(k).value)
      && (cs.Match(k).None? && cs.Match(d).Some? ==> r == cs.Match(d).value)
      && (cs.Match(k).None? && cs.Match(d).None? ==> r.status == 200 && r.contentType == "text/html")
  {
    var kind := cs.Match(Resolve(self, OfflinePath(OfflineKind(path))));
    if kind.Some? then kind.value
    else cs.Match(Resolve(self, OfflinePath("default"))).GetOr(InlineOfflinePage(c))
  }

  function OfflinePath(kind: string): string {
    "/offline-" + kind + ".html"
  }

  /** What `handlePageRequest` settles to, from the entry `caches.match`
      finds before the fetch and the offline page: the fetched response, else
      the entry, else the offline page. A page request therefore never ends in
      a network error. */
  function PageReply(hit: Option<Response>, offline: Response, answer: FetchOutcome): (r: Reply)
    ensures r.Serve?
    ensures answer.Answered? ==> r.response == answer.response
    ensures !answer.Answered? && hit.Some? ==> r.response == hit.value
    ensures !answer.Answered? && hit.None? ==> r.response == offline
  {
    if answer.Answered? then Serve(answer.response) else Serve(hit.GetOr(offline))
  }

  /** `handlePageRequest`: network first with ok responses written; a failure
      returns the entry of any cache, else the offline page. */
  method HandlePageRequest(cs: CacheStorage, c: Config, self: string, req: Request, answer: FetchOutcome)
    returns (reply: Reply)
    requires cs.Valid()
    modifies cs
    ensures cs.Valid()
    ensures var e := WriteThrough(c, req, answer, OkAnswer(answer));
      cs.names == EffectNames(old(cs.names), e) && cs.stores == EffectStores(old(cs.stores), e)
    ensures reply == PageReply(old(cs.Match(req.url)), old(OfflinePage(cs, c, self, req.url.path)), answer)
  {
    if answer.Answered? {
      if IsOk(answer.response) {
        cs.Put(c.cacheName, req.url, answer.response);
      }
      return Serve(answer.response);
    }
    var hit := cs.Match(req.url);
    reply := if hit.Some? then Serve(hit.value) else Serve(OfflinePage(cs, c, self, req.url.path));
  }

  /** The fetch listener. */
  method HandleFetch(cs: CacheStorage, c: Config, self: string, req: Request, answer: FetchOutcome)
    returns (reply: Reply)
    requires cs.Valid()
    modifies cs
    ensures cs.Valid()
    ensures Route(c, self, req) == NotIntercepted ==> reply == Bypass && unchanged(cs)
    ensures Route(c, self, req) == DisallowedHandler ==> reply == Serve(RedirectPage(Href(req.url))) && unchanged(cs)
    ensures Route(c, self, req) == StaticHandler ==>
      var e := WriteThrough(c, req, answer, StrategyWrites(StaticStrategy(c), old(cs.Match(req.url)), answer));
      reply == StrategyReply(StaticStrategy(c), old(cs.Match(req.url)), answer)
      && cs.names == EffectNames(old(cs.names), e) && cs.stores == EffectStores(old(cs.stores), e)
    ensures Route(c, self, req) == ApiHandler ==>
      var e := WriteThrough(c, req, answer, OkAnswer(answer) && req.verb == "GET");
      reply == ApiReply(old(cs.Match(req.url)), answer)
      && cs.names == EffectNames(old(cs.names), e) && cs.stores == EffectStores(old(cs.stores), e)
    ensures Route(c, self, req) == PageHandler ==>
      var e := WriteThrough(c, req, answer, OkAnswer(answer));
      reply == PageReply(old(cs.Match(req.url)), old(OfflinePage(cs, c, self, req.url.path)), answer)
      && cs.names == EffectNames(old(cs.names), e) && cs.stores == EffectStores(old(cs.stores), e)
    ensures Route(c, self, req) != NotIntercepted ==> reply != Bypass
  {
    match Route(c, self, req)
    case NotIntercepted => reply := Bypass;
    case DisallowedHandler => reply := Serve(RedirectPage(Href(req.url)));
    case StaticHandler => reply := HandleStaticAsset(cs, c, req, answer);
    case ApiHandler => reply := HandleApiRequest(cs, c, req, answer);
    case PageHandler => reply := HandlePageRequest(cs, c, self, req, answer);
  }

  // -------------------------------------------------------------- lifecycle

  function OfflineUrl(v: OfflineValue): (r: string)
    ensures r != ""
  {
    match v
    case Named(page) => "/offline-" + page + ".html"
    case Entry(url) => if url != "" then url else "/offline-[object Object].html"
  }

  function OfflineUrls(vs: seq<OfflineValue>): (r: seq<string>)
    ensures |r| == |vs| && forall i :: 0 <= i < |vs| ==> r[i] == OfflineUrl(vs[i])
  {
    seq(|vs|, i requires 0 <= i < |vs| => OfflineUrl(vs[i]))
  }

  /** `filter(Boolean)` on strings: the empty ones go. */
  function DropEmpty(xs: seq<string>): (r: seq<string>)
    ensures |r| <= |xs|
    ensures forall x :: x in r <==> x in xs && x != ""
  {
    if xs == [] then []
    else (if xs[0] == "" then [] else [xs[0]]) + DropEmpty(xs[1..])
  }

  function Min(a: int, b: int): int {
    if a <= b then a else b
  }

  /** The install list: `/`, `/manifest.json`, one URL per offline page, then
      at most the first 20 static assets when `cache.static_assets` is set,
      with empty entries removed. */
  function EssentialAssets(c: Config): (r: seq<string>)
    ensures |r| >= 2 && r[0] == "/" && r[1] == "/manifest.json"
    ensures |r| <= 2 + |c.offlinePages| + (if c.cacheStaticAssets then Min(20, |c.staticAssets|) else 0)
    ensures forall i :: 0 <= i < |c.offlinePages| ==> OfflineUrl(c.offlinePages[i]) in r
    ensures forall x :: x in r && x != "/" && x != "/manifest.json" && x !in OfflineUrls(c.offlinePages) ==>
      c.cacheStaticAssets && x in c.staticAssets[..Min(20, |c.staticAssets|)]
    ensures c.cacheStaticAssets ==>
      forall i :: 0 <= i < Min(20, |c.staticAssets|) && c.staticAssets[i] != "" ==> c.staticAssets[i] in r
  {
    var all := InstallList(c);
    InstallListMembers(c);
    assert all[0] == "/" && all[1..][0] == "/manifest.json";
    assert DropEmpty(all) == ["/"] + DropEmpty(all[1..]);
    assert DropEmpty(all[1..]) == ["/manifest.json"] + DropEmpty(all[1..][1..]);
    DropEmpty(all)
  }

  /** The install list before `filter(Boolean)`. */
  function InstallList(c: Config): seq<string>
  {
    ["/", "/manifest.json"] + OfflineUrls(c.offlinePages)
      + (if c.cacheStaticAssets then c.staticAssets[..Min(20, |c.staticAssets|)] else [])
  }

  lemma InstallListMembers(c: Config)
    ensures forall i :: 0 <= i < |c.offlinePages| ==> OfflineUrl(c.offlinePages[i]) in InstallList(c)
    ensures c.cacheStaticAssets ==>
      forall i :: 0 <= i < Min(20, |c.staticAssets|) ==> c.staticAssets[i] in InstallList(c)
    ensures forall x :: x in InstallList(c) && x != "/" && x != "/manifest.json" && x !in OfflineUrls(c.offlinePages) ==>
      c.cacheStaticAssets && x in c.staticAssets[..Min(20, |c.staticAssets|)]
  {
    var all := InstallList(c);
    forall i | 0 <= i < |c.offlinePages| ensures OfflineUrl(c.offlinePages[i]) in all {
      assert all[2 + i] == OfflineUrl(c.offlinePages[i]);
    }
    if c.cacheStaticAssets {
      forall i | 0 <= i < Min(20, |c.staticAssets|) ensures c.staticAssets[i] in all {
        assert all[2 + |c.offlinePages| + i] == c.staticAssets[i];
      }
    }
  }

  /** The cache after the install writes: each fetched asset in list order,
      only ok responses kept. */
  function PutOk(s: Store, keys: seq<Url>, answers: seq<FetchOutcome>): Store
    requires |keys| == |answers|
    decreases |keys|
  {
    if keys == [] then s
    else
      var n := |keys| - 1;
      var prev := PutOk(s, keys[..n], answers[..n]);
      if OkAnswer(answers[n]) then prev[keys[n] := answers[n].response] else prev
  }

  /** Install stores exactly the keys with an ok answer, and every stored
      response was already there or is an ok answer for its key. */
  lemma {:induction false} PutOkKeepsOnlyOk(s: Store, keys: seq<Url>, answers: seq<FetchOutcome>)
    requires |keys| == |answers|
    ensures var r := PutOk(s, keys, answers);
      (forall k :: k in r <==> k in s || exists i :: 0 <= i < |keys| && keys[i] == k && OkAnswer(answers[i]))
      && forall k :: k in r ==>
           ((k in s && r[k] == s[k])
            || exists i :: 0 <= i < |keys| && keys[i] == k && OkAnswer(answers[i]) && r[k] == answers[i].response)
    decreases |keys|
  {
    if keys != [] {
      var n := |keys| - 1;
      PutOkKeepsOnlyOk(s, keys[..n], answers[..n]);
      forall i | 0 <= i < n ensures keys[..n][i] == keys[i] && answers[..n][i] == answers[i] { }
    }
  }

  /** The install listener: opens the cache, fetches every install asset
      independently and stores each ok response, ignoring failures, then
      skips waiting whatever happened. */
  method Install(cs: CacheStorage, c: Config, self: string, answers: seq<FetchOutcome>) returns (skipWaiting: bool)
    requires cs.Valid() && |answers| == |EssentialAssets(c)|
    modifies cs
    ensures cs.Valid() && skipWaiting
    ensures cs.names == OpenNames(old(cs.names), c.cacheName)
    ensures var s0 := OpenStores(old(cs.stores), c.cacheName);
      cs.stores == s0[c.cacheName := PutOk(s0[c.cacheName], ResolveAll(self, EssentialAssets(c)), answers)]
  {
    var keys := ResolveAll(self, EssentialAssets(c));
    cs.Open(c.cacheName);
    ghost var s0 := cs.stores;
    assert s0[c.cacheName := s0[c.cacheName]] == s0;
    assert keys[..0] == [] && answers[..0] == [];
    var i := 0;
    while i < |keys|
      invariant 0 <= i <= |keys|
      invariant cs.Valid() && cs.names == OpenNames(old(cs.names), c.cacheName)
      invariant cs.stores == s0[c.cacheName := PutOk(s0[c.cacheName], keys[..i], answers[..i])]
    {
      assert keys[..i + 1][..i] == keys[..i] && answers[..i + 1][..i] == answers[..i];
      assert keys[..i + 1][i] == keys[i] && answers[..i + 1][i] == answers[i];
      if OkAnswer(answers[i]) {
        cs.Put(c.cacheName, keys[i], answers[i].response);
      }
      i := i + 1;
    }
    assert keys[..|keys|] == keys && answers[..|answers|] == answers;
    skipWaiting := true;
  }

  /** The activate listener: every cache other than `CACHE_NAME` is deleted,
      whatever its name; the current one keeps its entries. */
  method Activate(cs: CacheStorage, c: Config)
    requires cs.Valid()
    modifies cs
    ensures cs.Valid()
    ensures forall n :: n in cs.stores <==> n in old(cs.stores) && n == c.cacheName
    ensures c.cacheName in cs.stores ==> cs.stores[c.cacheName] == old(cs.stores)[c.cacheName]
  {
    var name := c.cacheName;
    DeleteUnless(cs, n => n == name);
  }

  /** The message listener. `SKIP_WAITING` skips waiting, `GET_VERSION`
      answers with the cache name, `CACHE_URLS` with a `payload.urls` list
      adds them all or none (a failure is swallowed), `CLEAR_CACHE` deletes
      `CACHE_NAME` only; anything else does nothing. */
  method HandleMessage(cs: CacheStorage, c: Config, self: string, kind: string, urls: Option<seq<string>>,
                       answers: seq<FetchOutcome>)
    returns (skipWaiting: bool, version: Option<string>)
    requires cs.Valid()
    requires urls.Some? ==> |answers| == |urls.value|
    modifies cs
    ensures cs.Valid()
    ensures skipWaiting == (kind == "SKIP_WAITING")
    ensures version == if kind == "GET_VERSION" then Some(c.cacheName) else None
    ensures kind == "CLEAR_CACHE" ==>
      cs.names == Without(old(cs.names), {c.cacheName}) && cs.stores == old(cs.stores) - {c.cacheName}
    ensures kind == "CACHE_URLS" && urls.Some? ==>
      var s0 := OpenStores(old(cs.stores), c.cacheName);
      cs.names == OpenNames(old(cs.names), c.cacheName)
      && cs.stores == if AllOk(answers) then s0[c.cacheName := Batch(s0[c.cacheName], ResolveAll(self, urls.value), answers)] else s0
    ensures kind != "CLEAR_CACHE" && !(kind == "CACHE_URLS" && urls.Some?) ==> unchanged(cs)
  {
    skipWaiting, version := false, None;
    if kind == "SKIP_WAITING" {
      skipWaiting := true;
    } else if kind == "GET_VERSION" {
      version := Some(c.cacheName);
    } else if kind == "CACHE_URLS" {
      if urls.Some? {
        cs.Open(c.cacheName);
        var _ := cs.AddAll(c.cacheName, ResolveAll(self, urls.value), answers);
      }
    } else if kind == "CLEAR_CACHE" {
      var _ := cs.Delete(c.cacheName);
    }
  }
}
