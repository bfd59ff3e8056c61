/** `PWAService` (src/Services/PWAService.php): the server-side route
    allowlist, the manifest's icon and shortcut lists, the static-asset list
    and the values it renders the Blade service worker with. The filesystem,
    the route table and Laravel's `asset()` helper are parameters: an asset
    URL is the application's base URL, a slash and the relative path. */
module PwaService {
  import opened Wrappers
  import opened Text
  import opened Glob
  import BladeWorker

  /** `asset($path)`. */
  function Asset(base: string, path: string): string {
    base + "/" + path
  }

  // ---------------------------------------------------------------- routes

  /** Some allowlist pattern matches the whole route in the sense of
      `Str::is`; an empty allowlist matches nothing. */
  predicate Allowed(allowed: seq<string>, route: string) {
    exists p | p in allowed :: StrIs(p, route)
  }

  /** `isRouteAllowed($route)`: the first matching pattern ends the scan;
      without a route argument the current request's path is checked. */
  method IsRouteAllowed(allowed: seq<string>, route: Option<string>, requestPath: string) returns (r: bool)
    ensures r == Allowed(allowed, route.GetOr(requestPath))
    ensures allowed == [] ==> !r
  {
    var path := route.GetOr(requestPath);
    for i := 0 to |allowed|
      invariant forall j :: 0 <= j < i ==> !StrIs(allowed[j], path)
    {
      if StrIs(allowed[i], path) {
        return true;
      }
    }
    return false;
  }

  /** An allowlist entry allows the route it names literally, wildcards and
      all. */
  lemma ListedRouteAllowed(allowed: seq<string>, route: string)
    requires route in allowed
    ensures Allowed(allowed, route)
  {
    assert StrIs(route, route);
  }

  // ---------------------------------------------------------------- icons

  const IconSizes: seq<nat> := [72, 96, 128, 144, 152, 192, 384, 512]

  /** One entry of the manifest's `icons`. */
  datatype Icon = Icon(src: string, sizes: string, mime: string, purpose: string)

  /** The PNG entry for one size: maskable from 192 pixels up. */
  function PngIcon(base: string, n: nat): (r: Icon)
    ensures r.sizes == SizeLabel(n) && r.mime == "image/png"
    ensures r.purpose == (if n >= 192 then "any maskable" else "any")
  {
    var dims := SizeLabel(n);
    Icon(Asset(base, "icons/icon-" + dims + ".png"), dims, "image/png", if n >= 192 then "any maskable" else "any")
  }

  function SvgIcon(base: string): Icon {
    Icon(Asset(base, "favicon.svg"), "any", "image/svg+xml", "any")
  }

  /** `generateIcons()`: one PNG entry per size, in size order, then the SVG
      entry when `public/favicon.svg` exists. */
  method GenerateIcons(base: string, svgExists: bool) returns (icons: seq<Icon>)
    ensures |icons| == |IconSizes| + (if svgExists then 1 else 0)
    ensures forall i :: 0 <= i < |IconSizes| ==> icons[i] == PngIcon(base, IconSizes[i])
    ensures svgExists ==> icons[|IconSizes|] == SvgIcon(base)
  {
    icons := [];
    for i := 0 to |IconSizes|
      invariant |icons| == i
      invariant forall j :: 0 <= j < i ==> icons[j] == PngIcon(base, IconSizes[j])
    {
      icons := icons + [PngIcon(base, IconSizes[i])];
    }
    if svgExists {
      icons := icons + [SvgIcon(base)];
    }
  }

  /** Exactly the last three PNG entries (192, 384 and 512 pixels) are
      maskable. */
  lemma MaskableFromIndexFive(base: string, i: nat)
    requires i < |IconSizes|
    ensures PngIcon(base, IconSizes[i]).purpose == "any maskable" <==> 5 <= i
  {
  }

  /** The size label of a 192-pixel icon. */
  lemma SizeLabel192()
    ensures SizeLabel(192) == "192x192"
  {
    assert Decimal(1) == "1" && Decimal(19) == "19" && Decimal(192) == "192";
  }

  // ---------------------------------------------------------------- shortcuts

  /** One entry of the manifest's `shortcuts`; `icon` is the single icon URL
      a default shortcut carries, `""` for configured ones that have none. */
  datatype Shortcut = Shortcut(name: string, shortName: string, description: string, url: string, icon: string)

  function AdminShortcut(base: string, url: string): Shortcut {
    Shortcut("Admin Dashboard", "Admin", "Access admin dashboard", url, Asset(base, "icons/admin-96x96.png"))
  }

  function MemberShortcut(base: string, url: string): Shortcut {
    Shortcut("Member Area", "Member", "Access member area", url, Asset(base, "icons/member-96x96.png"))
  }

  /** `generateShortcuts()`: the admin shortcut when the route
      `admin.dashboard` exists, the member shortcut when `member.dashboard`
      does, and then the configured ones in their order. `adminUrl` and
      `memberUrl` are what `route()` returns for those names. */
  method GenerateShortcuts(base: string, configured: seq<Shortcut>,
                           adminUrl: Option<string>, memberUrl: Option<string>) returns (r: seq<Shortcut>)
    ensures |r| == |configured| + (if adminUrl.Some? then 1 else 0) + (if memberUrl.Some? then 1 else 0)
    ensures r[|r| - |configured|..] == configured
    ensures adminUrl.Some? ==> r[0] == AdminShortcut(base, adminUrl.value)
    ensures memberUrl.Some? ==> r[if adminUrl.Some? then 1 else 0] == MemberShortcut(base, memberUrl.value)
  {
    var defaults := [];
    if adminUrl.Some? {
      defaults := defaults + [AdminShortcut(base, adminUrl.value)];
    }
    if memberUrl.Some? {
      defaults := defaults + [MemberShortcut(base, memberUrl.value)];
    }
    r := defaults + configured;
  }

  // ---------------------------------------------------------------- assets

  /** A file path made relative to `public/`, without its leading slashes
      and backslashes, as an asset URL. */
  function AssetOf(base: string, relative: string): string {
    Asset(base, TrimLeft(relative, {'/', '\\'}))
  }

  /** The asset URLs of every file in the listed directories, in listing
      order; a directory that does not exist (`None`) contributes nothing. */
  function AllAssets(base: string, dirs: seq<Option<seq<string>>>): (r: seq<string>)
    decreases |dirs|
  {
    if dirs == [] then []
    else
      var last := dirs[|dirs| - 1];
      AllAssets(base, dirs[..|dirs| - 1]) + (if last.Some? then Listed(base, last.value) else [])
  }

  /** The asset URLs of the files of one directory, in listing order. */
  function Listed(base: string, files: seq<string>): seq<string> {
    if files == [] then []
    else Listed(base, files[..|files| - 1]) + [AssetOf(base, files[|files| - 1])]
  }

  /** Each file of a directory gives exactly one asset URL, in its place. */
  lemma {:induction false} ListedFiles(base: string, files: seq<string>)
    ensures |Listed(base, files)| == |files|
    ensures forall i :: 0 <= i < |files| ==> Listed(base, files)[i] == AssetOf(base, files[i])
    decreases |files|
  {
    if files != [] {
      var init, last := files[..|files| - 1], files[|files| - 1];
      ListedFiles(base, init);
      var r := Listed(base, files);
      assert r == Listed(base, init) + [AssetOf(base, last)];
      forall i | 0 <= i < |files| ensures r[i] == AssetOf(base, files[i]) {
        if i < |init| {
          assert files[i] == init[i];
        }
      }
    }
  }

  lemma ListedStep(base: string, files: seq<string>, k: nat)
    requires k < |files|
    ensures Listed(base, files[..k + 1]) == Listed(base, files[..k]) + [AssetOf(base, files[k])]
  {
    assert files[..k + 1][..k] == files[..k];
  }

  lemma AllAssetsStep(base: string, dirs: seq<Option<seq<string>>>, d: nat)
    requires d < |dirs|
    ensures AllAssets(base, dirs[..d + 1])
         == AllAssets(base, dirs[..d]) + (if dirs[d].Some? then Listed(base, dirs[d].value) else [])
  {
    assert dirs[..d + 1][..d] == dirs[..d];
  }

  /** The directories `getStaticAssets` scans, in order: `build/assets` is
      listed under both the `css` and the `js` key, so its files come twice. */
  function ScannedDirs(build: Option<seq<string>>, images: Option<seq<string>>, icons: Option<seq<string>>): seq<Option<seq<string>>> {
    [build, build, images, icons]
  }

  /** `getStaticAssets()`: the first 50 asset URLs of the scanned
      directories. */
  method GetStaticAssets(base: string, build: Option<seq<string>>, images: Option<seq<string>>, icons: Option<seq<string>>)
    returns (assets: seq<string>)
    ensures |assets| <= 50
    ensures var all := AllAssets(base, ScannedDirs(build, images, icons));
            assets == all[..if |all| < 50 then |all| else 50]
  {
    var dirs := ScannedDirs(build, images, icons);
    var all := [];
    for d := 0 to |dirs|
      invariant all == AllAssets(base, dirs[..d])
    {
      AllAssetsStep(base, dirs, d);
      if dirs[d].Some? {
        var files := dirs[d].value;
        var before := all;
        for k := 0 to |files|
          invariant all == before + Listed(base, files[..k])
        {
          ListedStep(base, files, k);
          all := all + [AssetOf(base, files[k])];
        }
        assert files[..|files|] == files;
      }
    }
    assert dirs[..|dirs|] == dirs;
    assets := all[..if |all| < 50 then |all| else 50];
  }

  lemma BuildTwiceShape(base: string, files: seq<string>)
    ensures AllAssets(base, ScannedDirs(Some(files), None, None)) == Listed(base, files) + Listed(base, files)
  {
    var dirs := ScannedDirs(Some(files), None, None);
    var once := Listed(base, files);
    assert dirs[..0] == [];
    AllAssetsStep(base, dirs, 0);
    assert AllAssets(base, dirs[..1]) == once;
    AllAssetsStep(base, dirs, 1);
    AllAssetsStep(base, dirs, 2);
    AllAssetsStep(base, dirs, 3);
    assert dirs[..4] == dirs;
  }

  /** With no image or icon directory, every build file is listed twice:
      first all of them, then all of them again. */
  lemma BuildFilesListedTwice(base: string, files: seq<string>)
    ensures var all := AllAssets(base, ScannedDirs(Some(files), None, None));
            |all| == 2 * |files|
            && forall i :: 0 <= i < |files| ==> all[i] == all[|files| + i] == AssetOf(base, files[i])
  {
    var once := Listed(base, files);
    BuildTwiceShape(base, files);
    ListedFiles(base, files);
    var all := once + once;
    forall i | 0 <= i < |files| ensures all[i] == all[|files| + i] == AssetOf(base, files[i]) {
      assert all[i] == once[i] && all[|files| + i] == once[i];
    }
  }

  // ---------------------------------------------------------------- worker

  /** `generateServiceWorker()`: the values the Blade service worker is
      rendered with. The cache name defaults to the application name, `_v`
      and `app.version` (itself defaulting to `1.0`); the strategy to
      `cache_first`; the allowlist and the offline pages to empty. */
  function ServiceWorkerConfig(cacheName: Option<string>, appName: string, appVersion: Option<string>,
                               strategy: Option<string>, allowed: Option<seq<string>>,
                               offlinePages: Option<seq<BladeWorker.OfflineValue>>, staticAssets: seq<string>,
                               cacheStaticAssets: bool, staticStrategy: string, manifestName: string): (r: BladeWorker.Config)
    ensures cacheName.Some? ==> r.cacheName == cacheName.value
    ensures cacheName.None? && appVersion.None? ==> r.cacheName == appName + "_v1.0"
    ensures r.cacheStrategy == (if strategy.Some? then strategy.value else "cache_first")
    ensures allowed.None? ==> r.allowedRoutes == []
    ensures allowed.Some? ==> r.allowedRoutes == allowed.value
    ensures offlinePages.None? ==> r.offlinePages == []
    ensures r.staticAssets == staticAssets
  {
    BladeWorker.Config(
      cacheName.GetOr(appName + "_v" + appVersion.GetOr("1.0")),
      strategy.GetOr("cache_first"),
      allowed.GetOr([]),
      offlinePages.GetOr([]),
      staticAssets,
      cacheStaticAssets,
      staticStrategy,
      manifestName)
  }

  /** With `routes.allowed` unset, the rendered service worker lets every
      path through its allowlist, while `isRouteAllowed` on the server
      refuses every route. */
  lemma EmptyAllowlistDisagreement(c: BladeWorker.Config, path: string)
    requires c.allowedRoutes == []
    ensures BladeWorker.IsRouteAllowed(c, path)
    ensures !Allowed(c.allowedRoutes, path)
  {
  }
}
