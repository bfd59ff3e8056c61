/** The server-side manager of `src/AfPwaManager.php`: its configuration
    array, the route checks and the route auto-discovery, the offline-page
    map and asset lists it writes into the generated service worker, and the
    asset URL helper. */
module PwaManager {
  import opened Wrappers
  import opened Text
  import opened Web
  import TemplateWorker

  /** A value in AF-PWA's configuration array. Lists hold strings; the
      one nested array read here, `cache_strategies`, maps strings to strings. */
  datatype Value = Null | Flag(b: bool) | Num(n: int) | Str(s: string) | Strs(items: seq<string>) | Dict(entries: map<string, string>)

  /** PHP truthiness of a configuration value. */
  predicate Truthy(v: Value) {
    match v
    case Null => false
    case Flag(b) => b
    case Num(n) => n != 0
    case Str(s) => !Falsy(s)
    case Strs(items) => items != []
    case Dict(entries) => entries != map[]
  }

  /** The two strings PHP treats as false. */
  predicate Falsy(s: string) {
    s == "" || s == "0"
  }

  /** `$config[$key] ?? $default` read as a list. */
  function ListOr(config: map<string, Value>, key: string, default: seq<string>): seq<string> {
    if key !in config || config[key].Null? then default
    else if config[key].Strs? then config[key].items
    else []
  }

  /** `$config[$key] ?? $default` read as a string. */
  function StrOr(config: map<string, Value>, key: string, default: string): string {
    if key !in config || config[key].Null? then default
    else if config[key].Str? then config[key].s
    else default
  }

  /** `$config[$key] ?? $default` read as a string map. */
  function DictOr(config: map<string, Value>, key: string, default: map<string, string>): map<string, string> {
    if key !in config || config[key].Null? then default
    else if config[key].Dict? then config[key].entries
    else map[]
  }

  /** `($config[$key] ?? $default)` used as a condition. */
  predicate FlagOr(config: map<string, Value>, key: string, default: bool) {
    if key !in config || config[key].Null? then default else Truthy(config[key])
  }

  /** What `getConfig` returns: the whole array for a falsy key, one value
      otherwise. */
  datatype Lookup = Whole(all: map<string, Value>) | Single(value: Value)

  // ---------------------------------------------------------------------
  // PHP ordered arrays with string keys

  /** An ordered PHP array with string keys, as (key, value) pairs. */
  type Assoc = seq<(string, string)>

  function KeySeq(a: Assoc): (r: seq<string>)
    ensures |r| == |a| && forall i :: 0 <= i < |a| ==> r[i] == a[i].0
  {
    seq(|a|, i requires 0 <= i < |a| => a[i].0)
  }

  /** `$a[$key]`, `None` for a missing key. */
  function Get(a: Assoc, key: string): Option<string> {
    if a == [] then None else if a[0].0 == key then Some(a[0].1) else Get(a[1..], key)
  }

  /** `$a[$key] = $value`: an existing key keeps its position and takes the
      new value; a new key is appended. */
  function Assign(a: Assoc, key: string, value: string): Assoc {
    if a == [] then [(key, value)]
    else if a[0].0 == key then [(key, value)] + a[1..]
    else [a[0]] + Assign(a[1..], key, value)
  }

  /** The keys of an entry followed by more entries. */
  lemma KeySeqCons(x: (string, string), a: Assoc)
    ensures KeySeq([x] + a) == [x.0] + KeySeq(a)
  {
  }

  /** The keys after an assignment: an existing key keeps its position and a
      new key comes last. */
  lemma {:induction false} AssignShape(a: Assoc, key: string, value: string)
    ensures KeySeq(Assign(a, key, value)) == if key in KeySeq(a) then KeySeq(a) else KeySeq(a) + [key]
  {
    if a == [] {
      KeySeqCons((key, value), []);
    } else {
      var ks := KeySeq(a[1..]);
      KeySeqCons(a[0], a[1..]);
      assert [a[0]] + a[1..] == a;
      if a[0].0 == key {
        KeySeqCons((key, value), a[1..]);
      } else {
        var rest := Assign(a[1..], key, value);
        assert Assign(a, key, value) == [a[0]] + rest;
        AssignShape(a[1..], key, value);
        KeySeqCons(a[0], rest);
        assert key in KeySeq(a) <==> key in ks;
        if key !in ks {
          assert [a[0].0] + (ks + [key]) == ([a[0].0] + ks) + [key];
        }
      }
    }
  }

  /** An assignment adds no entry but the assigned one. */
  lemma {:induction false} AssignEntries(a: Assoc, key: string, value: string)
    ensures forall e :: e in Assign(a, key, value) ==> e in a || e == (key, value)
  {
    if a != [] && a[0].0 != key {
      AssignEntries(a[1..], key, value);
    }
  }

  /** Reading a key after assigning it gives the assigned value, and every
      other key keeps its value. */
  lemma {:induction false} AssignThenGet(a: Assoc, key: string, value: string, other: string)
    ensures Get(Assign(a, key, value), key) == Some(value)
    ensures other != key ==> Get(Assign(a, key, value), other) == Get(a, other)
  {
    if a != [] && a[0].0 != key {
      AssignThenGet(a[1..], key, value, other);
    }
  }

  /** `array_unique` on a list: the first occurrence of each value is kept,
      in order. */
  function Dedup(xs: seq<string>): (r: seq<string>)
    ensures Distinct(r)
    ensures forall x :: x in r <==> x in xs
    ensures |r| <= |xs|
  {
    if xs == [] then []
    else
      var d := Dedup(xs[..|xs| - 1]);
      assert xs == xs[..|xs| - 1] + [xs[|xs| - 1]];
      if xs[|xs| - 1] in d then d else d + [xs[|xs| - 1]]
  }

  lemma DedupSnoc(xs: seq<string>, x: string)
    ensures Dedup(xs + [x]) == if x in Dedup(xs) then Dedup(xs) else Dedup(xs) + [x]
  {
    assert (xs + [x])[..|xs|] == xs;
  }

  /** A list without repeats is its own `array_unique`. */
  lemma {:induction false} DedupDistinct(xs: seq<string>)
    requires Distinct(xs)
    ensures Dedup(xs) == xs
  {
    if xs != [] {
      var init := xs[..|xs| - 1];
      assert Distinct(init);
      DedupDistinct(init);
      assert xs[|xs| - 1] !in init;
      assert init + [xs[|xs| - 1]] == xs;
    }
  }

  /** The keys `array_unique` keeps with the values: the index of each
      first occurrence, in order. */
  function DedupKeys(xs: seq<string>): (r: seq<nat>)
    ensures |r| == |Dedup(xs)|
    ensures forall k :: 0 <= k < |r| ==> r[k] < |xs| && xs[r[k]] == Dedup(xs)[k]
    ensures forall k, j :: 0 <= k < |r| && 0 <= j < r[k] ==> xs[j] != xs[r[k]]
    ensures forall k, l :: 0 <= k < l < |r| ==> r[k] < r[l]
  {
    if xs == [] then []
    else
      var init := xs[..|xs| - 1];
      var d := DedupKeys(init);
      assert forall j :: 0 <= j < |init| ==> xs[j] == init[j];
      if xs[|xs| - 1] in Dedup(init) then d else d + [|xs| - 1]
  }

  /** `json_encode` writes the deduplicated routes as a JSON list exactly
      when the kept keys run 0, 1, 2, ..., that is when the first
      occurrences are the front of the list; otherwise it writes an object
      keyed by the kept indices. */
  lemma {:induction false} DedupKeysContiguous(xs: seq<string>)
    ensures (forall k :: 0 <= k < |DedupKeys(xs)| ==> DedupKeys(xs)[k] == k) <==> Dedup(xs) == xs[..|Dedup(xs)|]
  {
    var r, d := DedupKeys(xs), Dedup(xs);
    if Dedup(xs) == xs[..|d|] {
      KeysFromFront(xs, |r|);
    }
  }

  /** When the deduplicated list is the front of the list, the first `n`
      keys are `0 .. n - 1`. */
  lemma {:induction false} KeysFromFront(xs: seq<string>, n: nat)
    requires n <= |Dedup(xs)| && Dedup(xs) == xs[..|Dedup(xs)|]
    ensures forall k :: 0 <= k < n ==> DedupKeys(xs)[k] == k
  {
    if n > 0 {
      KeysFromFront(xs, n - 1);
      var r, k := DedupKeys(xs), n - 1;
      assert xs[r[k]] == xs[k];
      assert k > 0 ==> r[k - 1] == k - 1 && r[k - 1] < r[k];
    }
  }

  /** A repeated route leaves a gap: `['/a', '/a', '/b']` keeps the keys 0
      and 2, so it is encoded as `{"0":"/a","2":"/b"}`. */
  lemma RepeatLeavesGap()
    ensures Dedup(["/a", "/a", "/b"]) == ["/a", "/b"] && DedupKeys(["/a", "/a", "/b"]) == [0, 2]
  {
    var xs := ["/a", "/a", "/b"];
    assert xs[..1] == ["/a"] && xs[..2] == ["/a", "/a"];
    assert ["/a", "/a"][..1] == ["/a"] && ["/a"][..0] == [];
  }

  // ---------------------------------------------------------------------
  // Route checks

  /** One iteration of `isPwaRoute`: the route with its slashes trimmed is the
      path itself or a parent segment of it. */
  predicate RouteCovers(route: string, path: string) {
    var r := Trim(route, {'/'});
    path == r || StartsWith(path, r + "/")
  }

  /** The `isPwaRoute` loop, which returns at the first covering route. */
  function AnyRouteCovers(routes: seq<string>, path: string): (b: bool)
    ensures b <==> exists i :: 0 <= i < |routes| && RouteCovers(routes[i], path)
  {
    if routes == [] then false
    else if RouteCovers(routes[0], path) then true
    else
      var b := AnyRouteCovers(routes[1..], path);
      assert b <==> exists i :: 1 <= i < |routes| && RouteCovers(routes[i], path) by {
        if b {
          var i :| 0 <= i < |routes[1..]| && RouteCovers(routes[1..][i], path);
          assert RouteCovers(routes[i + 1], path);
        }
        if exists i :: 1 <= i < |routes| && RouteCovers(routes[i], path) {
          var i :| 1 <= i < |routes| && RouteCovers(routes[i], path);
          assert routes[1..][i - 1] == routes[i];
        }
      }
      b
  }

  /** A configured route covers itself and its sub-paths whatever slashes it
      is written with, and does not cover a longer sibling segment
      (`/admin` covers `admin/users` but not `administrator`). */
  lemma RouteCoversSegments(r: string, rest: string)
    requires r != [] && r[0] != '/' && r[|r| - 1] != '/'
    ensures RouteCovers("/" + r, r) && RouteCovers("/" + r + "/", r) && RouteCovers(r, r)
    ensures RouteCovers("/" + r, r + "/" + rest)
    ensures rest != [] && rest[0] != '/' ==> !RouteCovers("/" + r, r + rest)
  {
    assert ("/" + r)[1..] == r;
    assert ("/" + r + "/")[1..] == r + "/";
    assert (r + "/")[..|r|] == r;
    assert TrimLeft(r + "/", {'/'}) == r + "/";
    TrimLeftSuffix("/" + r, {'/'});
    TrimLeftSuffix("/" + r + "/", {'/'});
    assert Trim("/" + r, {'/'}) == r;
    assert Trim("/" + r + "/", {'/'}) == r;
    assert (r + "/" + rest)[..|r| + 1] == r + "/";
    if rest != [] && rest[0] != '/' {
      assert (r + rest)[|r|] == rest[0];
    }
  }

  /** `shouldSkipRoute`'s list: API, debugging and auth-package prefixes, and
      any route with a parameter. */
  const SkipPatterns: seq<string> :=
    ["api/", "_debugbar/", "telescope/", "horizon/", "livewire/", "fortify/", "sanctum/", "{"]

  /** `shouldSkipRoute`: `Str::contains` against each pattern, so a pattern
      anywhere in the URI counts, not only at its start. */
  function ShouldSkipRoute(uri: string): (b: bool)
    ensures StartsWith(uri, "api/") ==> b
    ensures b ==> |uri| >= 1
  {
    if StartsWith(uri, "api/") then
      ContainsPrefix(uri, "api/");
      assert Contains(uri, SkipPatterns[0]);
      true
    else
      exists p | p in SkipPatterns :: Contains(uri, p)
  }

  /** Every route with a parameter is skipped, and the patterns are matched as
      substrings: `therapi/notes` is skipped as an API route. */
  lemma SkippedRoutes(uri: string)
    ensures '{' in uri ==> ShouldSkipRoute(uri)
    ensures ShouldSkipRoute("therapi/notes")
  {
    if '{' in uri {
      var i :| 0 <= i < |uri| && uri[i] == '{';
      assert OccursAt(uri, "{", i);
      assert Contains(uri, SkipPatterns[7]);
    }
    assert OccursAt("therapi/notes", "api/", 4);
    assert Contains("therapi/notes", SkipPatterns[0]);
  }

  /** Laravel's `Str::startsWith`, which is false for an empty needle. */
  predicate StrStartsWith(s: string, p: string) {
    p != [] && StartsWith(s, p)
  }

  /** `matchesPattern`: a pattern ending in `*` is a prefix with all its
      trailing stars removed; any other pattern must equal the URI. */
  function MatchesPattern(uri: string, pattern: string): (b: bool)
    ensures pattern != [] && (forall i :: 0 <= i < |pattern| ==> pattern[i] == '*') ==> !b
    ensures b && uri == [] ==> pattern == []
  {
    var base := TrimRight(pattern, {'*'});
    if EndsWith(pattern, "*") then StrStartsWith(uri, base) else uri == pattern
  }

  /** A star pattern matches exactly the URIs that extend its base, and a
      pattern of stars alone matches nothing, because Laravel's `startsWith`
      refuses the empty prefix. */
  lemma {:induction false} StarPatternMatches(base: string, uri: string)
    requires base == [] || base[|base| - 1] != '*'
    ensures MatchesPattern(uri, base + "*") <==> base != [] && StartsWith(uri, base)
    ensures !MatchesPattern(uri, "*")
  {
    var p := base + "*";
    assert p[..|p| - 1] == base;
    assert TrimRight(p, {'*'}) == TrimRight(base, {'*'});
    assert TrimRight(base, {'*'}) == base;
    assert EndsWith(p, "*");
    assert TrimRight("*", {'*'}) == TrimRight("", {'*'});
    assert EndsWith("*", "*");
  }

  /** A pattern without a trailing star matches only itself. */
  lemma ExactPatternMatches(uri: string, pattern: string)
    requires !EndsWith(pattern, "*")
    ensures MatchesPattern(uri, pattern) <==> uri == pattern
  {
  }

  // ---------------------------------------------------------------------
  // Parameter conversion

  /** `preg_replace('/\{[^}]+\}/', '*', $s)`: scanning from the left, a `{`
      whose next `}` comes two or more characters later is replaced, up to
      and including that `}`, by a star; `{}` and an unclosed `{` stay. */
  function ReplaceParams(s: string): string
    decreases |s|
  {
    if s == [] then []
    else if s[0] == '{' then
      match IndexFrom(s, "}", 1)
      case Some(j) => if j >= 2 then "*" + ReplaceParams(s[j + 1..]) else [s[0]] + ReplaceParams(s[1..])
      case None => [s[0]] + ReplaceParams(s[1..])
    else [s[0]] + ReplaceParams(s[1..])
  }

  /** Text without `{` has no parameter to replace. */
  lemma {:induction false} ReplaceParamsNoBrace(s: string)
    requires '{' !in s
    ensures ReplaceParams(s) == s
    decreases |s|
  {
    if s != [] {
      assert s[0] in s;
      ReplaceParamsNoBrace(s[1..]);
      assert s == [s[0]] + s[1..];
    }
  }

  /** The first parameter, `{name}`, becomes one star and the text before it
      is kept. */
  lemma {:induction false} ReplaceParamsSegment(a: string, name: string, b: string)
    requires '{' !in a && name != [] && '}' !in name
    ensures ReplaceParams(a + "{" + name + "}" + b) == a + "*" + ReplaceParams(b)
    decreases |a|
  {
    var s := a + "{" + name + "}" + b;
    if a == [] {
      assert s == "{" + name + "}" + b;
      var j := |name| + 1;
      assert OccursAt(s, "}", j);
      forall k: nat | 1 <= k < j ensures !OccursAt(s, "}", k) {
        assert s[k] == name[k - 1];
      }
      assert IndexFrom(s, "}", 1) == Some(j);
      assert s[j + 1..] == b;
    } else {
      assert a[0] in a;
      assert s[0] == a[0] && s[1..] == a[1..] + "{" + name + "}" + b;
      ReplaceParamsSegment(a[1..], name, b);
      assert a == [a[0]] + a[1..];
    }
  }

  /** `convertToWildcardPattern`: parameters become stars, each pair of
      slash-star segments collapses into one (a single left-to-right pass), and a URI that had a `{`
      gets a trailing star if it lacks one. */
  function ConvertToWildcardPattern(uri: string): (r: string)
    ensures Contains(uri, "{") ==> EndsWith(r, "*")
  {
    var pattern := ReplaceAll(ReplaceParams(uri), "/*/*", "/*");
    if Contains(uri, "{") && !EndsWith(pattern, "*") then pattern + "*" else pattern
  }

  /** A one-character needle is contained exactly when it is an element. */
  lemma ContainsChar(s: string, c: char)
    ensures Contains(s, [c]) <==> c in s
  {
    if c in s {
      var i :| 0 <= i < |s| && s[i] == c;
      assert OccursAt(s, [c], i);
    }
    if Contains(s, [c]) {
      var i: nat :| i <= |s| && OccursAt(s, [c], i);
      assert s[i] == c;
    }
  }

  /** Without a `{` only the star-pair clean-up applies; without a pair of
      slash-star segments as well, the URI is returned unchanged. */
  lemma ConvertWithoutParams(uri: string)
    requires '{' !in uri
    ensures ConvertToWildcardPattern(uri) == ReplaceAll(uri, "/*/*", "/*")
    ensures !Contains(uri, "/*/*") ==> ConvertToWildcardPattern(uri) == uri
  {
    ReplaceParamsNoBrace(uri);
    ContainsChar(uri, '{');
    if !Contains(uri, "/*/*") {
      ReplaceAllAbsent(uri, "/*/*", "/*");
    }
  }

  /** A string whose only star, if any, is its last character holds no pair
      of slash-star segments. */
  lemma NoStarPair(s: string)
    requires forall k :: 0 <= k < |s| - 1 ==> s[k] != '*'
    ensures !Contains(s, "/*/*")
  {
    forall i: nat | i <= |s| ensures !OccursAt(s, "/*/*", i) {
      if i + 4 <= |s| {
        assert s[i..i + 4][1] == s[i + 1] != '*';
      }
    }
  }

  /** A parameter becomes a star. */
  lemma ConvertSingleParameter()
    ensures ConvertToWildcardPattern("/users/{id}") == "/users/*"
  {
    SingleParameter();
    NoStarPair("/users/*");
    ReplaceAllAbsent("/users/*", "/*/*", "/*");
    assert OccursAt("/users/{id}", "{", 7);
  }

  lemma SingleParameter()
    ensures ReplaceParams("/users/{id}") == "/users/*"
  {
    ReplaceParamsSegment("/users/", "id", "");
    assert "/users/" + "{" + "id" + "}" + "" == "/users/{id}";
    assert "/users/" + "*" + "" == "/users/*";
  }

  /** Two adjacent parameters collapse into one star. */
  lemma ConvertAdjacentParameters()
    ensures ConvertToWildcardPattern("/a/{x}/{y}") == "/a/*"
  {
    AdjacentParameters();
    CollapseStarPair();
    assert OccursAt("/a/{x}/{y}", "{", 3);
  }

  lemma AdjacentParameters()
    ensures ReplaceParams("/a/{x}/{y}") == "/a/*/*"
  {
    LastParameter();
    ReplaceParamsSegment("/a/", "x", "/{y}");
    assert "/a/" + "{" + "x" + "}" + "/{y}" == "/a/{x}/{y}";
    assert "/a/" + "*" + "/*" == "/a/*/*";
  }

  /** The second parameter of `/a/{x}/{y}` on its own. */
  lemma LastParameter()
    ensures ReplaceParams("/{y}") == "/*"
  {
    ReplaceParamsSegment("/", "y", "");
    assert "/" + "{" + "y" + "}" + "" == "/{y}";
    assert "/" + "*" + "" == "/*";
  }

  /** The clean-up pass on the converted `/a/{x}/{y}`. */
  lemma CollapseStarPair()
    ensures ReplaceAll("/a/*/*", "/*/*", "/*") == "/a/*"
  {
    var s := "/a/*/*";
    assert s[..4][1] == 'a' && s[1..] == "a/*/*";
    assert "a/*/*"[..4][0] == 'a' && "a/*/*"[1..] == "/*/*";
    NoStarPair("");
    ReplaceAllLeading("/*/*", "/*", "");
    assert "/*/*" + "" == "/*/*";
  }

  // ---------------------------------------------------------------------
  // Route discovery

  /** A registered Laravel route: its HTTP verbs and its URI as registered
      (without a leading slash, except the home route `/`). */
  datatype RouteInfo = RouteInfo(methods: seq<string>, uri: string)

  /** `'/' . ltrim($uri, '/')`. */
  function Normalize(uri: string): (r: string)
    ensures |r| > 0 && r[0] == '/'
  {
    "/" + TrimLeft(uri, {'/'})
  }

  /** A route the discovery loop looks at: a GET route that is not skipped. */
  predicate Eligible(route: RouteInfo) {
    "GET" in route.methods && !ShouldSkipRoute(route.uri)
  }

  predicate AnyPatternMatches(uri: string, patterns: seq<string>) {
    exists p | p in patterns :: MatchesPattern(uri, p)
  }

  /** What the inner loop proposes for one eligible route: its converted URI
      once per matching pattern. */
  function RouteCandidates(route: RouteInfo, patterns: seq<string>): seq<string> {
    if patterns == [] then []
    else
      var n := Normalize(route.uri);
      RouteCandidates(route, patterns[..|patterns| - 1])
      + (if MatchesPattern(n, patterns[|patterns| - 1]) then [ConvertToWildcardPattern(n)] else [])
  }

  /** Everything the discovery loops propose, in order, before duplicates are
      dropped. */
  function Candidates(routes: seq<RouteInfo>, patterns: seq<string>): seq<string> {
    if routes == [] then []
    else
      Candidates(routes[..|routes| - 1], patterns) + Own(routes[|routes| - 1], patterns)
  }

  /** The outer discovery loop's step: route `i` adds its contribution. */
  lemma CandidatesStep(routes: seq<RouteInfo>, i: nat, patterns: seq<string>)
    requires i < |routes|
    ensures Candidates(routes[..i + 1], patterns) == Candidates(routes[..i], patterns) + Own(routes[i], patterns)
  {
    assert routes[..i + 1][..i] == routes[..i];
  }

  /** The inner discovery loop's step: pattern `j` adds the converted URI if
      it matches. */
  lemma RouteCandidatesStep(route: RouteInfo, patterns: seq<string>, j: nat)
    requires j < |patterns|
    ensures RouteCandidates(route, patterns[..j + 1]) == RouteCandidates(route, patterns[..j])
      + (if MatchesPattern(Normalize(route.uri), patterns[j]) then [ConvertToWildcardPattern(Normalize(route.uri))] else [])
  {
    assert patterns[..j + 1][..j] == patterns[..j];
  }

  lemma AppendAssoc(a: seq<string>, b: seq<string>, c: seq<string>)
    ensures a + (b + c) == a + b + c
  {
  }

  /** What one route contributes: nothing unless it is eligible. */
  function Own(route: RouteInfo, patterns: seq<string>): seq<string> {
    if Eligible(route) then RouteCandidates(route, patterns) else []
  }

  /** A route contributes `x` exactly when it proposes it. */
  lemma OwnMembers(route: RouteInfo, patterns: seq<string>, x: string)
    ensures x in Own(route, patterns) <==> Proposes(route, patterns, x)
  {
    RouteCandidatesMembers(route, patterns, x);
  }

  /** The result of `discoverApplicationRoutes` when the route table can be
      read: the candidates without repeats, with `/` put first if missing. */
  function Discovered(routes: seq<RouteInfo>, patterns: seq<string>): seq<string> {
    var d := Dedup(Candidates(routes, patterns));
    if "/" in d then d else ["/"] + d
  }

  /** Route `route` makes the discovery loops propose `x`. */
  predicate Proposes(route: RouteInfo, patterns: seq<string>, x: string) {
    Eligible(route) && x == ConvertToWildcardPattern(Normalize(route.uri))
    && AnyPatternMatches(Normalize(route.uri), patterns)
  }

  lemma {:induction false} RouteCandidatesMembers(route: RouteInfo, patterns: seq<string>, x: string)
    ensures x in RouteCandidates(route, patterns) <==>
      x == ConvertToWildcardPattern(Normalize(route.uri)) && AnyPatternMatches(Normalize(route.uri), patterns)
  {
    if patterns != [] {
      var init := patterns[..|patterns| - 1];
      var last := patterns[|patterns| - 1];
      var n := Normalize(route.uri);
      RouteCandidatesMembers(route, init, x);
      assert patterns == init + [last];
      assert RouteCandidates(route, patterns)
        == RouteCandidates(route, init) + (if MatchesPattern(n, last) then [ConvertToWildcardPattern(n)] else []);
      assert AnyPatternMatches(n, patterns) <==> AnyPatternMatches(n, init) || MatchesPattern(n, last) by {
        assert forall p :: p in patterns <==> p in init || p == last;
      }
    }
  }

  /** Every proposed URI comes from some route's contribution. */
  lemma {:induction false} CandidateSource(routes: seq<RouteInfo>, patterns: seq<string>, x: string)
    returns (i: nat)
    requires x in Candidates(routes, patterns)
    ensures i < |routes| && x in Own(routes[i], patterns)
  {
    var init := routes[..|routes| - 1];
    if x in Candidates(init, patterns) {
      i := CandidateSource(init, patterns, x);
      assert routes[i] == init[i];
    } else {
      i := |routes| - 1;
    }
  }

  /** Every route's contribution is proposed. */
  lemma {:induction false} SourceIsCandidate(routes: seq<RouteInfo>, patterns: seq<string>, x: string, i: nat)
    requires i < |routes| && x in Own(routes[i], patterns)
    ensures x in Candidates(routes, patterns)
  {
    var init := routes[..|routes| - 1];
    if i < |init| {
      assert init[i] == routes[i];
      SourceIsCandidate(init, patterns, x, i);
    }
  }

  /** The discovered list has no repeats and always holds `/`; besides `/`
      it holds exactly the converted URIs of the eligible routes that match a
      discovery pattern, and `/` comes first unless a route produced it. */
  lemma DiscoveredShape(routes: seq<RouteInfo>, patterns: seq<string>, x: string)
    ensures Distinct(Discovered(routes, patterns)) && "/" in Discovered(routes, patterns)
    ensures Discovered(routes, patterns)[0] == "/" || "/" in Candidates(routes, patterns)
    ensures x in Discovered(routes, patterns) <==>
      x == "/" || exists i :: 0 <= i < |routes| && Proposes(routes[i], patterns, x)
  {
    if x in Candidates(routes, patterns) {
      var i := CandidateSource(routes, patterns, x);
      OwnMembers(routes[i], patterns, x);
    }
    if exists i :: 0 <= i < |routes| && Proposes(routes[i], patterns, x) {
      var i :| 0 <= i < |routes| && Proposes(routes[i], patterns, x);
      OwnMembers(routes[i], patterns, x);
      SourceIsCandidate(routes, patterns, x, i);
    }
    var d := Dedup(Candidates(routes, patterns));
    if "/" !in d {
      ConsDistinct(d, "/");
    }
  }

  /** Putting a new value in front of a list without repeats keeps it free
      of repeats. */
  lemma ConsDistinct(d: seq<string>, x: string)
    requires Distinct(d) && x !in d
    ensures Distinct([x] + d)
  {
    forall i, j | 0 <= i < j < |[x] + d| ensures ([x] + d)[i] != ([x] + d)[j] {
      if i > 0 {
        assert ([x] + d)[i] == d[i - 1];
      }
    }
  }

  /** Normalising keeps a URI free of `{`. */
  lemma NormalizeKeepsOut(uri: string, c: char)
    requires c !in uri && c != '/'
    ensures c !in Normalize(uri)
  {
    var t := TrimLeft(uri, {'/'});
    TrimLeftSuffix(uri, {'/'});
    forall k | 0 <= k < |t| ensures t[k] != c {
      assert t[k] == uri[|uri| - |t| + k];
    }
    assert Normalize(uri) == "/" + t;
  }

  /** Parameterised routes are skipped before conversion, so no discovered
      route holds a `{`: the parameter branch of the conversion never runs
      during discovery. */
  lemma DiscoveredHaveNoParams(routes: seq<RouteInfo>, patterns: seq<string>, x: string)
    requires x in Discovered(routes, patterns)
    ensures '{' !in x
  {
    DiscoveredShape(routes, patterns, x);
    if x != "/" {
      var i :| 0 <= i < |routes| && Proposes(routes[i], patterns, x);
      var uri := routes[i].uri;
      SkippedRoutes(uri);
      NormalizeKeepsOut(uri, '{');
      var n := Normalize(uri);
      ConvertWithoutParams(n);
      ReplaceAllKeepsOut(n, "/*/*", "/*", '{');
    }
  }

  /** `str_replace` brings in no character that neither the subject nor the
      replacement has. */
  lemma {:induction false} ReplaceAllKeepsOut(s: string, from: string, to: string, c: char)
    requires c !in s && c !in to
    ensures c !in ReplaceAll(s, from, to)
    decreases |s|
  {
    if from == [] || |s| < |from| {
    } else if StartsWith(s, from) {
      assert forall k :: |from| <= k < |s| ==> s[k] in s;
      ReplaceAllKeepsOut(s[|from|..], from, to, c);
    } else {
      ReplaceAllKeepsOut(s[1..], from, to, c);
    }
  }

  /** The inner loop of `discoverApplicationRoutes` for one eligible route:
      each matching pattern proposes the converted URI, which is appended
      unless the list (and its copy, `$existingPaths`) already holds it. */
  method ProposeRoute(route: RouteInfo, patterns: seq<string>, discovered: seq<string>, ghost proposed: seq<string>)
    returns (next: seq<string>)
    requires discovered == Dedup(proposed)
    ensures next == Dedup(proposed + RouteCandidates(route, patterns))
  {
    next := discovered;
    var existing := discovered;
    var normalized := "/" + TrimLeft(route.uri, {'/'});
    assert patterns[..0] == [] && proposed + [] == proposed;
    ghost var sofar := proposed;
    var j := 0;
    while j < |patterns|
      invariant 0 <= j <= |patterns|
      invariant existing == next
      invariant sofar == proposed + RouteCandidates(route, patterns[..j])
      invariant next == Dedup(sofar)
    {
      RouteCandidatesStep(route, patterns, j);
      ghost var add := if MatchesPattern(normalized, patterns[j]) then [ConvertToWildcardPattern(normalized)] else [];
      AppendAssoc(proposed, RouteCandidates(route, patterns[..j]), add);
      if MatchesPattern(normalized, patterns[j]) {
        var pattern := ConvertToWildcardPattern(normalized);
        DedupSnoc(sofar, pattern);
        if pattern !in existing {
          next := next + [pattern];
          existing := existing + [pattern];
        }
        sofar := sofar + [pattern];
      } else {
        assert sofar + [] == sofar;
      }
      j := j + 1;
    }
    assert patterns[..|patterns|] == patterns;
  }

  // ---------------------------------------------------------------------
  // The manager object

  /** The AF-PWA assets every worker caches after the configured ones. */
  const PackageAssets: seq<string> :=
    ["/vendor/artflow-studio/pwa/js/af-pwa.js", "/vendor/artflow-studio/pwa/css/af-pwa.css"]

  /** Routes with a star appended, one per configured route. */
  function Starred(routes: seq<string>): (r: seq<string>)
    ensures |r| == |routes| && forall i :: 0 <= i < |routes| ==> r[i] == routes[i] + "*"
  {
    seq(|routes|, i requires 0 <= i < |routes| => routes[i] + "*")
  }

  /** The array `getOfflinePages` builds: `$pages[$route . '*'] = $url` for
      each route in turn. */
  function OfflineEntries(routes: seq<string>, url: string): Assoc {
    if routes == [] then []
    else Assign(OfflineEntries(routes[..|routes| - 1], url), routes[|routes| - 1] + "*", url)
  }

  /** The offline-page map has one key per distinct starred route, in the
      order of first appearance, and every key maps to the offline page. */
  lemma OfflineEntriesShape(routes: seq<string>, url: string)
    ensures KeySeq(OfflineEntries(routes, url)) == Dedup(Starred(routes))
    ensures forall e :: e in OfflineEntries(routes, url) ==> e.1 == url
  {
    OfflineKeys(routes, url);
    OfflineValues(routes, url);
  }

  /** The key half of `OfflineEntriesShape`, by induction on the routes. */
  lemma {:induction false} OfflineKeys(routes: seq<string>, url: string)
    ensures KeySeq(OfflineEntries(routes, url)) == Dedup(Starred(routes))
  {
    if routes != [] {
      var init, key := routes[..|routes| - 1], routes[|routes| - 1] + "*";
      OfflineKeys(init, url);
      assert OfflineEntries(routes, url) == Assign(OfflineEntries(init, url), key, url);
      AssignShape(OfflineEntries(init, url), key, url);
      StarredSnoc(routes);
      DedupSnoc(Starred(init), key);
    }
  }

  /** Starring a list is starring all but its last route, then that one. */
  lemma StarredSnoc(routes: seq<string>)
    requires routes != []
    ensures Starred(routes) == Starred(routes[..|routes| - 1]) + [routes[|routes| - 1] + "*"]
  {
  }

  /** The value half of `OfflineEntriesShape`, by induction on the routes. */
  lemma {:induction false} OfflineValues(routes: seq<string>, url: string)
    ensures forall e :: e in OfflineEntries(routes, url) ==> e.1 == url
  {
    if routes != [] {
      var init := routes[..|routes| - 1];
      OfflineValues(init, url);
      AssignEntries(OfflineEntries(init, url), routes[|routes| - 1] + "*", url);
    }
  }

  /** `rtrim($base, '/') . '/' . ltrim($path, '/')`. */
  function JoinUrl(base: string, path: string): (r: string)
    ensures |r| == |TrimRight(base, {'/'})| + 1 + |TrimLeft(path, {'/'})|
  {
    TrimRight(base, {'/'}) + "/" + TrimLeft(path, {'/'})
  }

  /** The join holds exactly one slash whatever slashes the parts are written
      with: the base keeps its text up to the join, a slash follows, and the
      character after it is not a slash. */
  lemma JoinUrlSingleSlash(base: string, path: string)
    ensures var r := JoinUrl(base, path); var k := |TrimRight(base, {'/'})|;
      r[k] == '/' && (k == 0 || r[k - 1] != '/') && (k + 1 == |r| || r[k + 1] != '/')
      && r[..k] == base[..k]
    ensures JoinUrl(base + "/", "/" + path) == JoinUrl(base, path)
  {
    var l, m := TrimRight(base, {'/'}), TrimLeft(path, {'/'});
    var r := l + "/" + m;
    assert r[|l|] == '/';
    if |l| > 0 {
      assert r[|l| - 1] == l[|l| - 1];
    }
    if m != [] {
      assert r[|l| + 1] == m[0];
    }
    assert r[..|l|] == l;
    assert TrimRight(base + "/", {'/'}) == l by {
      assert (base + "/")[..|base|] == base;
    }
    assert TrimLeft("/" + path, {'/'}) == m by {
      assert ("/" + path)[1..] == path;
    }
  }

  /** The manager object: one configuration array, read by every operation
      and changed only by `setConfig`. */
  class Manager {
    var config: map<string, Value>

    constructor (config: map<string, Value>)
      ensures this.config == config
    {
      this.config := config;
    }

    /** `getConfig`. */
    function GetConfig(key: string): (r: Lookup)
      reads this
      ensures r.Whole? <==> Falsy(key)
      ensures r.Whole? ==> r.all == config
      ensures r.Single? ==> (key in config ==> r.value == config[key]) && (key !in config ==> r.value == Null)
    {
      if Falsy(key) then Whole(config)
      else if key in config then Single(config[key])
      else Single(Null)
    }

    /** `setConfig`: afterwards the key reads back as the value and every
      other key reads as before. */
    method SetConfig(key: string, value: Value)
      modifies this
      ensures config == old(config)[key := value]
      ensures !Falsy(key) ==> GetConfig(key) == Single(value)
      ensures forall k :: k != key && !Falsy(k) ==> GetConfig(k) == old(GetConfig(k))
    {
      config := config[key := value];
    }

    /** `isPwaRoute`: an empty or `"0"` path falls back to the request's path. */
    function IsPwaRoute(path: string, requestPath: string): (b: bool)
      reads this
      ensures ListOr(config, "pwa_routes", []) == [] ==> !b
    {
      AnyRouteCovers(ListOr(config, "pwa_routes", []), if Falsy(path) then requestPath else path)
    }

    /** `getStaticAssets`: the configured assets, then AF-PWA's own two. */
    function GetStaticAssets(): (r: seq<string>)
      reads this
      ensures |r| == |ListOr(config, "cache_assets", [])| + 2
      ensures r[..|r| - 2] == ListOr(config, "cache_assets", []) && r[|r| - 2..] == PackageAssets
    {
      ListOr(config, "cache_assets", []) + PackageAssets
    }

    /** `getAssetUrl`: the configured base (`/vendor/af-pwa` by default)
        without its trailing slashes, one slash, and the path without its
        leading ones. */
    function GetAssetUrl(path: string): (r: string)
      reads this
      ensures StartsWith(r, TrimRight(StrOr(config, "asset_url", "/vendor/af-pwa"), {'/'}) + "/")
      ensures EndsWith(r, TrimLeft(path, {'/'}))
    {
      JoinUrl(StrOr(config, "asset_url", "/vendor/af-pwa"), path)
    }

    /** `getOfflinePages`, with `route('af-pwa.offline')` as `offlineUrl`;
      routes default to `/` alone. */
    method GetOfflinePages(offlineUrl: string) returns (pages: Assoc)
      ensures pages == OfflineEntries(ListOr(config, "pwa_routes", ["/"]), offlineUrl)
    {
      var routes := ListOr(config, "pwa_routes", ["/"]);
      pages := [];
      var i := 0;
      while i < |routes|
        invariant 0 <= i <= |routes|
        invariant pages == OfflineEntries(routes[..i], offlineUrl)
      {
        assert routes[..i + 1][..i] == routes[..i];
        pages := Assign(pages, routes[i] + "*", offlineUrl);
        i := i + 1;
      }
      assert routes[..|routes|] == routes;
    }

    /** `discoverApplicationRoutes` over the application's route table;
      `tableFails` is the route table throwing, which yields `["/"]`. */
    method DiscoverApplicationRoutes(table: seq<RouteInfo>, tableFails: bool) returns (discovered: seq<string>)
      ensures discovered == if tableFails then ["/"] else Discovered(table, ListOr(config, "route_discovery_patterns", []))
    {
      var patterns := ListOr(config, "route_discovery_patterns", []);
      if tableFails {
        return ["/"];
      }
      discovered := [];
      ghost var proposed: seq<string> := [];
      var i := 0;
      while i < |table|
        invariant 0 <= i <= |table|
        invariant proposed == Candidates(table[..i], patterns)
        invariant discovered == Dedup(proposed)
      {
        var route := table[i];
        CandidatesStep(table, i, patterns);
        if "GET" in route.methods && !ShouldSkipRoute(route.uri) {
          discovered := ProposeRoute(route, patterns, discovered, proposed);
          assert Eligible(route);
          proposed := proposed + RouteCandidates(route, patterns);
        } else {
          assert Own(route, patterns) == [];
          assert proposed + [] == proposed;
        }
        i := i + 1;
      }
      assert table[..|table|] == table;
      if "/" !in discovered {
        discovered := ["/"] + discovered;
      }
    }

    /** `getDiscoveredRoutes`: the configured routes without repeats, or, when
      none are configured and auto-discovery is on (the default), the
      discovered ones. */
    method GetDiscoveredRoutes(table: seq<RouteInfo>, tableFails: bool) returns (routes: seq<string>)
      ensures Distinct(routes)
      ensures ListOr(config, "pwa_routes", []) != [] ==>
        forall x :: x in routes <==> x in ListOr(config, "pwa_routes", [])
      ensures ListOr(config, "pwa_routes", []) != [] ==> routes == Dedup(ListOr(config, "pwa_routes", []))
      ensures ListOr(config, "pwa_routes", []) == [] && !FlagOr(config, "auto_discover_routes", true) ==> routes == []
      ensures ListOr(config, "pwa_routes", []) == [] && FlagOr(config, "auto_discover_routes", true) ==>
        routes == if tableFails then ["/"] else Discovered(table, ListOr(config, "route_discovery_patterns", []))
    {
      routes := ListOr(config, "pwa_routes", []);
      if FlagOr(config, "auto_discover_routes", true) && routes == [] {
        routes := DiscoverApplicationRoutes(table, tableFails);
        if !tableFails {
          DiscoveredShape(table, ListOr(config, "route_discovery_patterns", []), "/");
        }
        DedupDistinct(routes);
      }
      routes := Dedup(routes);
    }

    /** The configuration object `generateServiceWorker` writes into the
      worker template; `appName` is `config('app.name')` and `offlineUrl` is
      `route('af-pwa.offline')`. Routes default to three sections here but
      to `/` alone for the offline pages. */
    function ServiceWorkerConfig(appName: string, offlineUrl: string, errors: TemplateWorker.ErrorHandling)
      : (c: TemplateWorker.Config)
      reads this
      ensures c.staticAssets == GetStaticAssets() && c.defaultOfflinePage == offlineUrl
      ensures "pwa_routes" !in config ==>
        c.pwaRoutes == ["/admin", "/member", "/login"] && KeySeq(c.offlinePages) == ["/*"]
    {
      var strategies := DictOr(config, "cache_strategies",
        map["assets" := "cache-first", "pages" := "network-first", "api" := "network-first"]);
      var pages := OfflineEntries(ListOr(config, "pwa_routes", ["/"]), offlineUrl);
      OfflineEntriesShape(ListOr(config, "pwa_routes", ["/"]), offlineUrl);
      assert Starred(["/"])[0] == "/" + "*" == "/*";
      assert Starred(["/"]) == ["/*"];
      assert ["/*"][..0] == [];
      TemplateWorker.Config(
        StrOr(config, "name", appName),
        StrOr(config, "cache_version", "v1"),
        ListOr(config, "pwa_routes", ["/admin", "/member", "/login"]),
        GetStaticAssets(),
        if "assets" in strategies then strategies["assets"] else "",
        if "api" in strategies then strategies["api"] else "",
        ListOr(config, "asset_patterns", ["/assets/", "/build/", "/vendor/"]),
        ListOr(config, "api_patterns", ["/api/", "/livewire/"]),
        pages,
        offlineUrl,
        errors)
    }

    /** Unless `pwa_routes` is set to an empty list, the generated worker gets
      a non-empty `offline_pages` object, which its install step spreads as if
      it were an array; so the page batch of `TemplateWorker.Install` fails
      and the worker never skips waiting. */
    lemma GeneratedOfflinePagesNonEmpty(appName: string, offlineUrl: string, errors: TemplateWorker.ErrorHandling)
      requires ListOr(config, "pwa_routes", ["/"]) != []
      ensures ServiceWorkerConfig(appName, offlineUrl, errors).offlinePages != []
    {
      var routes := ListOr(config, "pwa_routes", ["/"]);
      OfflineEntriesShape(routes, offlineUrl);
      assert routes[0] + "*" in Starred(routes);
      assert routes[0] + "*" in KeySeq(OfflineEntries(routes, offlineUrl));
    }
  }
}
