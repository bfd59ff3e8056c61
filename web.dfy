/** The browser interfaces both service workers program against: requests and
    responses (WHATWG Fetch), `FormData` (XMLHttpRequest Standard), the
    `postMessage` notices a worker sends to its pages, and the named caches of
    `CacheStorage` (W3C Service Workers, section 5). A call to `fetch` is an
    oracle: the caller receives its outcome as a parameter. */
module Web {
  import opened Wrappers
  import opened Text

  /** An absolute URL split into the parts the modelled code looks at. */
  datatype Url = Url(origin: string, path: string, query: string)

  /** A header list; names are kept lower-cased because `Headers.get` is
      case-insensitive. */
  type Headers = map<string, string>

  /** A form body: the ordered name/value entries of a `FormData`. */
  type Form = seq<(string, string)>

  /** A request; `form` is the body as `request.formData()` would parse it,
      `None` when that call rejects. */
  datatype Request = Request(url: Url, verb: string, headers: Headers, form: Option<Form>)

  datatype Response = Response(status: int, contentType: string, body: string)

  /** `response.ok`. */
  predicate IsOk(r: Response) {
    200 <= r.status <= 299
  }

  /** What one `fetch` call does: it resolves with a response, its timeout
      fires, its signal is aborted by someone else, or it rejects with a
      network `TypeError`. */
  datatype FetchOutcome = Answered(response: Response) | TimedOut | Aborted | Failed

  /** The `name` of the exception a rejected fetch carries. A signal from
      `AbortSignal.timeout` rejects with `TimeoutError`; a manual
      `AbortController` whose timer calls `abort()` rejects with `AbortError`. */
  function ErrorName(o: FetchOutcome, timeoutSignal: bool): (r: string)
    requires !o.Answered?
    ensures r == "AbortError" <==> o.Aborted? || (o.TimedOut? && !timeoutSignal)
  {
    match o
    case TimedOut => if timeoutSignal then "TimeoutError" else "AbortError"
    case Aborted => "AbortError"
    case Failed => "TypeError"
  }

  /** What a `fetch` event listener does with a request: it leaves the request
      to the browser (`Bypass`), or passes `respondWith` a promise that resolves
      to a response (`Serve`) or that rejects or resolves to `undefined`, which
      the page sees as a network error (`NetworkError`). */
  datatype Reply = Bypass | Serve(response: Response) | NetworkError

  /** A same-origin path written in configuration, resolved against the
      worker's origin. */
  function Resolve(self: string, path: string): Url {
    Url(self, path, "")
  }

  function ResolveAll(self: string, paths: seq<string>): (r: seq<Url>)
    ensures |r| == |paths|
    ensures forall i :: 0 <= i < |paths| ==> r[i].path == paths[i] && r[i].origin == self
  {
    seq(|paths|, i requires 0 <= i < |paths| => Resolve(self, paths[i]))
  }

  /** A fetch that resolved with an ok response. */
  predicate OkAnswer(a: FetchOutcome) {
    a.Answered? && IsOk(a.response)
  }

  /** A message a worker posts to its window clients (`{type, ...}`); fields a
      notice does not carry are empty. */
  datatype Notice = Notice(kind: string, token: string, message: string, redirectToLogin: bool, loginRoute: string)

  // ---------------------------------------------------------------- FormData

  /** `formData.get(name)`: the value of the first entry with that name. */
  function FormGet(f: Form, name: string): Option<string> {
    if f == [] then None
    else if f[0].0 == name then Some(f[0].1)
    else FormGet(f[1..], name)
  }

  /** `formData.set(name, value)`: the first entry with that name gets the new
      value and later ones are removed; without one, the entry is appended. */
  function FormSet(f: Form, name: string, value: string): Form {
    FormSetFrom(f, name, value, false)
  }

  /** `FormSet` over the entries after the point where `replaced` says whether
      an entry with the name was already replaced. */
  function FormSetFrom(f: Form, name: string, value: string, replaced: bool): Form {
    if f == [] then (if replaced then [] else [(name, value)])
    else if f[0].0 == name then
      (if replaced then [] else [(name, value)]) + FormSetFrom(f[1..], name, value, true)
    else [f[0]] + FormSetFrom(f[1..], name, value, replaced)
  }

  /** After `set`, `get` of the same name yields the new value. */
  lemma {:induction false} FormSetThenGet(f: Form, name: string, value: string)
    ensures FormGet(FormSet(f, name, value), name) == Some(value)
  {
    FormSetFromGet(f, name, value);
  }

  lemma {:induction false} FormSetFromGet(f: Form, name: string, value: string)
    ensures FormGet(FormSetFrom(f, name, value, false), name) == Some(value)
    decreases |f|
  {
    if f != [] && f[0].0 != name {
      FormSetFromGet(f[1..], name, value);
    }
  }

  /** `set` leaves every other name's value alone. */
  lemma {:induction false} FormSetKeepsOthers(f: Form, name: string, value: string, other: string, replaced: bool)
    requires other != name
    ensures FormGet(FormSetFrom(f, name, value, replaced), other) == FormGet(f, other)
    decreases |f|
  {
    if f != [] {
      var rest := FormSetFrom(f[1..], name, value, replaced || f[0].0 == name);
      FormSetKeepsOthers(f[1..], name, value, other, replaced || f[0].0 == name);
      if f[0].0 == name {
        var head: Form := if replaced then [] else [(name, value)];
        assert FormSetFrom(f, name, value, replaced) == head + rest;
        if head != [] {
          assert (head + rest)[0].0 != other;
          assert (head + rest)[1..] == rest;
        } else {
          assert head + rest == rest;
        }
      } else {
        assert FormSetFrom(f, name, value, replaced) == [f[0]] + rest;
        assert ([f[0]] + rest)[0] == f[0];
        assert ([f[0]] + rest)[1..] == rest;
      }
    }
  }

  /** After `set` there is exactly one entry with the name. */
  lemma {:induction false} FormSetSingle(f: Form, name: string, value: string, replaced: bool)
    ensures |FormEntries(FormSetFrom(f, name, value, replaced), name)| == if replaced then 0 else 1
    decreases |f|
  {
    if f != [] {
      FormSetSingle(f[1..], name, value, replaced || f[0].0 == name);
      if f[0].0 == name {
        FormEntriesAppend(if replaced then [] else [(name, value)], FormSetFrom(f[1..], name, value, true), name);
      } else {
        FormEntriesAppend([f[0]], FormSetFrom(f[1..], name, value, replaced), name);
      }
    }
  }

  /** The values of the entries named `name`, in order (`formData.getAll`). */
  function FormEntries(f: Form, name: string): seq<string> {
    if f == [] then []
    else (if f[0].0 == name then [f[0].1] else []) + FormEntries(f[1..], name)
  }

  lemma {:induction false} FormEntriesAppend(f: Form, g: Form, name: string)
    ensures FormEntries(f + g, name) == FormEntries(f, name) + FormEntries(g, name)
    decreases |f|
  {
    if f != [] {
      assert (f + g)[0] == f[0];
      assert (f + g)[1..] == f[1..] + g;
      FormEntriesAppend(f[1..], g, name);
      var h: seq<string> := if f[0].0 == name then [f[0].1] else [];
      assert FormEntries(f + g, name) == h + (FormEntries(f[1..], name) + FormEntries(g, name));
      assert h + (FormEntries(f[1..], name) + FormEntries(g, name)) == (h + FormEntries(f[1..], name)) + FormEntries(g, name);
    } else {
      assert f + g == g;
    }
  }

  // ------------------------------------------------------------ CacheStorage

  /** One cache: request URL to stored response. */
  type Store = map<Url, Response>

  predicate Distinct(xs: seq<string>) {
    forall i, j :: 0 <= i < j < |xs| ==> xs[i] != xs[j]
  }

  /** `xs` with the members of `d` removed, order kept. */
  function Without(xs: seq<string>, d: set<string>): (r: seq<string>)
    ensures forall x :: x in r <==> x in xs && x !in d
  {
    if xs == [] then []
    else (if xs[0] in d then [] else [xs[0]]) + Without(xs[1..], d)
  }

  lemma {:induction false} WithoutDistinct(xs: seq<string>, d: set<string>)
    requires Distinct(xs)
    ensures Distinct(Without(xs, d))
    decreases |xs|
  {
    if xs != [] {
      WithoutDistinct(xs[1..], d);
      assert xs[0] !in xs[1..] by {
        forall k | 0 <= k < |xs[1..]| ensures xs[1..][k] != xs[0] {
          assert xs[1..][k] == xs[k + 1];
        }
      }
    }
  }

  lemma {:induction false} WithoutNothing(xs: seq<string>)
    ensures Without(xs, {}) == xs
    decreases |xs|
  {
    if xs != [] {
      WithoutNothing(xs[1..]);
      assert xs == [xs[0]] + xs[1..];
    }
  }

  lemma {:induction false} WithoutAll(xs: seq<string>, d: set<string>)
    requires forall x :: x in xs ==> x in d
    ensures Without(xs, d) == []
    decreases |xs|
  {
    if xs != [] {
      assert xs[0] in xs;
      forall x | x in xs[1..] ensures x in d {
        assert x in xs;
      }
      WithoutAll(xs[1..], d);
    }
  }

  lemma {:induction false} WithoutTwice(xs: seq<string>, d: set<string>, e: set<string>)
    ensures Without(Without(xs, d), e) == Without(xs, d + e)
    decreases |xs|
  {
    if xs != [] {
      WithoutTwice(xs[1..], d, e);
      var head := if xs[0] in d then [] else [xs[0]];
      WithoutAppend(head, Without(xs[1..], d), e);
      assert Without(head, e) == if xs[0] in d + e then [] else [xs[0]] by {
        if xs[0] !in d { assert [xs[0]][1..] == []; }
      }
    }
  }

  lemma {:induction false} WithoutAppend(xs: seq<string>, ys: seq<string>, d: set<string>)
    ensures Without(xs + ys, d) == Without(xs, d) + Without(ys, d)
    decreases |xs|
  {
    if xs != [] {
      var zs := xs + ys;
      assert zs != [] && zs[0] == xs[0] && zs[1..] == xs[1..] + ys;
      var h := if xs[0] in d then [] else [xs[0]];
      WithoutAppend(xs[1..], ys, d);
      calc {
        Without(zs, d);
        h + Without(xs[1..] + ys, d);
        h + (Without(xs[1..], d) + Without(ys, d));
        (h + Without(xs[1..], d)) + Without(ys, d);
      }
    } else {
      assert xs + ys == ys;
    }
  }

  /** `caches.open(name)` creates a missing cache at the end of the order. */
  function OpenNames(names: seq<string>, name: string): seq<string> {
    if name in names then names else names + [name]
  }

  function OpenStores(stores: map<string, Store>, name: string): map<string, Store> {
    if name in stores then stores else stores[name := map[]]
  }

  /** `caches.open(name)` followed by `cache.put(key, resp)`. */
  function PutStores(stores: map<string, Store>, name: string, key: Url, resp: Response): (r: map<string, Store>)
    ensures r.Keys == stores.Keys + {name}
    ensures name in r && key in r[name] && r[name][key] == resp
  {
    var s := OpenStores(stores, name);
    s[name := s[name][key := resp]]
  }

  /** What one fetch handler does to the caches: nothing, `caches.open(name)`,
      or an open followed by `cache.put(key, resp)`. */
  datatype CacheEffect = Untouched | Opened(name: string) | Stored(name: string, key: Url, resp: Response)

  /** The creation order of the caches after an effect. */
  function EffectNames(names: seq<string>, e: CacheEffect): seq<string> {
    match e
    case Untouched => names
    case Opened(n) => OpenNames(names, n)
    case Stored(n, _, _) => OpenNames(names, n)
  }

  /** The cache contents after an effect. */
  function EffectStores(stores: map<string, Store>, e: CacheEffect): map<string, Store> {
    match e
    case Untouched => stores
    case Opened(n) => OpenStores(stores, n)
    case Stored(n, k, r) => PutStores(stores, n, k, r)
  }

  /** `caches.match(key)`: the entry of the first cache, in creation order,
      that holds the key. */
  function FirstMatch(names: seq<string>, stores: map<string, Store>, key: Url): (r: Option<Response>)
    ensures r.None? <==> forall i :: 0 <= i < |names| ==> names[i] !in stores || key !in stores[names[i]]
    ensures r.Some? ==> exists i :: (0 <= i < |names| && names[i] in stores && key in stores[names[i]]
      && stores[names[i]][key] == r.value && forall k :: 0 <= k < i ==> names[k] !in stores || key !in stores[names[k]])
  {
    if names == [] then None
    else if names[0] in stores && key in stores[names[0]] then Some(stores[names[0]][key])
    else FirstMatch(names[1..], stores, key)
  }

  /** `cache.match(key)` on the cache called `name`. */
  function LookupIn(stores: map<string, Store>, name: string, key: Url): Option<Response> {
    if name in stores && key in stores[name] then Some(stores[name][key]) else None
  }

  /** Opening (creating) a cache does not change what `caches.match` finds:
      the new cache is empty. */
  lemma {:induction false} OpenKeepsMatch(names: seq<string>, stores: map<string, Store>, name: string, key: Url)
    requires forall n :: n in stores <==> n in names
    ensures FirstMatch(OpenNames(names, name), OpenStores(stores, name), key) == FirstMatch(names, stores, key)
  {
    if name !in names {
      AppendEmptyKeepsMatch(names, stores, name, key);
    }
  }

  lemma {:induction false} AppendEmptyKeepsMatch(names: seq<string>, stores: map<string, Store>, name: string, key: Url)
    requires name !in names
    ensures FirstMatch(names + [name], stores[name := map[]], key) == FirstMatch(names, stores, key)
    decreases |names|
  {
    if names == [] {
      assert names + [name] == [name];
    } else {
      assert (names + [name])[0] == names[0];
      assert (names + [name])[1..] == names[1..] + [name];
      AppendEmptyKeepsMatch(names[1..], stores, name, key);
    }
  }

  /** Every fetch resolved with an ok response. */
  predicate AllOk(answers: seq<FetchOutcome>) {
    forall i :: 0 <= i < |answers| ==> answers[i].Answered? && IsOk(answers[i].response)
  }

  /** The named caches of one origin. `names` keeps creation order, which is
      the order `caches.keys()` lists and `caches.match` searches. */
  class CacheStorage {
    var names: seq<string>
    var stores: map<string, Store>

    ghost predicate Valid()
      reads this
    {
      Distinct(names) && forall n :: n in stores <==> n in names
    }

    constructor ()
      ensures Valid() && names == [] && stores == map[]
    {
      names := [];
      stores := map[];
    }

    /** `caches.match(key)`. */
    function Match(key: Url): Option<Response>
      reads this
    {
      FirstMatch(names, stores, key)
    }

    /** `(await caches.open(name)).match(key)`, read without creating. */
    function MatchIn(name: string, key: Url): Option<Response>
      reads this
    {
      LookupIn(stores, name, key)
    }

    /** `caches.open(name)`. */
    method Open(name: string)
      requires Valid()
      modifies this
      ensures Valid()
      ensures names == OpenNames(old(names), name) && stores == OpenStores(old(stores), name)
    {
      if name !in stores {
        names := names + [name];
        stores := stores[name := map[]];
      }
    }

    /** `(await caches.open(name)).put(key, resp)`. */
    method Put(name: string, key: Url, resp: Response)
      requires Valid()
      modifies this
      ensures Valid()
      ensures names == OpenNames(old(names), name) && stores == PutStores(old(stores), name, key, resp)
    {
      Open(name);
      stores := stores[name := stores[name][key := resp]];
    }

    /** `caches.delete(name)`: resolves with whether the cache existed. */
    method Delete(name: string) returns (existed: bool)
      requires Valid()
      modifies this
      ensures Valid()
      ensures existed == (name in old(stores))
      ensures names == Without(old(names), {name}) && stores == old(stores) - {name}
    {
      existed := name in stores;
      WithoutDistinct(names, {name});
      names := Without(names, {name});
      stores := stores - {name};
    }

    /** `cache.addAll(keys)` on the open cache `name`, the i-th request's fetch
        answered by `answers[i]`: all responses are stored, in order, only if
        every fetch resolved with an ok response; otherwise nothing is. */
    method AddAll(name: string, keys: seq<Url>, answers: seq<FetchOutcome>) returns (stored: bool)
      requires Valid() && name in stores && |answers| == |keys|
      modifies this
      ensures Valid() && names == old(names)
      ensures stored == AllOk(answers)
      ensures stored ==> stores == old(stores)[name := Batch(old(stores)[name], keys, answers)]
      ensures !stored ==> stores == old(stores)
    {
      stored := true;
      var i := 0;
      while i < |answers|
        invariant 0 <= i <= |answers|
        invariant stored <==> forall j :: 0 <= j < i ==> answers[j].Answered? && IsOk(answers[j].response)
      {
        if !(answers[i].Answered? && IsOk(answers[i].response)) {
          stored := false;
        }
        i := i + 1;
      }
      if stored {
        stores := stores[name := Batch(stores[name], keys, answers)];
      }
    }
  }

  /** The store after putting each key with its answered response, in order. */
  function Batch(s: Store, keys: seq<Url>, answers: seq<FetchOutcome>): (r: Store)
    requires |answers| == |keys|
    requires forall i :: 0 <= i < |answers| ==> answers[i].Answered?
    ensures r.Keys == s.Keys + set k | k in keys
    decreases |keys|
  {
    if keys == [] then s
    else Batch(s[keys[0] := answers[0].response], keys[1..], answers[1..])
  }

  /** The names in `names` that `keep` rejects. */
  function Dropped(names: seq<string>, keep: string -> bool): set<string> {
    set n | n in names && !keep(n)
  }

  lemma MapMinusStep<V>(m: map<string, V>, d: set<string>, k: string)
    ensures m - d - {k} == m - (d + {k})
  {
  }

  lemma DroppedStep(keys: seq<string>, i: nat, keep: string -> bool)
    requires i < |keys|
    ensures Dropped(keys[..i + 1], keep) == Dropped(keys[..i], keep) + (if keep(keys[i]) then {} else {keys[i]})
  {
    assert keys[..i + 1] == keys[..i] + [keys[i]];
  }

  /** Before the first name, nothing is dropped and every name is kept. */
  lemma NothingDropped(keys: seq<string>, keep: string -> bool)
    ensures Dropped(keys[..0], keep) == {}
    ensures Without(keys, {}) == keys
  {
    assert keys[..0] == [];
    WithoutNothing(keys);
  }

  /** The workers' clean-up idiom, `caches.keys()` followed by
      `Promise.all(names.map(n => ... caches.delete(n)))`: every cache whose
      name `keep` rejects is deleted, the others stay in their order. */
  method DeleteUnless(cs: CacheStorage, keep: string -> bool)
    requires cs.Valid()
    modifies cs
    ensures cs.Valid()
    ensures cs.names == Without(old(cs.names), Dropped(old(cs.names), keep))
    ensures cs.stores == old(cs.stores) - Dropped(old(cs.names), keep)
    ensures forall n :: n in cs.stores <==> n in old(cs.stores) && keep(n)
  {
    var keys := cs.names;
    ghost var before := cs.stores;
    ghost var dropped: set<string> := {};
    NothingDropped(keys, keep);
    var i := 0;
    while i < |keys|
      invariant 0 <= i <= |keys|
      invariant cs.Valid()
      invariant dropped == Dropped(keys[..i], keep)
      invariant cs.names == Without(keys, dropped)
      invariant cs.stores == before - dropped
    {
      DroppedStep(keys, i, keep);
      if !keep(keys[i]) {
        WithoutTwice(keys, dropped, {keys[i]});
        MapMinusStep(before, dropped, keys[i]);
        var _ := cs.Delete(keys[i]);
        dropped := dropped + {keys[i]};
      }
      i := i + 1;
    }
    assert keys[..|keys|] == keys;
    KeptStores(before, keys, keep);
  }

  lemma KeptStores<V>(m: map<string, V>, keys: seq<string>, keep: string -> bool)
    requires forall n :: n in m <==> n in keys
    ensures forall n :: n in m - Dropped(keys, keep) <==> n in m && keep(n)
  {
  }
}
