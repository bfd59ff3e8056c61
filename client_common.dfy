/** What the two page-side `AfPwa` classes share: their option objects, the
    shape of the requests they pass to `fetch`, the notifications a service
    worker posts to them and the visible effects they produce (toasts,
    redirects, DOM events). Timers become a `delay` carried by the effect. */
module Client {
  import opened Wrappers
  import opened Web

  // ---------------------------------------------------------------- options

  /** A JavaScript value as it appears in an option object. */
  datatype JsValue = Null | Bool(b: bool) | Num(n: int) | Str(s: string)

  /** JavaScript truthiness: `false`, `0`, `""`, `null` and `undefined` are
      falsy. */
  predicate Truthy(v: JsValue) {
    match v
    case Null => false
    case Bool(b) => b
    case Num(n) => n != 0
    case Str(s) => s != ""
  }

  /** `this.config.key` used as a condition; a missing key reads `undefined`. */
  predicate Flag(config: map<string, JsValue>, key: string) {
    key in config && Truthy(config[key])
  }

  /** `{ ...defaults, ...passed }`: the passed options override the defaults
      key by key and every other default survives. */
  function Merge(defaults: map<string, JsValue>, passed: map<string, JsValue>): (r: map<string, JsValue>)
    ensures r.Keys == defaults.Keys + passed.Keys
    ensures forall k :: k in passed ==> r[k] == passed[k]
    ensures forall k :: k in defaults && k !in passed ==> r[k] == defaults[k]
  {
    defaults + passed
  }

  /** `s || d` for a string field that may be empty or absent (read as `""`). */
  function OrElse(s: string, d: string): (r: string)
    ensures s != "" ==> r == s
    ensures s == "" ==> r == d
  {
    if s != "" then s else d
  }

  // ---------------------------------------------------------------- requests

  /** The body of a request: none, a `FormData` (its entries), or anything
      else (a JSON string, a blob), which the clients never look into. */
  datatype Body = NoBody | FormBody(form: Form) | OtherBody(text: string)

  /** The `options` object handed to `fetch`. `verb` is `options.method`,
      absent when the caller gave none; `headers` is a plain object, so its
      keys are compared exactly as written. */
  datatype Options = Options(verb: Option<string>, headers: map<string, string>, body: Body)

  // ---------------------------------------------------------------- notices

  /** The `data` of an `af-pwa-notification` message as the pages read it.
      Fields a sender left out read as `""` or `false`. */
  datatype Notification = Notification(kind: string, token: string, message: string,
                                       autoRefresh: bool, redirectToLogin: bool, loginRoute: string)

  /** The notification a page receives for a notice the service worker posts;
      the worker never sends an `auto_refresh` field. */
  function FromWorker(n: Notice): (r: Notification)
    ensures r.kind == n.kind && r.token == n.token && r.message == n.message
    ensures !r.autoRefresh && r.redirectToLogin == n.redirectToLogin && r.loginRoute == n.loginRoute
  {
    Notification(n.kind, n.token, n.message, false, n.redirectToLogin, n.loginRoute)
  }

  // ---------------------------------------------------------------- effects

  /** What a page does that a user or another script can observe. A toast
      with `duration` 0 stays until removed; `ShowOffline` is the persistent
      offline banner; `Dispatch` fires a DOM `CustomEvent`. */
  datatype Effect =
    | Show(delay: int, text: string, level: string, duration: int)
    | Redirect(delay: int, url: string)
    | ShowOffline
    | Dispatch(event: string)

  /** The targets of the redirects among `effects`, in order. */
  function RedirectTargets(effects: seq<Effect>): (r: seq<string>)
    ensures |r| <= |effects|
  {
    if effects == [] then []
    else
      var rest := RedirectTargets(effects[1..]);
      if effects[0].Redirect? then [effects[0].url] + rest else rest
  }

  lemma {:induction false} RedirectTargetsAppend(a: seq<Effect>, b: seq<Effect>)
    ensures RedirectTargets(a + b) == RedirectTargets(a) + RedirectTargets(b)
  {
    if a == [] {
      assert a + b == b;
    } else {
      assert (a + b)[1..] == a[1..] + b;
      RedirectTargetsAppend(a[1..], b);
    }
  }
}
