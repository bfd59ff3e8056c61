/** The page-side `AfPwa` class of resources/js/af-pwa.js: its options, the
    `init` guard, the reaction to a waiting service worker, the `fetch`
    wrapper that adds a CSRF token and retries once after a 419, the token
    refresh, the routing of service-worker notifications and the
    session-timeout latch. The DOM the class reads and writes is reduced to
    the `<meta name="csrf-token">` content and the values of the forms'
    `_token` inputs; the answers of `fetch`, the browser's support for
    service workers and the user's choices are parameters. */
module ResourcesClient {
  import opened Wrappers
  import opened Web
  import opened Client

  /** The option defaults the constructor starts from. */
  const Defaults: map<string, JsValue> := map[
    "app_name" := Str("Laravel"),
    "debug" := Bool(false),
    "autoRegister" := Bool(true),
    "scope" := Str("/"),
    "updatePrompt" := Bool(true),
    "offlineMessage" := Bool(true),
    "sessionHandling" := Bool(true),
    "retryAttempts" := Num(3),
    "retryDelay" := Num(1000),
    "enable_notifications" := Bool(true),
    "enable_background_sync" := Bool(true),
    "update_check_interval" := Num(3600000),
    "show_install_prompt" := Bool(false),
    "show_network_status" := Bool(true),
    "auto_refresh_on_update" := Bool(true)]

  const CsrfHeader: string := "X-CSRF-TOKEN"
  const AjaxHeader: string := "X-Requested-With"
  const AjaxValue: string := "XMLHttpRequest"
  const TimeoutMessage: string := "Your session has expired. Please login again."

  /** The parts of `init` that ran, in order. */
  datatype Feature = SessionHandling | NetworkHandling | InstallPrompt | Notifications | ErrorHandlers

  /** The reaction to a `statechange` of the worker found by `updatefound`:
      whether the page posted `SKIP_WAITING` and whether it fired
      `af-pwa:update-available`. */
  datatype UpdateReaction = UpdateReaction(skipWaiting: bool, announced: bool)

  /** What the page's `fetch` promise does: resolve with a response or reject. */
  datatype FetchResult = Resolved(response: Response) | Rejected

  /** The one-shot events that touch the session-timeout latch: an
      authentication failure (a 401 or 403 from Livewire or an
      XMLHttpRequest) and a successful Livewire request. */
  datatype SessionEvent = AuthFailure | LivewireSuccess

  // ---------------------------------------------------------------- tokens

  /** `token || this.getCSRFToken()`, with `""` standing for no token. */
  function EffectiveToken(token: string, meta: Option<string>): (r: string)
    ensures token != "" ==> r == token
    ensures token == "" ==> r == meta.GetOr("")
  {
    if token != "" then token else meta.GetOr("")
  }

  /** `addCSRFToken(options, token)` given the current meta-tag content:
      without a token the options come back as they are; otherwise a copy
      whose headers hold the token and the AJAX marker unless the caller's
      own headers already name them, and whose form body carries `_token`. */
  function AddCsrfToken(o: Options, token: string, meta: Option<string>): (r: Options)
    ensures EffectiveToken(token, meta) == "" ==> r == o
    ensures EffectiveToken(token, meta) != "" ==>
      && r.verb == o.verb
      && r.headers.Keys == o.headers.Keys + {CsrfHeader, AjaxHeader}
      && (forall k :: k in o.headers ==> r.headers[k] == o.headers[k])
      && (CsrfHeader !in o.headers ==> r.headers[CsrfHeader] == EffectiveToken(token, meta))
      && (AjaxHeader !in o.headers ==> r.headers[AjaxHeader] == AjaxValue)
      && (o.body.FormBody? <==> r.body.FormBody?)
      && (o.body.FormBody? ==> FormGet(r.body.form, "_token") == Some(EffectiveToken(token, meta)))
      && (!o.body.FormBody? ==> r.body == o.body)
  {
    var csrf := EffectiveToken(token, meta);
    if csrf == "" then o
    else
      var body := if o.body.FormBody? then FormBody(FormSet(o.body.form, "_token", csrf)) else o.body;
      assert o.body.FormBody? ==> FormGet(body.form, "_token") == Some(csrf) by {
        if o.body.FormBody? { FormSetThenGet(o.body.form, "_token", csrf); }
      }
      Options(o.verb, map[CsrfHeader := csrf, AjaxHeader := AjaxValue] + o.headers, body)
  }

  /** The wrapper adds a token only for these exact method names. */
  predicate Mutating(verb: Option<string>) {
    verb == Some("POST") || verb == Some("PUT") || verb == Some("DELETE")
  }

  /** The token `refreshCSRFToken` obtains from a GET of the current page:
      the parsed page's meta-tag content when the response is `ok` and that
      content is non-empty. */
  function RefreshedToken(answer: FetchOutcome, docToken: Option<string>): (r: Option<string>)
    ensures r.Some? ==> r.value != "" && docToken == r
    ensures !answer.Answered? || !IsOk(answer.response) ==> r == None
  {
    if answer.Answered? && IsOk(answer.response) && docToken.Some? && docToken.value != "" then docToken
    else None
  }

  /** The request the wrapper retries with after a 419, as written: the
      first call already put the old token into the headers, and the spread
      of those headers comes last, so only a form body sees the new token. */
  function RetryOptions(first: Options, token: string, meta: Option<string>): Options {
    AddCsrfToken(first, token, meta)
  }

  /** A JSON `PUT` sent with meta token `m` that comes back 419 is retried
      without the refreshed token `t` anywhere: its `X-CSRF-TOKEN` header
      still carries `m`, and it has no form body to hold `_token`. */
  lemma StaleRetryHeader(o: Options, m: string, t: string)
    requires CsrfHeader !in o.headers && !o.body.FormBody?
    requires m != "" && t != "" && m != t
    ensures var first := AddCsrfToken(o, "", Some(m));
            var retry := RetryOptions(first, t, Some(t));
            retry.headers[CsrfHeader] == m && retry.body == o.body
  {
    var first := AddCsrfToken(o, "", Some(m));
    assert first.headers[CsrfHeader] == m;
  }

  /** The retry as intended: the refreshed token replaces whatever token the
      first attempt carried, in the header and in a form body alike. */
  function CorrectedRetryOptions(first: Options, token: string): (r: Options)
    requires token != ""
    ensures r.verb == first.verb
    ensures r.headers.Keys == first.headers.Keys + {CsrfHeader, AjaxHeader}
    ensures r.headers[CsrfHeader] == token
    ensures forall k :: k in first.headers && k != CsrfHeader ==> r.headers[k] == first.headers[k]
    ensures first.body.FormBody? ==> r.body.FormBody? && FormGet(r.body.form, "_token") == Some(token)
    ensures !first.body.FormBody? ==> r.body == first.body
  {
    var added := AddCsrfToken(first, token, None);
    added.(headers := added.headers[CsrfHeader := token])
  }

  /** Where the first attempt had no token of its own, the corrected retry is
      the written one. */
  lemma CorrectedRetryAgrees(first: Options, token: string, meta: Option<string>)
    requires token != "" && CsrfHeader !in first.headers
    ensures CorrectedRetryOptions(first, token) == RetryOptions(first, token, meta)
  {
    var added := AddCsrfToken(first, token, None);
    assert added == RetryOptions(first, token, meta);
    assert added.headers[CsrfHeader] == token;
    assert added.headers[CsrfHeader := token] == added.headers;
  }

  // ---------------------------------------------------------------- notices

  /** `handleNotification(data)`: the toasts and redirect a service-worker
      notification causes. */
  function HandleNotification(d: Notification): (effects: seq<Effect>)
    ensures effects == [] <==>
      (d.kind != "csrf_error" && d.kind != "session_expired" && d.kind != "network_error")
      || (d.kind == "csrf_error" && !d.autoRefresh)
    ensures RedirectTargets(effects) ==
      (if d.kind == "session_expired" && d.redirectToLogin then [OrElse(d.loginRoute, "/login")] else [])
  {
    match d.kind
    case "csrf_error" =>
      if !d.autoRefresh then []
      else [Show(0, "Session refreshing...", "info", 2000)]
           + (if d.message != "" then [Show(2000, d.message, "success", 3000)] else [])
    case "session_expired" =>
      if d.redirectToLogin then
        [Show(0, OrElse(d.message, "Session expired"), "warning", 5000),
         Redirect(3000, OrElse(d.loginRoute, "/login"))]
      else [Show(0, OrElse(d.message, "Session expired"), "warning", 5000)]
    case "network_error" => [Show(0, OrElse(d.message, "Network error occurred"), "error", 5000)]
    case _ => []
  }

  /** The `csrf_token_updated` notice the template service worker posts after
      refreshing a token is not one this page reacts to. */
  lemma WorkerTokenNoticeIgnored(n: Notice)
    requires n.kind == "csrf_token_updated"
    ensures HandleNotification(FromWorker(n)) == []
  {
  }

  /** The worker's `session_expired` notice with `redirect_to_login` sends
      the page to the notice's login route after a delay. */
  lemma WorkerSessionNoticeRedirects(n: Notice)
    requires n.kind == "session_expired" && n.redirectToLogin && n.loginRoute != ""
    ensures RedirectTargets(HandleNotification(FromWorker(n))) == [n.loginRoute]
  {
  }

  // ---------------------------------------------------------------- latch

  /** The session-timeout latch as a transition: the new value of
      `sessionTimeoutShown` and the number of redirects to `/login` the event
      schedules. */
  function LatchStep(shown: bool, e: SessionEvent): (bool, nat) {
    match e
    case AuthFailure => if shown then (true, 0) else (true, 1)
    case LivewireSuccess => (false, 0)
  }

  /** The latch after a sequence of events, and the redirects scheduled. */
  function LatchRun(shown: bool, events: seq<SessionEvent>): (r: (bool, nat))
    ensures r.1 <= |events|
    decreases |events|
  {
    if events == [] then (shown, 0)
    else
      var step := LatchStep(shown, events[0]);
      var rest := LatchRun(step.0, events[1..]);
      (rest.0, step.1 + rest.1)
  }

  /** Between two successful Livewire requests the timeout acts at most once:
      exactly once when an authentication failure arrives with the latch
      clear, never when it was already set. */
  lemma {:induction false} AtMostOneRedirectBetweenSuccesses(shown: bool, events: seq<SessionEvent>)
    requires LivewireSuccess !in events
    ensures LatchRun(shown, events).1 == (if !shown && AuthFailure in events then 1 else 0)
    ensures LatchRun(shown, events).0 == (shown || AuthFailure in events)
    decreases |events|
  {
    if events != [] {
      assert events == [events[0]] + events[1..];
      assert events[0] == AuthFailure;
      AtMostOneRedirectBetweenSuccesses(true, events[1..]);
      assert LatchRun(true, events[1..]).1 == 0;
    }
  }

  // ---------------------------------------------------------------- class

  class AfPwa {
    var config: map<string, JsValue>
    var isInitialized: bool
    /** `this.serviceWorker` is a registration. */
    var registered: bool
    /** `window.fetch` has been replaced by the wrapper. */
    var fetchWrapped: bool
    var isOnline: bool
    var sessionTimeoutShown: bool
    /** The content of `<meta name="csrf-token">`; `None` when the page has
        no such tag. */
    var meta: Option<string>
    /** The values of the page's `input[name="_token"]` elements. */
    var formTokens: seq<string>

    /** `new AfPwa(config)`: the merged options, then `init()`. */
    constructor(passed: map<string, JsValue>, online: bool, meta0: Option<string>, forms: seq<string>,
                swSupported: bool, registrationOk: bool)
      ensures config == Merge(Defaults, passed)
      ensures isInitialized == (!swSupported || registrationOk)
      ensures registered == (swSupported && registrationOk)
      ensures fetchWrapped == (isInitialized && Flag(config, "sessionHandling"))
      ensures !sessionTimeoutShown && isOnline == online && meta == meta0 && formTokens == forms
    {
      config := Merge(Defaults, passed);
      isInitialized := false;
      registered := false;
      fetchWrapped := false;
      isOnline := online;
      sessionTimeoutShown := false;
      meta := meta0;
      formTokens := forms;
      new;
      var _ := Init(swSupported, registrationOk);
    }

    /** The parts of `init` that run after a successful registration. */
    function Features(): (r: seq<Feature>)
      reads this
      ensures NetworkHandling in r && InstallPrompt in r && ErrorHandlers in r
      ensures SessionHandling in r <==> Flag(config, "sessionHandling")
      ensures Notifications in r <==> Flag(config, "enable_notifications")
    {
      (if Flag(config, "sessionHandling") then [SessionHandling] else [])
      + [NetworkHandling, InstallPrompt]
      + (if Flag(config, "enable_notifications") then [Notifications] else [])
      + [ErrorHandlers]
    }

    /** `init()`: a second call does nothing; a failed registration leaves
        the instance uninitialised and sets nothing else up. */
    method Init(swSupported: bool, registrationOk: bool) returns (ran: seq<Feature>)
      modifies this
      ensures old(isInitialized) ==> ran == [] && unchanged(this)
      ensures !old(isInitialized) ==>
        && isInitialized == (!swSupported || registrationOk)
        && registered == (old(registered) || (swSupported && registrationOk))
        && ran == (if isInitialized then Features() else [])
        && fetchWrapped == (old(fetchWrapped) || SessionHandling in ran)
      ensures config == old(config) && isOnline == old(isOnline) && sessionTimeoutShown == old(sessionTimeoutShown)
      ensures meta == old(meta) && formTokens == old(formTokens)
    {
      if isInitialized {
        return [];
      }
      if swSupported {
        if !registrationOk {
          return [];
        }
        registered := true;
      }
      ran := Features();
      if Flag(config, "sessionHandling") {
        fetchWrapped := true;
      }
      isInitialized := true;
    }

    /** The `statechange` listener `handleServiceWorkerUpdate` attaches, with
        `showUpdatePrompt` folded in: `userAccepts` is the user clicking the
        notification or confirming the dialog. */
    function OnWorkerStateChange(installing: bool, state: string, controller: bool, userAccepts: bool): (r: UpdateReaction)
      reads this
      ensures r.announced <==> installing && state == "installed" && controller
      ensures r.skipWaiting ==> r.announced
      ensures r.announced && !Flag(config, "updatePrompt") ==> r.skipWaiting
      ensures r.announced && Flag(config, "updatePrompt") ==> (r.skipWaiting <==> userAccepts)
    {
      var ready := installing && state == "installed" && controller;
      UpdateReaction(ready && (!Flag(config, "updatePrompt") || userAccepts), ready)
    }

    /** `handleNetworkError(error)`. */
    function NetworkErrorEffects(): (r: seq<Effect>)
      reads this
      ensures ShowOffline in r <==> !isOnline && Flag(config, "show_network_status")
      ensures |r| >= 1 && r[|r| - 1] == Dispatch("af-pwa:network-error")
    {
      (if !isOnline && Flag(config, "show_network_status") then [ShowOffline] else [])
      + [Dispatch("af-pwa:network-error")]
    }

    /** `updateCSRFToken(t)`: the meta tag, if any, and every form token take
        the new value. */
    method UpdateCsrfToken(t: string)
      modifies this
      ensures meta == (if old(meta).Some? then Some(t) else None)
      ensures |formTokens| == |old(formTokens)| && forall i :: 0 <= i < |formTokens| ==> formTokens[i] == t
      ensures config == old(config) && isInitialized == old(isInitialized) && registered == old(registered)
      ensures fetchWrapped == old(fetchWrapped) && isOnline == old(isOnline)
      ensures sessionTimeoutShown == old(sessionTimeoutShown)
    {
      if meta.Some? {
        meta := Some(t);
      }
      var i := 0;
      while i < |formTokens|
        invariant 0 <= i <= |formTokens| == |old(formTokens)|
        invariant forall j :: 0 <= j < i ==> formTokens[j] == t
        invariant meta == (if old(meta).Some? then Some(t) else None)
        invariant config == old(config) && isInitialized == old(isInitialized) && registered == old(registered)
        invariant fetchWrapped == old(fetchWrapped) && isOnline == old(isOnline)
        invariant sessionTimeoutShown == old(sessionTimeoutShown)
      {
        formTokens := formTokens[i := t];
        i := i + 1;
      }
    }

    /** `refreshCSRFToken()`: GET the current page and take the token from
        its meta tag; a non-ok answer, a rejected fetch or a page without a
        token yields `None` and changes nothing. */
    method RefreshCsrfToken(answer: FetchOutcome, docToken: Option<string>) returns (r: Option<string>)
      modifies this
      ensures r == RefreshedToken(answer, docToken)
      ensures r.None? ==> meta == old(meta) && formTokens == old(formTokens)
      ensures r.Some? ==> meta == (if old(meta).Some? then r else None)
      ensures r.Some? ==> |formTokens| == |old(formTokens)| && forall i :: 0 <= i < |formTokens| ==> formTokens[i] == r.value
      ensures config == old(config) && isInitialized == old(isInitialized) && registered == old(registered)
      ensures fetchWrapped == old(fetchWrapped) && isOnline == old(isOnline)
      ensures sessionTimeoutShown == old(sessionTimeoutShown)
    {
      r := RefreshedToken(answer, docToken);
      if r.Some? {
        UpdateCsrfToken(r.value);
      }
    }

    /** The wrapper installed as `window.fetch`. `first` answers the first
        call, `refresh` and `docToken` the token refresh, `retry` the retry;
        `sent` lists the options each call to the original `fetch` got.
        The retry's promise is returned without `await`, so its rejection
        escapes the wrapper's `catch` and is not reported as a network
        error. */
    method Fetch(o: Options, first: FetchOutcome, refresh: FetchOutcome, docToken: Option<string>, retry: FetchOutcome)
      returns (r: FetchResult, sent: seq<Options>, effects: seq<Effect>)
      modifies this
      ensures 1 <= |sent| <= 2
      ensures sent[0] == (if Mutating(o.verb) then AddCsrfToken(o, "", old(meta)) else o)
      ensures |sent| == 2 <==>
        first.Answered? && first.response.status == 419 && RefreshedToken(refresh, docToken).Some?
      ensures |sent| == 2 ==>
        && sent[1] == RetryOptions(sent[0], RefreshedToken(refresh, docToken).value, meta)
        && r == (if retry.Answered? then Resolved(retry.response) else Rejected)
      ensures |sent| == 1 ==> r == (if first.Answered? then Resolved(first.response) else Rejected)
      ensures effects == (if first.Answered? then [] else old(NetworkErrorEffects()))
      ensures !(first.Answered? && first.response.status == 419) ==> meta == old(meta) && formTokens == old(formTokens)
      ensures config == old(config) && isInitialized == old(isInitialized) && registered == old(registered)
      ensures fetchWrapped == old(fetchWrapped) && isOnline == old(isOnline)
      ensures sessionTimeoutShown == old(sessionTimeoutShown)
    {
      var opts := o;
      if Mutating(o.verb) {
        opts := AddCsrfToken(o, "", meta);
      }
      sent := [opts];
      if !first.Answered? {
        effects := NetworkErrorEffects();
        return Rejected, sent, effects;
      }
      effects := [];
      if first.response.status == 419 {
        var token := RefreshCsrfToken(refresh, docToken);
        if token.Some? {
          opts := AddCsrfToken(opts, token.value, meta);
          sent := sent + [opts];
          r := if retry.Answered? then Resolved(retry.response) else Rejected;
          return;
        }
      }
      r := Resolved(first.response);
    }

    /** `handleSessionTimeout()`: the first call shows a persistent warning
        and schedules the redirect to `/login`; later calls do nothing until
        the latch is cleared. */
    method HandleSessionTimeout() returns (effects: seq<Effect>)
      modifies this
      ensures (sessionTimeoutShown, |RedirectTargets(effects)|) == LatchStep(old(sessionTimeoutShown), AuthFailure)
      ensures RedirectTargets(effects) == (if old(sessionTimeoutShown) then [] else ["/login"])
      ensures old(sessionTimeoutShown) ==> effects == []
      ensures config == old(config) && isInitialized == old(isInitialized) && registered == old(registered)
      ensures fetchWrapped == old(fetchWrapped) && isOnline == old(isOnline)
      ensures meta == old(meta) && formTokens == old(formTokens)
    {
      if sessionTimeoutShown {
        return [];
      }
      sessionTimeoutShown := true;
      effects := [Show(0, TimeoutMessage, "warning", 0), Redirect(5000, "/login")];
    }

    /** `handleLivewireSuccess()`: clears the latch. */
    method HandleLivewireSuccess()
      modifies this
      ensures sessionTimeoutShown == LatchStep(old(sessionTimeoutShown), LivewireSuccess).0
      ensures !sessionTimeoutShown
      ensures config == old(config) && isInitialized == old(isInitialized) && registered == old(registered)
      ensures fetchWrapped == old(fetchWrapped) && isOnline == old(isOnline)
      ensures meta == old(meta) && formTokens == old(formTokens)
    {
      sessionTimeoutShown := false;
    }
  }

  /** With no options passed the update prompt is on, so a waiting worker is
      activated only with the user's consent; passing `updatePrompt: false`
      makes the page activate it at once. */
  lemma UpdatePromptDefaults(c: AfPwa, passed: map<string, JsValue>)
    requires c.config == Merge(Defaults, passed)
    ensures passed == map[] ==> !c.OnWorkerStateChange(true, "installed", true, false).skipWaiting
    ensures passed == map["updatePrompt" := Bool(false)] ==> c.OnWorkerStateChange(true, "installed", true, false).skipWaiting
  {
  }
}
