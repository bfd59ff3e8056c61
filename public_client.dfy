/** The page-side `AfPwa` class of public/js/af-pwa.js: its options, the
    routing of service-worker notifications, the silent token refresh, the
    retry queue flushed when the page comes back online, and the
    session-expiry reaction. As in `ResourcesClient`, the DOM is reduced to
    the meta-tag token and the forms' `_token` values, and every `fetch`
    answer is a parameter. */
module PublicClient {
  import opened Wrappers
  import opened Web
  import opened Client
  import Csrf

  /** The option defaults the constructor starts from. */
  const Defaults: map<string, JsValue> := map[
    "debug" := Bool(false),
    "auto_refresh_csrf" := Bool(true),
    "show_notifications" := Bool(true),
    "install_prompt_delay" := Num(5000)]

  const ExpiredMessage: string := "Your session has expired. Please log in again."
  const OfflineMessage: string := "Connection lost. Please check your internet."

  /** One entry of `retryQueue`: the request and the time it was queued. */
  datatype QueueItem = QueueItem(url: string, options: Options, timestamp: int)

  /** The requests a queue stands for, in queue order. */
  function Requests(q: seq<QueueItem>): (r: seq<(string, Options)>)
    ensures |r| == |q|
    ensures forall i :: 0 <= i < |q| ==> r[i] == (q[i].url, q[i].options)
  {
    if q == [] then [] else Requests(q[..|q| - 1]) + [(q[|q| - 1].url, q[|q| - 1].options)]
  }

  /** Queueing one more request adds exactly its fetch at the end of what
      the queue stands for. */
  lemma {:induction false} RequestsSnoc(q: seq<QueueItem>, item: QueueItem)
    ensures Requests(q + [item]) == Requests(q) + [(item.url, item.options)]
  {
    assert (q + [item])[..|q|] == q;
  }

  /** The token `refreshCSRFToken` takes from a GET of `/`. The response's
      status is never looked at: any page that resolves is searched. */
  function RefreshedToken(answer: FetchOutcome): (r: Option<string>)
    ensures !answer.Answered? ==> r == None
    ensures answer.Answered? ==> r == Csrf.ExtractToken(answer.response.body)
    ensures r.Some? ==> r.value != "" && '"' !in r.value
  {
    if answer.Answered? then Csrf.ExtractToken(answer.response.body) else None
  }

  /** A server error page that still renders the meta tag yields its token. */
  lemma ErrorPageStillYieldsToken(t: string, tail: string)
    requires t != [] && '"' !in t
    ensures RefreshedToken(Answered(Response(500, "text/html", "<meta " + Csrf.MetaPrefix + t + "\">" + tail))) == Some(t)
  {
    Csrf.MetaTagYieldsToken(t, tail);
  }

  class AfPwa {
    var config: map<string, JsValue>
    var isOnline: bool
    var retryQueue: seq<QueueItem>
    /** The content of `<meta name="csrf-token">`; `None` without the tag. */
    var meta: Option<string>
    /** The values of the page's `input[name="_token"]` elements. */
    var formTokens: seq<string>

    /** `new AfPwa(config)` with the queue empty. */
    constructor(passed: map<string, JsValue>, online: bool, meta0: Option<string>, forms: seq<string>)
      ensures config == Merge(Defaults, passed)
      ensures isOnline == online && retryQueue == [] && meta == meta0 && formTokens == forms
    {
      config := Merge(Defaults, passed);
      isOnline := online;
      retryQueue := [];
      meta := meta0;
      formTokens := forms;
    }

    /** `handleSessionExpired(data)`: a toast when notifications are on, a
        delayed redirect only when the notice asks for one, then the
        `af-pwa:session-expired` event. */
    function SessionExpired(d: Notification): (effects: seq<Effect>)
      reads this
      ensures RedirectTargets(effects) == (if d.redirectToLogin then [OrElse(d.loginRoute, "/login")] else [])
      ensures (exists i :: 0 <= i < |effects| && effects[i].Show?) <==> Flag(config, "show_notifications")
      ensures |effects| >= 1 && effects[|effects| - 1] == Dispatch("af-pwa:session-expired")
    {
      var toast := if Flag(config, "show_notifications") then [Show(0, OrElse(d.message, ExpiredMessage), "error", 5000)] else [];
      var redirect := if d.redirectToLogin then [Redirect(3000, OrElse(d.loginRoute, "/login"))] else [];
      RedirectTargetsAppend(toast, redirect);
      RedirectTargetsAppend(toast + redirect, [Dispatch("af-pwa:session-expired")]);
      toast + redirect + [Dispatch("af-pwa:session-expired")]
    }

    /** `handleNetworkError(data)`. */
    function NetworkError(d: Notification): (effects: seq<Effect>)
      reads this
      ensures RedirectTargets(effects) == []
      ensures (exists i :: 0 <= i < |effects| && effects[i].Show?) <==> Flag(config, "show_notifications")
      ensures |effects| >= 1 && effects[|effects| - 1] == Dispatch("af-pwa:network-error")
    {
      (if Flag(config, "show_notifications") then [Show(0, OrElse(d.message, OfflineMessage), "error", 5000)] else [])
      + [Dispatch("af-pwa:network-error")]
    }

    /** `updateCSRFToken(t)`: the meta tag, if any, and every form token take
        the new value. */
    method UpdateCsrfToken(t: string)
      modifies this
      ensures meta == (if old(meta).Some? then Some(t) else None)
      ensures |formTokens| == |old(formTokens)| && forall i :: 0 <= i < |formTokens| ==> formTokens[i] == t
      ensures config == old(config) && isOnline == old(isOnline) && retryQueue == old(retryQueue)
    {
      if meta.Some? {
        meta := Some(t);
      }
      var i := 0;
      while i < |formTokens|
        invariant 0 <= i <= |formTokens| == |old(formTokens)|
        invariant forall j :: 0 <= j < i ==> formTokens[j] == t
        invariant meta == (if old(meta).Some? then Some(t) else None)
        invariant config == old(config) && isOnline == old(isOnline) && retryQueue == old(retryQueue)
      {
        formTokens := formTokens[i := t];
        i := i + 1;
      }
    }

    /** `handleNotification(data)`: a new token from the worker is written
        into the page; expiry and network notices go to their handlers; any
        other type is ignored and changes nothing. */
    method HandleNotification(d: Notification) returns (effects: seq<Effect>)
      modifies this
      ensures d.kind == "csrf_token_updated" ==>
        && meta == (if old(meta).Some? then Some(d.token) else None)
        && |formTokens| == |old(formTokens)|
        && (forall i :: 0 <= i < |formTokens| ==> formTokens[i] == d.token)
        && effects == [Dispatch("af-pwa:csrf-updated")]
      ensures d.kind != "csrf_token_updated" ==> meta == old(meta) && formTokens == old(formTokens)
      ensures d.kind == "session_expired" ==> effects == old(SessionExpired(d))
      ensures d.kind == "network_error" ==> effects == old(NetworkError(d))
      ensures d.kind != "csrf_token_updated" && d.kind != "session_expired" && d.kind != "network_error" ==> effects == []
      ensures config == old(config) && isOnline == old(isOnline) && retryQueue == old(retryQueue)
    {
      match d.kind
      case "csrf_token_updated" =>
        UpdateCsrfToken(d.token);
        effects := [Dispatch("af-pwa:csrf-updated")];
      case "session_expired" =>
        effects := SessionExpired(d);
      case "network_error" =>
        effects := NetworkError(d);
      case _ =>
        effects := [];
    }

    /** `refreshCSRFToken()`: fetch `/`, take the first meta-tag token, write
        it into the page and announce it with `af-pwa:csrf-refreshed`; `None`
        when the fetch rejects or the page has no token, and then nothing
        changes and nothing is dispatched. */
    method RefreshCsrfToken(answer: FetchOutcome) returns (r: Option<string>, effects: seq<Effect>)
      modifies this
      ensures r == RefreshedToken(answer)
      ensures r.None? ==> meta == old(meta) && formTokens == old(formTokens) && effects == []
      ensures r.Some? ==> meta == (if old(meta).Some? then r else None)
      ensures r.Some? ==> |formTokens| == |old(formTokens)| && forall i :: 0 <= i < |formTokens| ==> formTokens[i] == r.value
      ensures r.Some? ==> effects == [Dispatch("af-pwa:csrf-refreshed")]
      ensures config == old(config) && isOnline == old(isOnline) && retryQueue == old(retryQueue)
    {
      r := RefreshedToken(answer);
      effects := [];
      if r.Some? {
        UpdateCsrfToken(r.value);
        effects := [Dispatch("af-pwa:csrf-refreshed")];
      }
    }

    /** `addToRetryQueue(url, options)` at time `now`. */
    method AddToRetryQueue(url: string, options: Options, now: int)
      modifies this
      ensures retryQueue == old(retryQueue) + [QueueItem(url, options, now)]
      ensures Requests(retryQueue) == Requests(old(retryQueue)) + [(url, options)]
      ensures config == old(config) && isOnline == old(isOnline) && meta == old(meta) && formTokens == old(formTokens)
    {
      RequestsSnoc(retryQueue, QueueItem(url, options, now));
      retryQueue := retryQueue + [QueueItem(url, options, now)];
    }

    /** `processRetryQueue()`: one `fetch` per queued request, in queue
        order, and the queue is emptied whatever those fetches answer. */
    method ProcessRetryQueue() returns (fetched: seq<(string, Options)>)
      modifies this
      ensures fetched == Requests(old(retryQueue))
      ensures retryQueue == []
      ensures config == old(config) && isOnline == old(isOnline) && meta == old(meta) && formTokens == old(formTokens)
    {
      fetched := [];
      var i := 0;
      while i < |retryQueue|
        invariant 0 <= i <= |retryQueue|
        invariant fetched == Requests(retryQueue[..i])
        invariant retryQueue == old(retryQueue)
        invariant config == old(config) && isOnline == old(isOnline) && meta == old(meta) && formTokens == old(formTokens)
      {
        RequestsSnoc(retryQueue[..i], retryQueue[i]);
        assert retryQueue[..i + 1] == retryQueue[..i] + [retryQueue[i]];
        fetched := fetched + [(retryQueue[i].url, retryQueue[i].options)];
        i := i + 1;
      }
      assert retryQueue[..i] == retryQueue;
      retryQueue := [];
    }

    /** The `online` listener: the page is online and the queue is flushed. */
    method OnOnline() returns (fetched: seq<(string, Options)>)
      modifies this
      ensures isOnline && retryQueue == []
      ensures fetched == Requests(old(retryQueue))
      ensures config == old(config) && meta == old(meta) && formTokens == old(formTokens)
    {
      isOnline := true;
      fetched := ProcessRetryQueue();
    }

    /** The `offline` listener: queued requests wait for the next `online`. */
    method OnOffline()
      modifies this
      ensures !isOnline
      ensures retryQueue == old(retryQueue) && config == old(config)
      ensures meta == old(meta) && formTokens == old(formTokens)
    {
      isOnline := false;
    }
  }

  /** A request queued while offline is fetched once, after everything queued
      before it, when the page comes back online. */
  method QueueThenReconnect(c: AfPwa, url: string, options: Options, now: int) returns (fetched: seq<(string, Options)>)
    modifies c
    ensures fetched == Requests(old(c.retryQueue)) + [(url, options)]
    ensures c.retryQueue == [] && c.isOnline
  {
    c.OnOffline();
    c.AddToRetryQueue(url, options, now);
    fetched := c.OnOnline();
  }

  /** The worker's `csrf_token_updated` notice writes its token into the
      page, unlike the other page script, which ignores it. */
  method WorkerTokenReachesPage(c: AfPwa, n: Notice) returns (effects: seq<Effect>)
    requires n.kind == "csrf_token_updated"
    modifies c
    ensures old(c.meta).Some? ==> c.meta == Some(n.token)
    ensures forall i :: 0 <= i < |c.formTokens| ==> c.formTokens[i] == n.token
    ensures effects == [Dispatch("af-pwa:csrf-updated")]
  {
    effects := c.HandleNotification(FromWorker(n));
  }
}
