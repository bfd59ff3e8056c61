/** The session service of `src/Services/SessionManager.php`: per-session
    metadata kept in the application cache under `af_pwa_session_<id>`, the
    expiry arithmetic read from it, and the maintenance passes over all
    stored sessions. The clock, the session id, the token check and the
    request path are parameters. */
module Session {
  import opened Wrappers
  import opened Text

  /** The stored metadata array. Only the two timestamps are read back; the
      string-valued fields (token, session id) are kept in `extra`. */
  datatype Metadata = Metadata(lastActivity: Option<int>, refreshedAt: Option<int>, extra: map<string, string>)

  /** `if ($metadata)`: a missing entry and an empty array are both false. */
  predicate Present(m: Option<Metadata>) {
    m.Some? && !(m.value.lastActivity.None? && m.value.refreshedAt.None? && m.value.extra == map[])
  }

  /** `$metadata['last_activity'] ?? 0`. */
  function LastActivity(m: Metadata): int {
    m.lastActivity.GetOr(0)
  }

  /** A cache entry: the metadata, the time it was put and the time-to-live
      it was put with. */
  datatype Entry = Entry(data: Metadata, storedAt: int, ttl: int)

  /** `Cache::get` still returns the entry at time `now`: fewer than `ttl`
      seconds have passed since it was put. */
  predicate Unexpired(e: Entry, now: int) {
    now - e.storedAt < e.ttl
  }

  /** The `af-pwa.session` configuration; absent keys are `None`. */
  datatype SessionConfig = SessionConfig(
    timeoutWarning: Option<int>,
    autoRefresh: Option<bool>,
    refreshInterval: Option<int>,
    loginUrl: Option<string>,
    adminLoginUrl: Option<string>,
    memberLoginUrl: Option<string>)

  /** The array `getTimeoutInfo` returns; the last two keys are missing when
      there is no metadata. */
  datatype TimeoutInfo = TimeoutInfo(expired: bool, timeRemaining: int, warning: bool,
                                     autoRefreshEnabled: Option<bool>, nextRefresh: Option<int>)

  datatype Statistics = Statistics(total: nat, active: nat, expired: nat, cleanupNeeded: bool, failed: bool)

  datatype RefreshResult = Refreshed(token: string, timestamp: int) | RefreshFailed(redirect: string)

  const CachePrefix: string := "af_pwa_session_"

  function MetadataKey(sessionId: string): (k: string)
    ensures StartsWith(k, CachePrefix)
  {
    CachePrefix + sessionId
  }

  /** The cleanup and statistics test: `Cache::get` still returns present
      metadata, with a last activity strictly more than `lifetime` seconds
      ago. */
  predicate IsStale(e: Entry, now: int, lifetime: int) {
    Unexpired(e, now) && Present(Some(e.data)) && e.data.lastActivity.Some? && now - e.data.lastActivity.value > lifetime
  }

  /** Returned, present metadata with a last activity no more than
      `lifetime` ago. */
  predicate IsLive(e: Entry, now: int, lifetime: int) {
    Unexpired(e, now) && Present(Some(e.data)) && e.data.lastActivity.Some? && now - e.data.lastActivity.value <= lifetime
  }

  predicate StaleAt(entries: map<string, Entry>, k: string, now: int, lifetime: int) {
    k in entries && IsStale(entries[k], now, lifetime)
  }

  predicate LiveAt(entries: map<string, Entry>, k: string, now: int, lifetime: int) {
    k in entries && IsLive(entries[k], now, lifetime)
  }

  /** The listed keys whose entry is stale. */
  function StaleKeys(entries: map<string, Entry>, keys: seq<string>, now: int, lifetime: int): set<string> {
    set k | k in keys && StaleAt(entries, k, now, lifetime)
  }

  lemma StaleKeysStep(entries: map<string, Entry>, keys: seq<string>, i: nat, now: int, lifetime: int)
    requires i < |keys|
    ensures StaleKeys(entries, keys[..i + 1], now, lifetime) ==
      StaleKeys(entries, keys[..i], now, lifetime) + (if StaleAt(entries, keys[i], now, lifetime) then {keys[i]} else {})
  {
    assert keys[..i + 1] == keys[..i] + [keys[i]];
  }

  /** One pass of `cleanupExpiredSessions`' loop: with `removed` the stale
      keys among the first `i`, key `i` is removed from what is left exactly
      when it is stale and new, and either way the removed set grows to the
      stale keys among the first `i + 1`. */
  lemma CleanupStep(before: map<string, Entry>, removed: set<string>, keys: seq<string>, i: nat, now: int, lifetime: int)
    requires i < |keys| && removed == StaleKeys(before, keys[..i], now, lifetime)
    ensures var left, key := before - removed, keys[i];
      if key in left && IsStale(left[key], now, lifetime) then
        key !in removed && removed + {key} == StaleKeys(before, keys[..i + 1], now, lifetime)
        && left - {key} == before - (removed + {key})
      else removed == StaleKeys(before, keys[..i + 1], now, lifetime)
  {
    StaleKeysStep(before, keys, i, now, lifetime);
  }

  /** The statistics counters, one count per listed key. */
  function CountStale(entries: map<string, Entry>, keys: seq<string>, now: int, lifetime: int): nat {
    if keys == [] then 0
    else
      var last := if StaleAt(entries, keys[|keys| - 1], now, lifetime) then 1 else 0;
      CountStale(entries, keys[..|keys| - 1], now, lifetime) + last
  }

  function CountLive(entries: map<string, Entry>, keys: seq<string>, now: int, lifetime: int): nat {
    if keys == [] then 0
    else
      var last := if LiveAt(entries, keys[|keys| - 1], now, lifetime) then 1 else 0;
      CountLive(entries, keys[..|keys| - 1], now, lifetime) + last
  }

  /** No key is both live and stale, so the two counters never exceed the
      number of keys. */
  lemma {:induction false} CountsBounded(entries: map<string, Entry>, keys: seq<string>, now: int, lifetime: int)
    ensures CountStale(entries, keys, now, lifetime) + CountLive(entries, keys, now, lifetime) <= |keys|
  {
    if keys != [] {
      CountsBounded(entries, keys[..|keys| - 1], now, lifetime);
    }
  }

  /** Over keys without repeats, the stale counter is the number of entries
      cleanup removes. */
  lemma {:induction false} CountStaleIsStaleKeys(entries: map<string, Entry>, keys: seq<string>, now: int, lifetime: int)
    requires forall i, j :: 0 <= i < j < |keys| ==> keys[i] != keys[j]
    ensures CountStale(entries, keys, now, lifetime) == |StaleKeys(entries, keys, now, lifetime)|
  {
    if keys != [] {
      var init, k := keys[..|keys| - 1], keys[|keys| - 1];
      CountStaleIsStaleKeys(entries, init, now, lifetime);
      assert keys == init + [k];
      assert k !in init;
      var before := StaleKeys(entries, init, now, lifetime);
      if StaleAt(entries, k, now, lifetime) {
        assert StaleKeys(entries, keys, now, lifetime) == before + {k};
        assert k !in before;
      } else {
        assert StaleKeys(entries, keys, now, lifetime) == before;
      }
    }
  }

  function Max(a: int, b: int): int {
    if a >= b then a else b
  }

  /** The session service over the cache entries it owns. */
  class SessionManager {
    const config: SessionConfig
    /** `config('session.lifetime')`, in minutes. */
    const lifetimeMinutes: int
    var entries: map<string, Entry>

    /** Every entry is under the prefix and was stored with the positive TTL
        of `storeSessionMetadata`. */
    ghost predicate Valid()
      reads this
    {
      forall k :: k in entries ==> StartsWith(k, CachePrefix) && entries[k].ttl == Ttl() > 0
    }

    constructor (config: SessionConfig, lifetimeMinutes: int)
      ensures Valid() && this.config == config && this.lifetimeMinutes == lifetimeMinutes && entries == map[]
    {
      this.config := config;
      this.lifetimeMinutes := lifetimeMinutes;
      entries := map[];
    }

    /** `getSessionLifetime`: minutes converted to seconds. */
    function Lifetime(): (r: int)
      ensures r == lifetimeMinutes * 60
    {
      lifetimeMinutes * 60
    }

    /** The time-to-live of stored metadata: five minutes past the lifetime. */
    function Ttl(): (r: int)
      ensures r == Lifetime() + 300
    {
      Lifetime() + 300
    }

    function WarningTime(): int {
      config.timeoutWarning.GetOr(300)
    }

    function RefreshInterval(): int {
      config.refreshInterval.GetOr(1800)
    }

    /** `getSessionMetadata` at time `now`: nothing once the entry's TTL has
        run out. */
    function Stored(sessionId: string, now: int): Option<Metadata>
      reads this
    {
      var k := MetadataKey(sessionId);
      if k in entries && Unexpired(entries[k], now) then Some(entries[k].data) else None
    }

    /** `Cache::put($key, $data, $ttl)` at `now`; Laravel's cache forgets the
        key instead when the TTL is not positive. */
    function PutEntry(before: map<string, Entry>, k: string, data: Metadata, now: int): map<string, Entry> {
      if Ttl() > 0 then before[k := Entry(data, now, Ttl())] else before - {k}
    }

    /** `isValid`, with `hasToken` for `Session::has('_token')`. */
    function IsValid(hasToken: bool, sessionId: string, now: int): (b: bool)
      reads this
      ensures b ==> hasToken && Present(Stored(sessionId, now))
    {
      hasToken && Present(Stored(sessionId, now))
      && now - LastActivity(Stored(sessionId, now).value) < Lifetime()
    }

    /** `getTimeoutInfo`. */
    function GetTimeoutInfo(sessionId: string, now: int): (t: TimeoutInfo)
      reads this
      ensures !Present(Stored(sessionId, now)) ==> t == TimeoutInfo(true, 0, true, None, None)
      ensures Present(Stored(sessionId, now)) ==>
        var remaining := Lifetime() - (now - LastActivity(Stored(sessionId, now).value));
        (t.expired <==> remaining <= 0) && t.timeRemaining == Max(0, remaining)
        && (t.warning <==> 0 < remaining <= WarningTime())
        && !(t.expired && t.warning)
        && t.autoRefreshEnabled == Some(config.autoRefresh.GetOr(true))
        && t.nextRefresh == Some(GetNextRefreshTime(sessionId, now))
      ensures t.timeRemaining >= 0
    {
      var m := Stored(sessionId, now);
      if !Present(m) then TimeoutInfo(true, 0, true, None, None)
      else
        var remaining := Lifetime() - (now - LastActivity(m.value));
        TimeoutInfo(remaining <= 0, Max(0, remaining), remaining <= WarningTime() && remaining > 0,
                    Some(config.autoRefresh.GetOr(true)), Some(GetNextRefreshTime(sessionId, now)))
    }

    /** With the token present, the timeout report calls the session expired
        exactly when `isValid` rejects it, with or without metadata. */
    lemma ExpiredAgreesWithValidity(sessionId: string, now: int)
      ensures GetTimeoutInfo(sessionId, now).expired == !IsValid(true, sessionId, now)
    {
    }

    /** `getNextRefreshTime`: the last refresh, else the last activity, else
        now, plus the refresh interval. */
    function GetNextRefreshTime(sessionId: string, now: int): (r: int)
      reads this
      ensures var m := Stored(sessionId, now);
        (m.Some? && m.value.refreshedAt.Some? ==> r == m.value.refreshedAt.value + RefreshInterval())
        && (m.Some? && m.value.refreshedAt.None? && m.value.lastActivity.Some? ==>
              r == m.value.lastActivity.value + RefreshInterval())
        && (m.None? || (m.value.refreshedAt.None? && m.value.lastActivity.None?) ==> r == now + RefreshInterval())
    {
      var m := Stored(sessionId, now);
      var last :=
        if m.Some? && m.value.refreshedAt.Some? then m.value.refreshedAt.value
        else if m.Some? && m.value.lastActivity.Some? then m.value.lastActivity.value
        else now;
      last + RefreshInterval()
    }

    /** `getTimeoutRedirectUrl`: the login page by the request path's prefix,
        each defaulting to `/login`. */
    function GetTimeoutRedirectUrl(path: string): (url: string)
      ensures StartsWith(path, "admin") ==> url == config.adminLoginUrl.GetOr("/login")
      ensures !StartsWith(path, "admin") && StartsWith(path, "member") ==> url == config.memberLoginUrl.GetOr("/login")
      ensures !StartsWith(path, "admin") && !StartsWith(path, "member") ==> url == config.loginUrl.GetOr("/login")
    {
      if StartsWith(path, "admin") then config.adminLoginUrl.GetOr("/login")
      else if StartsWith(path, "member") then config.memberLoginUrl.GetOr("/login")
      else config.loginUrl.GetOr("/login")
    }

    /** The prefix test is on characters, not segments: `administrators`
        counts as an admin path and `members-area` as a member path. */
    lemma RedirectByCharacterPrefix()
      ensures GetTimeoutRedirectUrl("administrators") == config.adminLoginUrl.GetOr("/login")
      ensures GetTimeoutRedirectUrl("members-area") == config.memberLoginUrl.GetOr("/login")
    {
      assert "administrators"[..5] == "admin";
      assert "members-area"[..6] == "member";
      assert "members-area"[..5] != "admin" by {
        assert "members-area"[0] != "admin"[0];
      }
    }

    /** `storeSessionMetadata` at time `now`: afterwards `Cache::get` returns
        the data until the TTL runs out, and nothing after. */
    method StoreSessionMetadata(sessionId: string, data: Metadata, now: int)
      requires Valid()
      modifies this
      ensures Valid()
      ensures entries == PutEntry(old(entries), MetadataKey(sessionId), data, now)
      ensures forall t :: Stored(sessionId, t) == if Ttl() > 0 && t - now < Ttl() then Some(data) else None
    {
      if Ttl() > 0 {
        entries := entries[MetadataKey(sessionId) := Entry(data, now, Ttl())];
      } else {
        entries := entries - {MetadataKey(sessionId)};
      }
    }

    /** `initialize`: stores fresh metadata stamped `now`, after which the
        session is valid for a positive lifetime. */
    method Initialize(sessionId: string, now: int, token: string) returns (data: Metadata)
      requires Valid()
      modifies this
      ensures Valid()
      ensures data.lastActivity == Some(now) && data.refreshedAt == None
      ensures entries == PutEntry(old(entries), MetadataKey(sessionId), data, now)
      ensures Lifetime() > 0 ==> IsValid(true, sessionId, now)
      ensures GetNextRefreshTime(sessionId, now) == now + RefreshInterval()
      ensures forall t :: t - now >= Ttl() ==> GetTimeoutInfo(sessionId, t) == TimeoutInfo(true, 0, true, None, None)
    {
      data := Metadata(Some(now), None, map["csrf_token" := token, "session_id" := sessionId]);
      StoreSessionMetadata(sessionId, data, now);
    }

    /** `refresh`: a regenerated token and metadata stamped `now` as both
        activity and refresh time; when regenerating fails, nothing is stored
        and the login URL is returned. */
    method Refresh(sessionId: string, now: int, newToken: string, fails: bool) returns (r: RefreshResult)
      requires Valid()
      modifies this
      ensures Valid()
      ensures fails ==> r == RefreshFailed(config.loginUrl.GetOr("/login")) && entries == old(entries)
      ensures !fails ==> r == Refreshed(newToken, now)
      ensures !fails ==> entries == PutEntry(old(entries), MetadataKey(sessionId),
        Metadata(Some(now), Some(now), map["csrf_token" := newToken, "session_id" := sessionId]), now)
      ensures !fails && Ttl() > 0 ==> forall t :: t - now < Ttl() ==> GetNextRefreshTime(sessionId, t) == now + RefreshInterval()
    {
      if fails {
        return RefreshFailed(config.loginUrl.GetOr("/login"));
      }
      var data := Metadata(Some(now), Some(now), map["csrf_token" := newToken, "session_id" := sessionId]);
      StoreSessionMetadata(sessionId, data, now);
      r := Refreshed(newToken, now);
    }

    /** `updateActivity`: with metadata, only `last_activity` changes (and
        the entry's TTL restarts); without, nothing changes. */
    method UpdateActivity(sessionId: string, now: int) returns (updated: bool)
      requires Valid()
      modifies this
      ensures Valid()
      ensures updated == Present(old(Stored(sessionId, now)))
      ensures !updated ==> entries == old(entries)
      ensures updated ==> entries == PutEntry(old(entries), MetadataKey(sessionId),
        old(Stored(sessionId, now)).value.(lastActivity := Some(now)), now)
      ensures updated && Lifetime() > 0 ==> IsValid(true, sessionId, now) && !GetTimeoutInfo(sessionId, now).expired
    {
      var m := Stored(sessionId, now);
      if Present(m) {
        StoreSessionMetadata(sessionId, m.value.(lastActivity := Some(now)), now);
        return true;
      }
      return false;
    }

    /** `clearSessionMetadata` followed by the redirect choice, as
        `handleTimeout` does; afterwards the session is invalid. */
    method HandleTimeout(sessionId: string, path: string) returns (redirect: string)
      requires Valid()
      modifies this
      ensures Valid()
      ensures entries == old(entries) - {MetadataKey(sessionId)}
      ensures redirect == GetTimeoutRedirectUrl(path)
      ensures forall h, t :: !IsValid(h, sessionId, t)
    {
      entries := entries - {MetadataKey(sessionId)};
      redirect := GetTimeoutRedirectUrl(path);
    }

    /** `forceLogout`: the metadata is cleared first, so it is gone even when
        the later logout steps fail; a failure redirects to `/login`. */
    method ForceLogout(sessionId: string, path: string, fails: bool) returns (success: bool, redirect: string)
      requires Valid()
      modifies this
      ensures Valid()
      ensures entries == old(entries) - {MetadataKey(sessionId)}
      ensures success == !fails
      ensures redirect == if fails then "/login" else GetTimeoutRedirectUrl(path)
    {
      entries := entries - {MetadataKey(sessionId)};
      success := !fails;
      redirect := if fails then "/login" else GetTimeoutRedirectUrl(path);
    }

    /** `cleanup` over the keys the cache reports. `redisStore` says whether
        the configured cache store is Redis: on any other store
        `Cache::getRedis()` raises an `\Error`, which `catch (\Exception)`
        does not catch, so `cleanup` throws (`thrown`) and nothing changes.
        `keysFail` is a Redis `keys` call that raises an `\Exception`, which
        is caught and reported as 0. Otherwise exactly the stale entries are
        removed and counted; an entry exactly `lifetime` old is invalid but
        stays. */
    method Cleanup(keys: seq<string>, now: int, redisStore: bool, keysFail: bool) returns (cleaned: nat, thrown: bool)
      requires Valid()
      modifies this
      ensures Valid()
      ensures thrown <==> !redisStore
      ensures thrown ==> entries == old(entries)
      ensures !thrown && keysFail ==> cleaned == 0 && entries == old(entries)
      ensures !thrown && !keysFail ==> entries == old(entries) - StaleKeys(old(entries), keys, now, Lifetime())
      ensures !thrown && !keysFail ==> cleaned == |StaleKeys(old(entries), keys, now, Lifetime())|
    {
      cleaned := 0;
      thrown := !redisStore;
      if thrown || keysFail {
        return;
      }
      ghost var before := entries;
      ghost var removed: set<string> := {};
      var i := 0;
      while i < |keys|
        invariant 0 <= i <= |keys|
        invariant removed == StaleKeys(before, keys[..i], now, Lifetime())
        invariant entries == before - removed
        invariant cleaned == |removed|
      {
        var key := keys[i];
        CleanupStep(before, removed, keys, i, now, Lifetime());
        if key in entries && IsStale(entries[key], now, Lifetime()) {
          entries := entries - {key};
          cleaned := cleaned + 1;
          removed := removed + {key};
        }
        i := i + 1;
      }
      assert keys[..|keys|] == keys;
      assert forall k :: k in entries ==> k in before && entries[k] == before[k];
    }

    /** `getStatistics`: one count per listed key, with a zeroed report when
        a Redis store refuses to list keys, and `None` (the uncaught
        `\Error` of `Cache::getRedis()`) on any other cache store. */
    method GetStatistics(keys: seq<string>, now: int, redisStore: bool, keysFail: bool) returns (r: Option<Statistics>)
      ensures r.None? <==> !redisStore
      ensures r.Some? ==> r.value.active + r.value.expired <= r.value.total
      ensures r.Some? ==> (r.value.cleanupNeeded <==> r.value.expired > 0)
      ensures r.Some? && keysFail ==> r.value == Statistics(0, 0, 0, false, true)
      ensures r.Some? && !keysFail ==> r.value.total == |keys| && !r.value.failed
      ensures r.Some? && !keysFail ==> r.value.expired == CountStale(entries, keys, now, Lifetime())
      ensures r.Some? && !keysFail ==> r.value.active == CountLive(entries, keys, now, Lifetime())
    {
      if !redisStore {
        return None;
      }
      if keysFail {
        return Some(Statistics(0, 0, 0, false, true));
      }
      var active, expired := 0, 0;
      var i := 0;
      while i < |keys|
        invariant 0 <= i <= |keys|
        invariant expired == CountStale(entries, keys[..i], now, Lifetime())
        invariant active == CountLive(entries, keys[..i], now, Lifetime())
      {
        var key := keys[i];
        assert keys[..i + 1][..i] == keys[..i];
        if key in entries && Unexpired(entries[key], now) {
          var data := entries[key].data;
          if Present(Some(data)) && data.lastActivity.Some? {
            var age := now - data.lastActivity.value;
            if age > Lifetime() {
              expired := expired + 1;
            } else {
              active := active + 1;
            }
          }
        }
        i := i + 1;
      }
      assert keys[..|keys|] == keys;
      CountsBounded(entries, keys, now, Lifetime());
      r := Some(Statistics(|keys|, active, expired, expired > 0, false));
    }

    /** An entry whose age equals the lifetime is kept by cleanup although
        `isValid` already rejects its session. */
    lemma BoundaryAgeKeptButInvalid(sessionId: string, now: int)
      requires Present(Stored(sessionId, now)) && Stored(sessionId, now).value.lastActivity.Some?
      requires now - Stored(sessionId, now).value.lastActivity.value == Lifetime()
      ensures MetadataKey(sessionId) !in StaleKeys(entries, [MetadataKey(sessionId)], now, Lifetime())
      ensures !IsValid(true, sessionId, now)
    {
    }
  }
}
