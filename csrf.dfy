/** Extraction of a CSRF token from a page, as both the template service worker
    and the public client script do it with
    `html.match(/name="csrf-token" content="([^"]+)"/)`: the leftmost position
    where the attribute text is followed by one or more non-quote characters and
    a closing quote; the capture is that run of characters. */
module Csrf {
  import opened Wrappers
  import opened Text

  /** The literal text before the captured token. */
  const MetaPrefix: string := "name=\"csrf-token\" content=\""

  /** Length of the leading run of characters other than `"`. */
  function QuoteFreeRun(s: string): (n: nat)
    ensures n <= |s|
    ensures forall k :: 0 <= k < n ==> s[k] != '"'
    ensures n < |s| ==> s[n] == '"'
  {
    if s == [] || s[0] == '"' then 0 else 1 + QuoteFreeRun(s[1..])
  }

  /** The regular expression matches at index `i`, capturing `t`. */
  predicate TokenMatchAt(html: string, i: nat, t: string) {
    OccursAt(html, MetaPrefix + t + "\"", i) && t != [] && '"' !in t
  }

  /** The capture of a match starting at index `i`, if the expression matches there. */
  function TokenAt(html: string, i: nat): (r: Option<string>)
    ensures r.Some? ==> TokenMatchAt(html, i, r.value)
    ensures r.None? ==> forall t :: !TokenMatchAt(html, i, t)
  {
    if !OccursAt(html, MetaPrefix, i) then
      MatchesHaveRun(html, i);
      None
    else
      var rest := html[i + |MetaPrefix|..];
      var n := QuoteFreeRun(rest);
      if 0 < n < |rest| then
        assert html[i..i + |MetaPrefix + rest[..n] + "\""|] == MetaPrefix + rest[..n] + "\"" by {
          assert html[i..i + |MetaPrefix|] == MetaPrefix;
          assert rest[..n + 1] == rest[..n] + "\"";
          assert html[i..i + |MetaPrefix| + n + 1] == html[i..i + |MetaPrefix|] + rest[..n + 1];
        }
        assert '"' !in rest[..n] by {
          forall k | 0 <= k < n ensures rest[..n][k] != '"' { }
        }
        Some(rest[..n])
      else
        MatchesHaveRun(html, i);
        None
  }

  /** Every match at `i` starts with the prefix and is followed by a
      non-empty quote-free run that a quote ends. */
  lemma MatchesHaveRun(html: string, i: nat)
    ensures forall t :: TokenMatchAt(html, i, t) ==>
      OccursAt(html, MetaPrefix, i) && 0 < QuoteFreeRun(html[i + |MetaPrefix|..]) < |html[i + |MetaPrefix|..]|
  {
    forall t | TokenMatchAt(html, i, t)
      ensures OccursAt(html, MetaPrefix, i) && 0 < QuoteFreeRun(html[i + |MetaPrefix|..]) < |html[i + |MetaPrefix|..]|
    {
      CaptureIsRun(html, i, t);
      assert html[i..i + |MetaPrefix|] == html[i..i + |MetaPrefix + t + "\""|][..|MetaPrefix|];
    }
  }

  /** A capture at `i` is exactly the quote-free run after the prefix. */
  lemma CaptureIsRun(html: string, i: nat, t: string)
    requires TokenMatchAt(html, i, t)
    ensures i + |MetaPrefix| <= |html|
    ensures var rest := html[i + |MetaPrefix|..]; QuoteFreeRun(rest) == |t| && |t| < |rest| && rest[..|t|] == t
  {
    var w := MetaPrefix + t + "\"";
    var rest := html[i + |MetaPrefix|..];
    assert html[i..i + |w|] == w;
    forall k | 0 <= k <= |t| ensures rest[k] == w[|MetaPrefix| + k] {
      assert rest[k] == html[i + |MetaPrefix| + k];
      assert html[i..i + |w|][|MetaPrefix| + k] == html[i + |MetaPrefix| + k];
    }
    assert rest[..|t|] == t by {
      forall k | 0 <= k < |t| ensures rest[k] == t[k] {
        assert w[|MetaPrefix| + k] == t[k];
      }
    }
    RunOfQuoteFree(rest, t);
  }

  lemma {:induction false} RunOfQuoteFree(s: string, t: string)
    requires |t| < |s| && s[..|t|] == t && '"' !in t && s[|t|] == '"'
    ensures QuoteFreeRun(s) == |t|
    decreases |t|
  {
    if t != [] {
      assert s[0] == t[0];
      assert s[1..][..|t| - 1] == t[1..];
      assert '"' !in t[1..] by {
        forall c | c in t[1..] ensures c in t { }
      }
      RunOfQuoteFree(s[1..], t[1..]);
    }
  }

  /** The expression matches at `j`, capturing `t`, and at no index from
      `from` up to `j`. */
  ghost predicate LeftmostMatch(html: string, from: nat, j: nat, t: string) {
    from <= j && TokenMatchAt(html, j, t) && forall k: nat, u :: from <= k < j ==> !TokenMatchAt(html, k, u)
  }

  /** The leftmost match at or after index `i`. */
  function ExtractFrom(html: string, i: nat): (r: Option<string>)
    decreases |html| + 1 - i
    ensures r.Some? ==> exists j: nat :: LeftmostMatch(html, i, j, r.value)
    ensures r.None? ==> forall j: nat, t :: i <= j ==> !TokenMatchAt(html, j, t)
  {
    if |html| < i then
      assert forall j: nat, t :: i <= j ==> !TokenMatchAt(html, j, t) by {
        forall j: nat, t | i <= j && TokenMatchAt(html, j, t) ensures false { }
      }
      None
    else
      match TokenAt(html, i)
      case Some(t) =>
        assert LeftmostMatch(html, i, i, t);
        Some(t)
      case None =>
        var r := ExtractFrom(html, i + 1);
        assert r.Some? ==> exists j: nat :: LeftmostMatch(html, i, j, r.value) by {
          if r.Some? {
            var j: nat :| LeftmostMatch(html, i + 1, j, r.value);
            assert LeftmostMatch(html, i, j, r.value);
          }
        }
        r
  }

  /** `html.match(...)?.[1]`: the capture of the leftmost match, or `None`
      when nothing matches. */
  function ExtractToken(html: string): (r: Option<string>)
    ensures r.Some? ==> r.value != [] && '"' !in r.value && Contains(html, MetaPrefix + r.value + "\"")
    ensures r.Some? ==> exists j: nat :: LeftmostMatch(html, 0, j, r.value)
    ensures r.None? <==> forall j: nat, t :: !TokenMatchAt(html, j, t)
  {
    var r := ExtractFrom(html, 0);
    assert r.Some? ==> Contains(html, MetaPrefix + r.value + "\"") by {
      if r.Some? {
        var j: nat :| LeftmostMatch(html, 0, j, r.value);
        assert j <= |html|;
      }
    }
    r
  }

  /** The tag Laravel layouts render, `<meta name="csrf-token" content="...">`,
      yields its token. */
  lemma {:induction false} MetaTagYieldsToken(t: string, tail: string)
    requires t != [] && '"' !in t
    ensures ExtractToken("<meta " + MetaPrefix + t + "\">" + tail) == Some(t)
  {
    var html := "<meta " + MetaPrefix + t + "\">" + tail;
    forall j: nat | j < 6 ensures !OccursAt(html, MetaPrefix, j) {
      assert html[j] == "<meta "[j];
      assert MetaPrefix[0] == 'n';
    }
    assert html[6..] == MetaPrefix + t + "\">" + tail;
    assert TokenMatchAt(html, 6, t) by {
      assert html[6..6 + |MetaPrefix + t + "\""|] == MetaPrefix + t + "\"";
    }
    CaptureIsRun(html, 6, t);
    assert ExtractFrom(html, 0) == ExtractFrom(html, 1) == ExtractFrom(html, 2) == ExtractFrom(html, 3)
      == ExtractFrom(html, 4) == ExtractFrom(html, 5) == ExtractFrom(html, 6);
  }
}
