/** Whole-string wildcard matching as produced by the two route allowlists:
    the service worker's `new RegExp('^' + p.replace(/\*\/g, '.*') + '$')` and
    Laravel's `Str::is`, which quotes the pattern and turns each `*` into `.*`.
    In both, `.*` cannot cross a line terminator (no `s` flag). */
module Glob {
  import opened Text

  /** `pat` matches all of `s`: `*` stands for any run of characters outside
      `stops`; when `dotAny` holds, `.` stands for one character outside
      `stops`; every other character stands for itself. */
  predicate Matches(pat: string, s: string, dotAny: bool, stops: set<char>)
    decreases |pat| + |s|
  {
    if pat == [] then s == []
    else if pat[0] == '*' then
      Matches(pat[1..], s, dotAny, stops)
      || (s != [] && s[0] !in stops && Matches(pat, s[1..], dotAny, stops))
    else
      s != []
      && (if dotAny && pat[0] == '.' then s[0] !in stops else s[0] == pat[0])
      && Matches(pat[1..], s[1..], dotAny, stops)
  }

  /** A pattern without wildcard characters. */
  predicate Literal(pat: string, dotAny: bool) {
    '*' !in pat && (dotAny ==> '.' !in pat)
  }

  /** No character of `s` is a stop character. */
  predicate Free(s: string, stops: set<char>) {
    forall i :: 0 <= i < |s| ==> s[i] !in stops
  }

  /** ECMAScript line terminators, which `.` does not match without the `s` flag. */
  const JsLineTerminators: set<char> := {'\n', '\r', '\U{2028}', '\U{2029}'}

  /** The characters besides `*` and `.` that a JavaScript regular
      expression gives a meaning. `Matches` reads them literally, so what it
      says about a pattern holds for the worker's regular expression only
      when the pattern is free of them. */
  const RegexSpecials: set<char> := {'?', '+', '(', ')', '[', ']', '{', '}', '|', '^', '$', '\\'}

  /** PCRE's default newline, which `.` does not match without the `s` flag. */
  const PcreNewlines: set<char> := {'\n'}

  /** A pattern without wildcards matches exactly itself. */
  lemma {:induction false} LiteralMatchesItself(pat: string, s: string, dotAny: bool, stops: set<char>)
    requires Literal(pat, dotAny)
    ensures Matches(pat, s, dotAny, stops) <==> s == pat
    decreases |pat|
  {
    if pat != [] {
      assert '*' !in pat[1..] && (dotAny ==> '.' !in pat[1..]) by {
        forall c | c in pat[1..] ensures c in pat { }
      }
      if s != [] {
        LiteralMatchesItself(pat[1..], s[1..], dotAny, stops);
        assert s == pat <==> s[0] == pat[0] && s[1..] == pat[1..] by {
          if s[0] == pat[0] && s[1..] == pat[1..] {
            assert s == [s[0]] + s[1..];
            assert pat == [pat[0]] + pat[1..];
          }
        }
      }
    }
  }

  /** A lone `*` matches exactly the strings without stop characters. */
  lemma {:induction false} StarMatchesFree(s: string, dotAny: bool, stops: set<char>)
    ensures Matches("*", s, dotAny, stops) <==> Free(s, stops)
    decreases |s|
  {
    assert "*"[1..] == [];
    if s != [] {
      StarMatchesFree(s[1..], dotAny, stops);
      assert Free(s, stops) <==> s[0] !in stops && Free(s[1..], stops) by {
        if s[0] !in stops && Free(s[1..], stops) {
          forall i | 0 <= i < |s| ensures s[i] !in stops {
            if i > 0 { assert s[i] == s[1..][i - 1]; }
          }
        }
      }
    }
  }

  /** A literal prefix followed by one `*` matches exactly the strings that
      start with the prefix and continue without stop characters. */
  lemma {:induction false} PrefixStarMatches(q: string, s: string, dotAny: bool, stops: set<char>)
    requires Literal(q, dotAny)
    ensures Matches(q + "*", s, dotAny, stops) <==> StartsWith(s, q) && Free(s[|q|..], stops)
    decreases |q|
  {
    if q == [] {
      assert q + "*" == "*";
      StarMatchesFree(s, dotAny, stops);
    } else {
      assert (q + "*")[1..] == q[1..] + "*";
      assert '*' !in q[1..] && (dotAny ==> '.' !in q[1..]) by {
        forall c | c in q[1..] ensures c in q { }
      }
      if s != [] {
        PrefixStarMatches(q[1..], s[1..], dotAny, stops);
        if |q| <= |s| { assert s[1..][|q| - 1..] == s[|q|..]; }
        assert StartsWith(s, q) <==> s[0] == q[0] && StartsWith(s[1..], q[1..]) by {
          if s[0] == q[0] && StartsWith(s[1..], q[1..]) {
            assert s[..|q|] == [s[0]] + s[1..][..|q| - 1];
            assert q == [q[0]] + q[1..];
          }
        }
      }
    }
  }

  /** JavaScript `new RegExp('^' + pat.replace(/\*\/g, '.*') + '$').test(s)`:
      `.` in the pattern is the regular-expression wildcard. */
  predicate RegexWildcardTest(pat: string, s: string) {
    Matches(pat, s, true, JsLineTerminators)
  }

  /** Laravel `Str::is($pat, $s)`: equal strings match; otherwise the quoted
      pattern with `*` as `.*` must match the whole value. */
  predicate StrIs(pat: string, s: string) {
    pat == s || Matches(pat, s, false, PcreNewlines)
  }
}
