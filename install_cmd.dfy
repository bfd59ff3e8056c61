/** The text rewriting `af-pwa:install` does (src/Console/InstallCommand.php):
    setting keys in `.env`, substituting the chosen routes into the
    `'pwa_routes'` array of `config/af-pwa.php`, and collecting those routes
    from the user's answers. File contents are strings passed in and out
    (`None` for a missing file); the prompts' answers are input sequences. */
module InstallCommand {
  import opened Wrappers
  import opened Text

  // ---------------------------------------------------------------- lines

  /** The lines of `s`, split at each `\n`; there is always at least one. */
  function Lines(s: string): (r: seq<string>)
    ensures |r| >= 1
    ensures forall i :: 0 <= i < |r| ==> '\n' !in r[i]
    decreases |s|
  {
    if s == [] then [""]
    else if s[0] == '\n' then [""] + Lines(s[1..])
    else
      var rest := Lines(s[1..]);
      [[s[0]] + rest[0]] + rest[1..]
  }

  /** The lines joined back with `\n`. */
  function Unlines(ls: seq<string>): string
    requires |ls| >= 1
    decreases |ls|
  {
    if |ls| == 1 then ls[0] else ls[0] + "\n" + Unlines(ls[1..])
  }

  lemma {:induction false} UnlinesCons(c: char, ls: seq<string>)
    requires |ls| >= 1
    ensures Unlines([[c] + ls[0]] + ls[1..]) == [c] + Unlines(ls)
    decreases |ls|
  {
    var ms := [[c] + ls[0]] + ls[1..];
    if |ls| > 1 {
      assert ms[1..] == ls[1..];
    }
  }

  /** Splitting and joining gives the text back. */
  lemma {:induction false} UnlinesLines(s: string)
    ensures Unlines(Lines(s)) == s
    decreases |s|
  {
    if s == [] {
    } else if s[0] == '\n' {
      UnlinesLines(s[1..]);
      assert ([""] + Lines(s[1..]))[1..] == Lines(s[1..]);
      assert s == "\n" + s[1..];
    } else {
      var rest := Lines(s[1..]);
      UnlinesLines(s[1..]);
      UnlinesCons(s[0], rest);
      assert s == [s[0]] + s[1..];
    }
  }

  /** Joining lines that hold no `\n` and splitting again gives the lines
      back. */
  lemma {:induction false} LinesUnlines(ls: seq<string>)
    requires |ls| >= 1 && forall i :: 0 <= i < |ls| ==> '\n' !in ls[i]
    ensures Lines(Unlines(ls)) == ls
    decreases |ls|
  {
    if |ls| == 1 {
      LinesOfLine(ls[0]);
    } else {
      LinesUnlines(ls[1..]);
      LinesJoin(ls[0], Unlines(ls[1..]));
      assert ls == [ls[0]] + ls[1..];
    }
  }

  lemma {:induction false} LinesOfLine(l: string)
    requires '\n' !in l
    ensures Lines(l) == [l]
    decreases |l|
  {
    if l != [] {
      LinesOfLine(l[1..]);
      assert l == [l[0]] + l[1..];
    }
  }

  /** A line without `\n`, a `\n`, and more text split into that line and
      the text's lines. */
  lemma {:induction false} LinesJoin(l: string, t: string)
    requires '\n' !in l
    ensures Lines(l + "\n" + t) == [l] + Lines(t)
    decreases |l|
  {
    var s := l + "\n" + t;
    if l == [] {
      assert s[1..] == t;
    } else {
      assert s[1..] == l[1..] + "\n" + t;
      LinesJoin(l[1..], t);
      assert [l[0]] + l[1..] == l;
    }
  }

  /** Text, a `\n` and more text split into the lines of both, the last line
      of the first and the first of the second kept apart. */
  lemma {:induction false} LinesAppend(s: string, t: string)
    ensures Lines(s + "\n" + t) == Lines(s) + Lines(t)
    decreases |s|
  {
    var u := s + "\n" + t;
    if s == [] {
      assert u[1..] == t;
    } else if s[0] == '\n' {
      assert u[1..] == s[1..] + "\n" + t;
      LinesAppend(s[1..], t);
    } else {
      assert u[1..] == s[1..] + "\n" + t;
      LinesAppend(s[1..], t);
      var rest := Lines(s[1..]);
      assert Lines(s[1..] + "\n" + t) == rest + Lines(t);
      assert (rest + Lines(t))[0] == rest[0];
      assert (rest + Lines(t))[1..] == rest[1..] + Lines(t);
    }
  }

  // ---------------------------------------------------------------- .env

  /** A value passed to `updateEnvFile`: strings are written in double
      quotes (with no escaping), anything else as PHP prints it. */
  datatype EnvValue = Text(s: string) | Printed(p: string)

  function Print(v: EnvValue): string {
    match v
    case Text(s) => "\"" + s + "\""
    case Printed(p) => p
  }

  /** Every line that starts with `prefix` becomes `line`; the others stay. */
  function RewriteLines(ls: seq<string>, prefix: string, line: string): (r: seq<string>)
    ensures |r| == |ls|
    ensures forall i :: 0 <= i < |ls| ==> r[i] == (if StartsWith(ls[i], prefix) then line else ls[i])
  {
    seq(|ls|, i requires 0 <= i < |ls| => if StartsWith(ls[i], prefix) then line else ls[i])
  }

  /** One key of `updateEnvFile`: when `KEY=` occurs anywhere, the
      multi-line replacement of `^KEY=.*$` rewrites every line that begins
      with it; otherwise `\nKEY=value` is appended. */
  function SetEnv(content: string, key: string, v: EnvValue): (r: string)
    ensures Contains(content, key + "=") && '\n' !in key + "=" + Print(v) ==>
              Lines(r) == RewriteLines(Lines(content), key + "=", key + "=" + Print(v))
    ensures !Contains(content, key + "=") ==> StartsWith(r, content + "\n") && EndsWith(r, key + "=" + Print(v))
  {
    var line := key + "=" + Print(v);
    if Contains(content, key + "=") then
      var ls := RewriteLines(Lines(content), key + "=", line);
      if '\n' !in line then LinesUnlines(ls); Unlines(ls) else Unlines(ls)
    else content + "\n" + line
  }

  /** `KEY=` only in the middle of lines (`OTHER_KEY=` for `KEY`): the file
      is left exactly as it was and the key is not added. */
  lemma MidLineOnlyIsNoOp(content: string, key: string, v: EnvValue)
    requires Contains(content, key + "=")
    requires forall l :: l in Lines(content) ==> !StartsWith(l, key + "=")
    ensures SetEnv(content, key, v) == content
  {
    var ls := Lines(content);
    assert RewriteLines(ls, key + "=", key + "=" + Print(v)) == ls;
    UnlinesLines(content);
  }

  /** The lines of the result: each line that began with `KEY=` is now the
      new assignment and the others are untouched; a file without `KEY=`
      gains the assignment as a new last line. */
  lemma SetEnvLines(content: string, key: string, v: EnvValue)
    requires '\n' !in key + "=" + Print(v)
    ensures var ls := Lines(content);
            var line := key + "=" + Print(v);
            Lines(SetEnv(content, key, v)) ==
              if Contains(content, key + "=") then RewriteLines(ls, key + "=", line) else ls + [line]
  {
    var ls := Lines(content);
    var line := key + "=" + Print(v);
    if Contains(content, key + "=") {
      LinesUnlines(RewriteLines(ls, key + "=", line));
    } else {
      LinesAppend(content, line);
      LinesOfLine(line);
    }
  }

  /** Setting the same key to the same value twice is the same as setting it
      once, so re-running the installer leaves `.env` as it was. */
  lemma SetEnvIdempotent(content: string, key: string, v: EnvValue)
    requires '\n' !in key + "=" + Print(v)
    ensures SetEnv(SetEnv(content, key, v), key, v) == SetEnv(content, key, v)
  {
    var k, line := key + "=", key + "=" + Print(v);
    var once := SetEnv(content, key, v);
    SetEnvLines(content, key, v);
    var ls, ms := Lines(content), Lines(once);
    assert StartsWith(line, k);
    if Contains(content, k) {
      if j :| 0 <= j < |ls| && StartsWith(ls[j], k) {
        ContainsLine(once, j, k);
      } else {
        MidLineOnlyIsNoOp(content, key, v);
      }
    } else {
      ContainsLine(once, |ms| - 1, k);
    }
    var again := RewriteLines(ms, k, line);
    forall i | 0 <= i < |ms| ensures again[i] == ms[i] {
      if i < |ls| && !Contains(content, k) && StartsWith(ls[i], k) {
        ContainsLine(content, i, k);
      }
    }
    assert again == ms;
    UnlinesLines(once);
  }

  /** A line of `s` that starts with `p` is an occurrence of `p` in `s`. */
  lemma {:induction false} ContainsLine(s: string, i: nat, p: string)
    requires i < |Lines(s)| && StartsWith(Lines(s)[i], p)
    ensures Contains(s, p)
    decreases |s|
  {
    var ls := Lines(s);
    if s == [] {
      assert p == [];
      assert OccursAt(s, p, 0);
    } else if s[0] == '\n' {
      if i == 0 {
        assert p == [];
        assert OccursAt(s, p, 0);
      } else {
        ContainsLine(s[1..], i - 1, p);
        var k: nat :| k <= |s[1..]| && OccursAt(s[1..], p, k);
        assert s[1..][k..k + |p|] == s[k + 1..k + 1 + |p|];
        assert OccursAt(s, p, k + 1);
      }
    } else {
      var rest := Lines(s[1..]);
      if i == 0 {
        if p != [] {
          assert ls[0] == [s[0]] + rest[0];
          assert StartsWith(rest[0], p[1..]);
          ContainsLineStart(s[1..], p[1..]);
          assert s[..|p|] == [s[0]] + s[1..][..|p| - 1];
          assert p == [p[0]] + p[1..];
          assert OccursAt(s, p, 0);
        } else {
          assert OccursAt(s, p, 0);
        }
      } else {
        assert ls[i] == rest[i];
        ContainsLine(s[1..], i, p);
        var k: nat :| k <= |s[1..]| && OccursAt(s[1..], p, k);
        assert s[1..][k..k + |p|] == s[k + 1..k + 1 + |p|];
        assert OccursAt(s, p, k + 1);
      }
    }
  }

  /** The first line starting with `p` means `s` starts with `p`. */
  lemma {:induction false} ContainsLineStart(s: string, p: string)
    requires StartsWith(Lines(s)[0], p)
    ensures StartsWith(s, p)
    decreases |s|
  {
    if p != [] && s != [] && s[0] != '\n' {
      var rest := Lines(s[1..]);
      assert Lines(s)[0] == [s[0]] + rest[0];
      assert StartsWith(rest[0], p[1..]);
      ContainsLineStart(s[1..], p[1..]);
      assert s[..|p|] == [s[0]] + s[1..][..|p| - 1];
      assert p == [p[0]] + p[1..];
    }
  }

  /** The `.env` text after each key in turn has been set. */
  function EnvAfter(content: string, values: seq<(string, EnvValue)>): string
    decreases |values|
  {
    if values == [] then content
    else
      var last := values[|values| - 1];
      SetEnv(EnvAfter(content, values[..|values| - 1]), last.0, last.1)
  }

  /** `updateEnvFile($values)`: nothing happens without a `.env`; otherwise
      the keys are applied one after another, in the order given. */
  method UpdateEnvFile(env: Option<string>, values: seq<(string, EnvValue)>) returns (r: Option<string>)
    ensures env.None? ==> r.None?
    ensures env.Some? ==> r == Some(EnvAfter(env.value, values))
  {
    if env.None? {
      return None;
    }
    var content := env.value;
    for i := 0 to |values|
      invariant content == EnvAfter(env.value, values[..i])
    {
      assert values[..i + 1][..i] == values[..i];
      content := SetEnv(content, values[i].0, values[i].1);
    }
    assert values[..|values|] == values;
    return Some(content);
  }

  /** Setting a key the file does not mention yet: no line began with
      `KEY=`, and the assignment becomes the new last line. */
  lemma SetNewKey(content: string, key: string, v: EnvValue)
    requires !Contains(content, key + "=")
    requires '\n' !in key + "=" + Print(v)
    ensures Lines(SetEnv(content, key, v)) == Lines(content) + [key + "=" + Print(v)]
    ensures forall l :: l in Lines(content) ==> !StartsWith(l, key + "=")
  {
    SetEnvLines(content, key, v);
    var ls := Lines(content);
    forall l | l in ls ensures !StartsWith(l, key + "=") {
      var i :| 0 <= i < |ls| && ls[i] == l;
      if StartsWith(l, key + "=") {
        ContainsLine(content, i, key + "=");
      }
    }
  }

  lemma EnvAfterTwo(content: string, a: (string, EnvValue), b: (string, EnvValue))
    ensures EnvAfter(content, [a, b]) == SetEnv(SetEnv(content, a.0, a.1), b.0, b.1)
  {
    assert [a, b][..1] == [a];
    assert [a][..0] == [];
    assert EnvAfter(content, [a]) == SetEnv(content, a.0, a.1);
  }

  /** Setting a new key twice: the second setting finds the line the first
      one appended and rewrites the lines that begin with the key. */
  lemma SetTwiceLines(content: string, key: string, v: EnvValue, w: EnvValue)
    requires !Contains(content, key + "=")
    requires '\n' !in key + "=" + Print(v) && '\n' !in key + "=" + Print(w)
    ensures Lines(SetEnv(SetEnv(content, key, v), key, w))
         == RewriteLines(Lines(content) + [key + "=" + Print(v)], key + "=", key + "=" + Print(w))
  {
    var k, lv := key + "=", key + "=" + Print(v);
    var once := SetEnv(content, key, v);
    SetNewKey(content, key, v);
    var ms := Lines(once);
    assert StartsWith(ms[|ms| - 1], k) by { assert ms[|ms| - 1] == lv; }
    ContainsLine(once, |ms| - 1, k);
    SetEnvLines(once, key, w);
  }

  /** A key set last wins over an earlier value of the same key: after two
      settings of a key not yet in the file, its line holds the second
      value and no line holds the first. */
  lemma LaterValueWins(content: string, key: string, v: EnvValue, w: EnvValue)
    requires !Contains(content, key + "=")
    requires '\n' !in key + "=" + Print(v) && '\n' !in key + "=" + Print(w)
    requires Print(v) != Print(w)
    ensures var ls := Lines(EnvAfter(content, [(key, v), (key, w)]));
            ls[|ls| - 1] == key + "=" + Print(w) && key + "=" + Print(v) !in ls
  {
    var k, lv, lw := key + "=", key + "=" + Print(v), key + "=" + Print(w);
    EnvAfterTwo(content, (key, v), (key, w));
    SetNewKey(content, key, v);
    SetTwiceLines(content, key, v, w);
    var ls := Lines(content);
    var ns := RewriteLines(ls + [lv], k, lw);
    assert (ls + [lv])[|ls|] == lv;
    forall i | 0 <= i < |ns| ensures ns[i] != lv {
      if i < |ls| {
        assert ls[i] in ls && (ls + [lv])[i] == ls[i];
      }
    }
  }

  // ---------------------------------------------------------------- config

  /** The PHP array literal `updateConfigFile` writes for the routes: one
      quoted route per line, indented eight spaces. */
  function RoutesLiteral(routes: seq<string>): string {
    "[\n" + RouteLines(routes) + "    ]"
  }

  function RouteLines(routes: seq<string>): string
    decreases |routes|
  {
    if routes == [] then ""
    else RouteLines(routes[..|routes| - 1]) + "        '" + routes[|routes| - 1] + "',\n"
  }

  /** The literal for the default route list. */
  lemma HomeOnlyLiteral()
    ensures RoutesLiteral(["/"]) == "[\n        '/',\n    ]"
  {
    assert ["/"][..0] == [];
  }

  const RoutesKey: string := "'pwa_routes'"

  /** The end of the run of whitespace starting at `i`. */
  function SkipSpace(s: string, i: nat): (j: nat)
    requires i <= |s|
    ensures i <= j <= |s|
    ensures forall k :: i <= k < j ==> s[k] in PcreSpace
    ensures j == |s| || s[j] !in PcreSpace
    decreases |s| - i
  {
    if i < |s| && s[i] in PcreSpace then SkipSpace(s, i + 1) else i
  }

  /** The first `]` at or after `i`. */
  function CloseFrom(s: string, i: nat): (r: Option<nat>)
    requires i <= |s|
    ensures r.Some? ==> i <= r.value < |s| && s[r.value] == ']'
    ensures r.Some? ==> forall k :: i <= k < r.value ==> s[k] != ']'
    ensures r.None? ==> forall k :: i <= k < |s| ==> s[k] != ']'
    decreases |s| - i
  {
    if i == |s| then None
    else if s[i] == ']' then Some(i)
    else CloseFrom(s, i + 1)
  }

  /** A match of `('pwa_routes'\s*=>\s*)\[[^\]]*\]` starting at `i`: the
      end of the captured group and the end of the match. Each `\s*` is
      followed by a non-space character, and `[^\]]*` by `]`, so the match
      at a given start is unique. */
  function MatchAt(s: string, i: nat): (r: Option<(nat, nat)>)
    requires i <= |s|
    ensures r.Some? ==> i < r.value.0 < r.value.1 <= |s| && s[r.value.0] == '[' && s[r.value.1 - 1] == ']'
    ensures r.Some? ==> OccursAt(s, RoutesKey, i)
  {
    if !OccursAt(s, RoutesKey, i) then None
    else
      var a := SkipSpace(s, i + |RoutesKey|);
      if !OccursAt(s, "=>", a) then None
      else
        var g := SkipSpace(s, a + 2);
        if g < |s| && s[g] == '[' then
          match CloseFrom(s, g + 1)
          case Some(e) => Some((g, e + 1))
          case None => None
        else None
  }

  /** `preg_replace` of every match, scanning from `i`: a match is replaced
      by its captured group and the literal, and the scan goes on after it. */
  function ReplaceFrom(s: string, lit: string, i: nat): string
    requires i <= |s|
    decreases |s| - i
  {
    if i == |s| then []
    else
      match MatchAt(s, i)
      case Some((g, e)) => s[i..g] + lit + ReplaceFrom(s, lit, e)
      case None => [s[i]] + ReplaceFrom(s, lit, i + 1)
  }

  lemma ReplaceFromSkip(s: string, lit: string, i: nat)
    requires i < |s| && !OccursAt(s, RoutesKey, i)
    ensures ReplaceFrom(s, lit, i) == [s[i]] + ReplaceFrom(s, lit, i + 1)
  {
    assert MatchAt(s, i) == None;
  }

  /** Text with no `'pwa_routes'` from `i` on is copied unchanged. */
  lemma {:induction false} ReplaceFromNoKey(s: string, lit: string, i: nat)
    requires i <= |s|
    requires forall j: nat :: i <= j ==> !OccursAt(s, RoutesKey, j)
    ensures ReplaceFrom(s, lit, i) == s[i..]
    decreases |s| - i
  {
    if i < |s| {
      ReplaceFromSkip(s, lit, i);
      ReplaceFromNoKey(s, lit, i + 1);
      assert s[i..] == [s[i]] + s[i + 1..];
    }
  }

  /** Text with no quote before `k` is copied up to `k`. */
  lemma {:induction false} ReplaceFromQuoteFree(s: string, lit: string, i: nat, k: nat)
    requires i <= k <= |s|
    requires forall j :: i <= j < k ==> s[j] != '\''
    ensures ReplaceFrom(s, lit, i) == s[i..k] + ReplaceFrom(s, lit, k)
    decreases k - i
  {
    if i < k {
      NotOccursAtHead(s, RoutesKey, i);
      ReplaceFromSkip(s, lit, i);
      ReplaceFromQuoteFree(s, lit, i + 1, k);
      calc {
        ReplaceFrom(s, lit, i);
        [s[i]] + ReplaceFrom(s, lit, i + 1);
        [s[i]] + (s[i + 1..k] + ReplaceFrom(s, lit, k));
        ([s[i]] + s[i + 1..k]) + ReplaceFrom(s, lit, k);
        { assert s[i..k] == [s[i]] + s[i + 1..k]; }
        s[i..k] + ReplaceFrom(s, lit, k);
      }
    }
  }

  /** `updateConfigFile`'s substitution on a file whose only routes array is
      written `'pwa_routes' => [...]` after quote-free text: the array is
      replaced by the literal and everything else is kept. */
  function SubstituteRoutes(content: string, routes: seq<string>): string {
    ReplaceFrom(content, RoutesLiteral(routes), 0)
  }

  /** The match at the start of `'pwa_routes' => [body]`. */
  lemma MatchAtArray(s: string, p: nat, body: string)
    requires p + 18 + |body| <= |s| && ']' !in body
    requires s[p..p + 18 + |body|] == RoutesKey + " => [" + body + "]"
    ensures MatchAt(s, p) == Some((p + 16, p + 18 + |body|))
  {
    ArrayHead(s, p, body);
    ArrayClose(s, p, body);
  }

  /** `'pwa_routes' => ` is read up to the `[`. */
  lemma ArrayHead(s: string, p: nat, body: string)
    requires p + 18 + |body| <= |s|
    requires s[p..p + 18 + |body|] == RoutesKey + " => [" + body + "]"
    ensures OccursAt(s, RoutesKey, p) && SkipSpace(s, p + 12) == p + 13
    ensures OccursAt(s, "=>", p + 13) && SkipSpace(s, p + 15) == p + 16 && s[p + 16] == '['
  {
    var m := RoutesKey + " => [" + body + "]";
    assert forall k :: 0 <= k < 17 ==> s[p + k] == m[k];
    assert s[p..p + 12] == m[..12] == RoutesKey;
    assert s[p + 12] == ' ' && s[p + 13] == '=' && s[p + 14] == '>' && s[p + 15] == ' ' && s[p + 16] == '[';
    assert SkipSpace(s, p + 13) == p + 13;
    assert OccursAt(s, "=>", p + 13) by { assert s[p + 13..p + 15] == "=>"; }
    assert SkipSpace(s, p + 16) == p + 16;
  }

  /** The body holds no `]`, so the first one after the `[` closes it. */
  lemma ArrayClose(s: string, p: nat, body: string)
    requires p + 18 + |body| <= |s| && ']' !in body
    requires s[p..p + 18 + |body|] == RoutesKey + " => [" + body + "]"
    ensures CloseFrom(s, p + 17) == Some(p + 17 + |body|)
  {
    var e := p + 17 + |body|;
    var m := RoutesKey + " => [" + body + "]";
    assert s[e] == m[17 + |body|] == ']';
    forall k | p + 17 <= k < e ensures s[k] != ']' {
      assert s[k] == m[k - p] == body[k - p - 17];
    }
  }

  lemma ReplaceFromMatch(s: string, lit: string, i: nat, g: nat, e: nat)
    requires i <= |s| && i < |s| && MatchAt(s, i) == Some((g, e))
    ensures ReplaceFrom(s, lit, i) == s[i..g] + lit + ReplaceFrom(s, lit, e)
  {
  }

  lemma ReplaceFromArray(s: string, lit: string, p: nat, body: string)
    requires p + 18 + |body| <= |s| && ']' !in body
    requires s[p..p + 18 + |body|] == RoutesKey + " => [" + body + "]"
    ensures ReplaceFrom(s, lit, p) == s[p..p + 16] + lit + ReplaceFrom(s, lit, p + 18 + |body|)
  {
    MatchAtArray(s, p, body);
    ReplaceFromMatch(s, lit, p, p + 16, p + 18 + |body|);
  }

  lemma ReplaceFromArrayLast(s: string, lit: string, p: nat, body: string)
    requires p + 18 + |body| <= |s| && ']' !in body
    requires s[p..p + 18 + |body|] == RoutesKey + " => [" + body + "]"
    requires forall j: nat :: p + 18 + |body| <= j ==> !OccursAt(s, RoutesKey, j)
    ensures ReplaceFrom(s, lit, p) == s[p..p + 16] + lit + s[p + 18 + |body|..]
  {
    ReplaceFromArray(s, lit, p, body);
    ReplaceFromNoKey(s, lit, p + 18 + |body|);
  }

  /** The substitution on text laid out as quote-free text, one routes
      array and text without `'pwa_routes'`. */
  lemma ReplaceAtArray(s: string, lit: string, p: nat, body: string)
    requires p + 18 + |body| <= |s| && ']' !in body
    requires forall j :: 0 <= j < p ==> s[j] != '\''
    requires s[p..p + 18 + |body|] == RoutesKey + " => [" + body + "]"
    requires forall j: nat :: p + 18 + |body| <= j ==> !OccursAt(s, RoutesKey, j)
    ensures ReplaceFrom(s, lit, 0) == s[..p] + s[p..p + 16] + lit + s[p + 18 + |body|..]
  {
    ReplaceFromQuoteFree(s, lit, 0, p);
    ReplaceFromArrayLast(s, lit, p, body);
    assert s[0..p] == s[..p];
  }

  lemma SingleArrayReplaced(pre: string, body: string, post: string, routes: seq<string>)
    requires '\'' !in pre && ']' !in body && !Contains(post, RoutesKey)
    ensures SubstituteRoutes(pre + (RoutesKey + " => [" + body + "]") + post, routes)
            == pre + (RoutesKey + " => ") + RoutesLiteral(routes) + post
  {
    var m := RoutesKey + " => [" + body + "]";
    var s := pre + m + post;
    var p, e := |pre|, |pre| + |m|;
    assert |m| == 18 + |body|;
    assert s[..p] == pre;
    assert s[p..e] == m;
    assert s[e..] == post;
    forall j: nat | e <= j ensures !OccursAt(s, RoutesKey, j) {
      if OccursAt(s, RoutesKey, j) {
        assert s[j..j + 12] == post[j - e..j - e + 12];
        assert OccursAt(post, RoutesKey, j - e);
      }
    }
    ReplaceAtArray(s, RoutesLiteral(routes), p, body);
    assert s[p..p + 16] == m[..16] == RoutesKey + " => ";
  }

  /** `updateConfigFile($routes)`: build the literal line by line and
      substitute it; nothing happens without a config file. */
  method UpdateConfigFile(config: Option<string>, routes: seq<string>) returns (r: Option<string>)
    ensures config.None? ==> r.None?
    ensures config.Some? ==> r == Some(SubstituteRoutes(config.value, routes))
  {
    if config.None? {
      return None;
    }
    var lines := "[\n";
    for i := 0 to |routes|
      invariant lines == "[\n" + RouteLines(routes[..i])
    {
      assert routes[..i + 1][..i] == routes[..i];
      lines := lines + "        '" + routes[i] + "',\n";
    }
    assert routes[..|routes|] == routes;
    lines := lines + "    ]";
    return Some(ReplaceFrom(config.value, lines, 0));
  }

  // ---------------------------------------------------------------- routes

  /** The routes `getCustomRoutes` offers, in the order it asks. */
  const Suggestions: seq<string> := ["/dashboard*", "/profile*", "/settings*", "/auth/*", "/admin*", "/member*"]

  /** PHP truthiness of an answer; an empty answer reads as `null`. */
  predicate Truthy(s: string) {
    s != "" && s != "0"
  }

  /** `getCustomRoutes()`: `/`, then each suggestion the user accepts, then
      each non-empty custom route not already chosen. `accepted` holds the
      answers to the six suggestion prompts, `custom` the routes typed
      while the user kept asking to add one. */
  method GetCustomRoutes(accepted: seq<bool>, custom: seq<string>) returns (routes: seq<string>)
    requires |accepted| == |Suggestions|
    ensures |routes| >= 1 && routes[0] == "/"
    ensures forall i, j :: 0 <= i < j < |routes| ==> routes[i] != routes[j]
    ensures forall i :: 0 <= i < |Suggestions| ==> (Suggestions[i] in routes <==> accepted[i] || Suggestions[i] in custom)
    ensures forall c :: c in custom && Truthy(c) ==> c in routes
    ensures forall r :: r in routes ==> r == "/" || r in Suggestions || (r in custom && Truthy(r))
  {
    routes := ["/"];
    for i := 0 to |Suggestions|
      invariant |routes| >= 1 && routes[0] == "/"
      invariant forall a, b :: 0 <= a < b < |routes| ==> routes[a] != routes[b]
      invariant forall k :: 0 <= k < |Suggestions| ==> (Suggestions[k] in routes <==> k < i && accepted[k])
      invariant forall r :: r in routes ==> r == "/" || r in Suggestions
    {
      if accepted[i] {
        routes := routes + [Suggestions[i]];
      }
    }
    for i := 0 to |custom|
      invariant |routes| >= 1 && routes[0] == "/"
      invariant forall a, b :: 0 <= a < b < |routes| ==> routes[a] != routes[b]
      invariant forall k :: 0 <= k < |Suggestions| ==> (Suggestions[k] in routes <==> accepted[k] || Suggestions[k] in custom[..i])
      invariant forall c :: c in custom[..i] && Truthy(c) ==> c in routes
      invariant forall r :: r in routes ==> r == "/" || r in Suggestions || (r in custom[..i] && Truthy(r))
    {
      assert custom[..i + 1] == custom[..i] + [custom[i]];
      if Truthy(custom[i]) && custom[i] !in routes {
        routes := routes + [custom[i]];
      }
    }
    assert custom[..|custom|] == custom;
  }
}
