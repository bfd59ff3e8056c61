/** `af-pwa:test` (src/Console/TestCommand.php): the result lists the checks
    append to, the exit code, the JavaScript syntax heuristic, the route
    shape warnings and the `--fix` pass that turns suggested fixes into
    Artisan calls. The checks that read files or make HTTP requests are
    represented only by the entries they record. */
module TestCommand {
  import opened Wrappers
  import opened Text

  // ---------------------------------------------------------------- syntax

  /** The positions of `c` in `s`. */
  function Positions(s: string, c: char): set<nat> {
    set i: nat | i < |s| && s[i] == c
  }

  /** `substr_count` of a single character counts its positions. */
  lemma {:induction false} CountCharPositions(s: string, c: char)
    ensures CountChar(s, c) == |Positions(s, c)|
    decreases |s|
  {
    if s != [] {
      var t, last := s[..|s| - 1], s[|s| - 1];
      CountCharPositions(t, c);
      assert s == t + [last];
      assert multiset(s) == multiset(t) + multiset{last};
      assert forall i :: 0 <= i < |t| ==> s[i] == t[i];
      var extra: set<nat> := if last == c then {|t|} else {};
      assert Positions(s, c) == Positions(t, c) + extra by {
        forall i: nat | i in Positions(s, c) ensures i in Positions(t, c) + extra {
          if i < |t| { assert t[i] == c; }
        }
      }
      assert |t| !in Positions(t, c);
      assert |Positions(t, c) + extra| == |Positions(t, c)| + |extra|;
    } else {
      assert Positions(s, c) == {};
    }
  }

  /** `testJavaScriptSyntax($content)`: the brace counts and the
      parenthesis counts must agree. The pattern loop that follows never
      changes the verdict, so it is not part of the model. */
  function JavaScriptSyntaxOk(content: string): (ok: bool)
    ensures ok <==> |Positions(content, '{')| == |Positions(content, '}')|
                    && |Positions(content, '(')| == |Positions(content, ')')|
  {
    CountCharPositions(content, '{');
    CountCharPositions(content, '}');
    CountCharPositions(content, '(');
    CountCharPositions(content, ')');
    CountChar(content, '{') == CountChar(content, '}') && CountChar(content, '(') == CountChar(content, ')')
  }

  /** Only the counts matter: any reordering of an accepted script, even
      `}{`, is accepted too. */
  lemma SyntaxCheckIgnoresOrder(a: string, b: string)
    requires multiset(a) == multiset(b)
    ensures JavaScriptSyntaxOk(a) == JavaScriptSyntaxOk(b)
  {
  }

  /** Two accepted scripts put together are accepted. */
  lemma SyntaxCheckConcat(a: string, b: string)
    requires JavaScriptSyntaxOk(a) && JavaScriptSyntaxOk(b)
    ensures JavaScriptSyntaxOk(a + b)
  {
    assert multiset(a + b) == multiset(a) + multiset(b);
  }

  // ---------------------------------------------------------------- results

  /** An entry of `$warnings` or `$errors`: the message and the optional
      suggested fix. */
  datatype Entry = Entry(message: string, fix: Option<string>)

  const Success: int := 0
  const Failure: int := 1

  /** `!empty($fix)`: PHP also treats `"0"` as empty. */
  predicate HasFix(e: Entry) {
    e.fix.Some? && e.fix.value != "" && e.fix.value != "0"
  }

  // ---------------------------------------------------------------- fixes

  const AutoFixable: seq<string> := ["af-pwa:install", "af-pwa:generate", "php artisan vendor:publish"]

  /** The `foreach` of `canAutoFix` over `cmds`: some command occurs in
      `fix`. */
  function ContainsAny(fix: string, cmds: seq<string>): (r: bool)
    ensures r <==> exists i :: 0 <= i < |cmds| && Contains(fix, cmds[i])
  {
    if cmds == [] then false
    else Contains(fix, cmds[0]) || ContainsAny(fix, cmds[1..])
  }

  /** `canAutoFix($fix)`. */
  function CanAutoFix(fix: string): (r: bool)
    ensures r <==> Contains(fix, "af-pwa:install") || Contains(fix, "af-pwa:generate")
                   || Contains(fix, "php artisan vendor:publish")
  {
    assert AutoFixable[0] == "af-pwa:install" && AutoFixable[1] == "af-pwa:generate"
      && AutoFixable[2] == "php artisan vendor:publish";
    ContainsAny(fix, AutoFixable)
  }

  /** An Artisan command `executeAutoFix` runs: a command line, or
      `vendor:publish` with `--tag=af-pwa-assets --force`. */
  datatype ArtisanCall = Command(line: string) | PublishAssets

  /** `executeAutoFix($fix)`: a fix naming an `af-pwa:` command runs it with
      every `php artisan ` removed; one naming `vendor:publish` publishes the
      assets; any other fix runs nothing. */
  function AutoFixCall(fix: string): (r: Option<ArtisanCall>)
    ensures Contains(fix, "af-pwa:") ==> r.Some? && r.value.Command?
    ensures !Contains(fix, "af-pwa:") ==> (r == Some(PublishAssets) <==> Contains(fix, "vendor:publish"))
    ensures !Contains(fix, "af-pwa:") && !Contains(fix, "vendor:publish") ==> r == None
  {
    if Contains(fix, "af-pwa:") then Some(Command(ReplaceAll(fix, "php artisan ", "")))
    else if Contains(fix, "vendor:publish") then Some(PublishAssets)
    else None
  }

  /** A fix written `php artisan <command>` runs `<command>`. */
  lemma PrefixedFixRunsCommand(command: string)
    requires Contains(command, "af-pwa:") && !Contains(command, "php artisan ")
    ensures AutoFixCall("php artisan " + command) == Some(Command(command))
  {
    var fix := "php artisan " + command;
    var k: nat :| k <= |command| && OccursAt(command, "af-pwa:", k);
    assert fix[k + 12..k + 19] == command[k..k + 7];
    assert OccursAt(fix, "af-pwa:", k + 12);
    ReplaceAllLeading("php artisan ", "", command);
    assert "" + command == command;
  }

  /** A containment of a longer command implies one of its prefix. */
  lemma ContainsPrefixOf(s: string, p: string, q: string)
    requires Contains(s, p + q)
    ensures Contains(s, p)
  {
    var k: nat :| k <= |s| && OccursAt(s, p + q, k);
    assert s[k..k + |p|] == (p + q)[..|p|] == p;
    assert OccursAt(s, p, k);
  }

  /** Every fix `canAutoFix` accepts leads to an Artisan call. */
  lemma AutoFixableRunsSomething(fix: string)
    requires CanAutoFix(fix)
    ensures AutoFixCall(fix).Some?
  {
    if Contains(fix, "af-pwa:install") {
      assert "af-pwa:" + "install" == "af-pwa:install";
      ContainsPrefixOf(fix, "af-pwa:", "install");
    } else if Contains(fix, "af-pwa:generate") {
      assert "af-pwa:" + "generate" == "af-pwa:generate";
      ContainsPrefixOf(fix, "af-pwa:", "generate");
    } else {
      assert "php artisan " + "vendor:publish" == "php artisan vendor:publish";
      ContainsSuffixOf(fix, "php artisan ", "vendor:publish");
    }
  }

  lemma ContainsSuffixOf(s: string, p: string, q: string)
    requires Contains(s, p + q)
    ensures Contains(s, q)
  {
    var k: nat :| k <= |s| && OccursAt(s, p + q, k);
    assert s[k + |p|..k + |p| + |q|] == (p + q)[|p|..] == q;
    assert OccursAt(s, q, k + |p|);
  }

  /** The errors `--fix` would attempt: those with a non-empty fix that
      `canAutoFix` accepts, in order. */
  function Fixable(errors: seq<Entry>): (r: seq<Entry>)
    ensures |r| <= |errors|
    ensures forall e :: e in r ==> e in errors && HasFix(e) && CanAutoFix(e.fix.value)
    decreases |errors|
  {
    if errors == [] then []
    else
      var e := errors[|errors| - 1];
      Fixable(errors[..|errors| - 1]) + (if HasFix(e) && CanAutoFix(e.fix.value) then [e] else [])
  }

  /** The Artisan calls `autoFix` makes, one per auto-fixable error. */
  function FixCalls(errors: seq<Entry>): (r: seq<ArtisanCall>)
    decreases |errors|
  {
    if errors == [] then []
    else
      var e := errors[|errors| - 1];
      FixCalls(errors[..|errors| - 1])
      + (if HasFix(e) && CanAutoFix(e.fix.value) then
           AutoFixableRunsSomething(e.fix.value);
           [AutoFixCall(e.fix.value).value]
         else [])
  }

  /** Call `i` is the one for the `i`-th auto-fixable error. */
  lemma {:induction false} FixCallsFollowFixable(errors: seq<Entry>)
    ensures |FixCalls(errors)| == |Fixable(errors)|
    ensures forall i :: 0 <= i < |FixCalls(errors)| ==>
              Some(FixCalls(errors)[i]) == AutoFixCall(Fixable(errors)[i].fix.value)
    decreases |errors|
  {
    if errors != [] {
      var init, e := errors[..|errors| - 1], errors[|errors| - 1];
      FixCallsFollowFixable(init);
      if HasFix(e) && CanAutoFix(e.fix.value) {
        AutoFixableRunsSomething(e.fix.value);
        assert FixCalls(errors) == FixCalls(init) + [AutoFixCall(e.fix.value).value];
        assert Fixable(errors) == Fixable(init) + [e];
      } else {
        assert FixCalls(errors) == FixCalls(init);
        assert Fixable(errors) == Fixable(init);
      }
    }
  }

  /** The number of attempted fixes whose Artisan call completed, where
      `completes[i]` says whether the call for error `i` returned without
      throwing. */
  function FixedCount(errors: seq<Entry>, completes: seq<bool>): nat
    requires |completes| == |errors|
    decreases |errors|
  {
    if errors == [] then 0
    else
      var n := |errors| - 1;
      FixedCount(errors[..n], completes[..n])
      + (if HasFix(errors[n]) && CanAutoFix(errors[n].fix.value) && completes[n] then 1 else 0)
  }

  /** `$fixed` never exceeds the number of auto-fixable errors. */
  lemma {:induction false} FixedAtMostFixable(errors: seq<Entry>, completes: seq<bool>)
    requires |completes| == |errors|
    ensures FixedCount(errors, completes) <= |Fixable(errors)|
    decreases |errors|
  {
    if errors != [] {
      var n := |errors| - 1;
      FixedAtMostFixable(errors[..n], completes[..n]);
    }
  }

  /** When every call completes, every auto-fixable error counts as fixed. */
  lemma {:induction false} AllCallsCompleteFixAll(errors: seq<Entry>, completes: seq<bool>)
    requires |completes| == |errors| && forall i :: 0 <= i < |completes| ==> completes[i]
    ensures FixedCount(errors, completes) == |Fixable(errors)|
    decreases |errors|
  {
    if errors != [] {
      var n := |errors| - 1;
      AllCallsCompleteFixAll(errors[..n], completes[..n]);
    }
  }

  /** The warning for a configured route that does not start with `/`. */
  function ShapeWarning(route: string): Entry {
    Entry("Route should start with '/': " + route, None)
  }

  /** The warnings of the route-pattern loop, in route order. */
  function ShapeWarnings(routes: seq<string>): (r: seq<Entry>)
    decreases |routes|
  {
    if routes == [] then []
    else
      var last := routes[|routes| - 1];
      ShapeWarnings(routes[..|routes| - 1]) + (if StartsWith(last, "/") then [] else [ShapeWarning(last)])
  }

  /** Exactly the routes without a leading `/` are warned about. */
  lemma {:induction false} ShapeWarningsExact(routes: seq<string>, route: string)
    ensures ShapeWarning(route) in ShapeWarnings(routes) <==> route in routes && !StartsWith(route, "/")
    decreases |routes|
  {
    if routes != [] {
      var init, last := routes[..|routes| - 1], routes[|routes| - 1];
      ShapeWarningsExact(init, route);
      assert routes == init + [last];
      if ShapeWarning(route) == ShapeWarning(last) {
        assert ("Route should start with '/': " + route)[29..] == route;
        assert ("Route should start with '/': " + last)[29..] == last;
      }
    }
  }

  /** The state of one `af-pwa:test` run. */
  class TestRun {
    /** The messages of `$results`, all of type `success`. */
    var results: seq<string>
    var warnings: seq<Entry>
    var errors: seq<Entry>

    constructor()
      ensures results == [] && warnings == [] && errors == []
    {
      results := [];
      warnings := [];
      errors := [];
    }

    /** `addSuccess($message)`. */
    method AddSuccess(message: string)
      modifies this
      ensures results == old(results) + [message]
      ensures warnings == old(warnings) && errors == old(errors)
    {
      results := results + [message];
    }

    /** `addWarning($message, $fix)`. */
    method AddWarning(message: string, fix: Option<string>)
      modifies this
      ensures warnings == old(warnings) + [Entry(message, fix)]
      ensures results == old(results) && errors == old(errors)
    {
      warnings := warnings + [Entry(message, fix)];
    }

    /** `addError($message, $fix)`. */
    method AddError(message: string, fix: Option<string>)
      modifies this
      ensures errors == old(errors) + [Entry(message, fix)]
      ensures results == old(results) && warnings == old(warnings)
    {
      errors := errors + [Entry(message, fix)];
    }

    /** What `handle` returns once the tests ran without throwing. */
    function ExitCode(): (code: int)
      reads this
      ensures code == Success || code == Failure
      ensures code == Success <==> |errors| == 0
    {
      if errors == [] then Success else Failure
    }

    /** The route-pattern loop of `testRoutes`: one warning per route that
        does not start with `/`. */
    method CheckRouteShapes(routes: seq<string>)
      modifies this
      ensures warnings == old(warnings) + ShapeWarnings(routes)
      ensures results == old(results) && errors == old(errors)
    {
      for i := 0 to |routes|
        invariant warnings == old(warnings) + ShapeWarnings(routes[..i])
        invariant results == old(results) && errors == old(errors)
      {
        assert routes[..i + 1][..i] == routes[..i];
        if !StartsWith(routes[i], "/") {
          AddWarning("Route should start with '/': " + routes[i], None);
        }
      }
      assert routes[..|routes|] == routes;
    }

    /** `autoFix()`: one Artisan call per auto-fixable error, in order, and
        the number of calls that completed. */
    method AutoFix(completes: seq<bool>) returns (fixed: nat, calls: seq<ArtisanCall>)
      requires |completes| == |errors|
      ensures fixed == FixedCount(errors, completes)
      ensures calls == FixCalls(errors)
    {
      fixed, calls := 0, [];
      for i := 0 to |errors|
        invariant fixed == FixedCount(errors[..i], completes[..i])
        invariant calls == FixCalls(errors[..i])
      {
        assert errors[..i + 1][..i] == errors[..i];
        assert completes[..i + 1][..i] == completes[..i];
        var e := errors[i];
        if HasFix(e) && CanAutoFix(e.fix.value) {
          AutoFixableRunsSomething(e.fix.value);
          calls := calls + [AutoFixCall(e.fix.value).value];
          if completes[i] {
            fixed := fixed + 1;
          }
        }
      }
      assert errors[..|errors|] == errors;
      assert completes[..|errors|] == completes;
    }
  }

  /** An error recorded by any check makes the run fail. */
  method ErrorFailsRun(t: TestRun, message: string, fix: Option<string>) returns (code: int)
    modifies t
    ensures code == Failure
  {
    t.AddError(message, fix);
    code := t.ExitCode();
  }

  /** A fix that is an `af-pwa:` command without `php artisan ` runs as
      written. */
  lemma PlainCommandRuns(command: string)
    requires OccursAt(command, "af-pwa:", 0) && !Contains(command, "php artisan ")
    ensures AutoFixCall(command) == Some(Command(command))
  {
    ContainsWitness(command, "af-pwa:", 0);
    ReplaceAllAbsent(command, "php artisan ", "");
  }

  /** The fix the checks suggest for a missing installation is passed to
      `$this->call` unchanged, as `af-pwa:install`. */
  lemma InstallFixRuns()
    ensures AutoFixCall("af-pwa:install") == Some(Command("af-pwa:install"))
  {
    var fix := "af-pwa:install";
    assert fix[..7] == "af-pwa:";
    assert forall i :: 0 <= i && i + 12 <= |fix| ==> fix[i] != 'p' || fix[i + 1] != 'h';
    AbsentByPair(fix, "php artisan ");
    PlainCommandRuns(fix);
  }

  /** The fix the checks suggest for missing icons is passed to
      `$this->call` unchanged, as `af-pwa:generate --icons`. */
  lemma GenerateFixRuns()
    ensures AutoFixCall("af-pwa:generate --icons") == Some(Command("af-pwa:generate --icons"))
  {
    var fix := "af-pwa:generate --icons";
    assert fix[..7] == "af-pwa:";
    assert forall i :: 0 <= i && i + 12 <= |fix| ==> fix[i] != 'p' || fix[i + 1] != 'h';
    AbsentByPair(fix, "php artisan ");
    PlainCommandRuns(fix);
  }

  // ------------------------------------------------------ command lookup

  /** The Artisan command names the service providers register, together
      with Laravel's own `vendor:publish`. */
  const Registered: seq<string> :=
    ["af-pwa:install", "af-pwa:generate", "af-pwa:test", "af-pwa:health",
     "af-pwa:refresh", "vendor:publish"]

  /** `$this->call($name)` finds a command only when `$name` is a registered
      name or abbreviates one; otherwise the lookup throws, and `autoFix`
      reports the fix as failed. */
  function CallFinds(name: string): (b: bool)
    ensures name in Registered ==> b
    ensures b ==> |name| <= 15
  {
    exists i :: 0 <= i < |Registered| && name <= Registered[i]
  }

  /** No registered name holds a space. */
  lemma RegisteredHaveNoSpace()
    ensures forall i :: 0 <= i < |Registered| ==> ' ' !in Registered[i]
  {
    forall i | 0 <= i < |Registered| ensures ' ' !in Registered[i] {
      var n := Registered[i];
      assert forall j :: 0 <= j < |n| ==> n[j] != ' ';
    }
  }

  /** A prefix of a name holds only characters of that name. */
  lemma PrefixChars(line: string, name: string)
    ensures line <= name ==> forall c :: c in line ==> c in name
  {
    if line <= name {
      forall c | c in line ensures c in name {
        var j :| 0 <= j < |line| && line[j] == c;
        assert name[j] == c;
      }
    }
  }

  /** As written: a command line holding a space, passed whole to
      `$this->call`, is looked up as one name, and no command answers it. */
  lemma WholeLineNotFound(line: string)
    requires ' ' in line
    ensures !CallFinds(line)
  {
    RegisteredHaveNoSpace();
    forall i | 0 <= i < |Registered| ensures !(line <= Registered[i]) {
      PrefixChars(line, Registered[i]);
    }
  }

  /** So the `--icons` fix is reported as failed. */
  lemma GenerateFixNotFound()
    ensures AutoFixCall("af-pwa:generate --icons") == Some(Command("af-pwa:generate --icons"))
    ensures !CallFinds("af-pwa:generate --icons")
  {
    GenerateFixRuns();
    var line := "af-pwa:generate --icons";
    assert line[15] == ' ';
    WholeLineNotFound(line);
  }

  /** A command line split at its first space into the command name and the
      options that follow it. */
  function SplitLine(line: string): (r: (string, string))
    ensures ' ' !in r.0
    ensures ' ' in line ==> line == r.0 + " " + r.1
    ensures ' ' !in line ==> r == (line, "")
  {
    if line == [] then ("", "")
    else if line[0] == ' ' then ("", line[1..])
    else
      var (name, rest) := SplitLine(line[1..]);
      assert line == [line[0]] + line[1..];
      ([line[0]] + name, rest)
  }

  /** Corrected: the auto-fix looks up only the command name of the line,
      passing what follows it as options. */
  function CorrectedFixCommand(fix: string): (r: Option<string>)
    ensures r.Some? <==> AutoFixCall(fix).Some? && AutoFixCall(fix).value.Command?
    ensures r.Some? ==> (' ' !in r.value
      && (AutoFixCall(fix).value.line == r.value
          || r.value + " " <= AutoFixCall(fix).value.line))
  {
    match AutoFixCall(fix)
    case Some(Command(line)) =>
      var r := SplitLine(line).0;
      assert ' ' in line ==> line == r + " " + SplitLine(line).1;
      assert ' ' in line ==> (r + " ") <= line by {
        if ' ' in line {
          assert line[..|r| + 1] == r + " ";
        }
      }
      Some(r)
    case _ => None
  }

  /** A space-free name followed by a space and options splits back into
      that name and those options. */
  lemma {:induction false} SplitNameOptions(name: string, options: string)
    requires ' ' !in name
    ensures SplitLine(name + " " + options) == (name, options)
    decreases |name|
  {
    var line := name + " " + options;
    if name == [] {
      assert line == [' '] + options;
    } else {
      assert line[1..] == name[1..] + " " + options;
      SplitNameOptions(name[1..], options);
      assert name == [name[0]] + name[1..];
    }
  }

  /** Corrected: a registered command followed by options is found. */
  lemma CorrectedCallFinds(i: nat, options: string)
    requires i < |Registered|
    ensures CallFinds(SplitLine(Registered[i] + " " + options).0)
  {
    RegisteredHaveNoSpace();
    SplitNameOptions(Registered[i], options);
    assert Registered[i] <= Registered[i];
  }

  /** The corrected auto-fix keeps the name of the line `executeAutoFix`
      would pass whole. */
  lemma CorrectedFixOf(fix: string, line: string)
    requires AutoFixCall(fix) == Some(Command(line))
    ensures CorrectedFixCommand(fix) == Some(SplitLine(line).0)
  {
  }

  /** The `--icons` fix line splits into `af-pwa:generate` and its option. */
  lemma GenerateFixSplits()
    ensures SplitLine("af-pwa:generate --icons") == ("af-pwa:generate", "--icons")
  {
    var line, name := "af-pwa:generate --icons", "af-pwa:generate";
    assert ' ' !in name by {
      assert forall j :: 0 <= j < |name| ==> name[j] != ' ';
    }
    assert name + " " + "--icons" == line;
    SplitNameOptions(name, "--icons");
  }

  /** Corrected: the `--icons` fix runs `af-pwa:generate`, a registered
      command. */
  lemma GenerateFixFound()
    ensures CorrectedFixCommand("af-pwa:generate --icons") == Some("af-pwa:generate")
    ensures CallFinds("af-pwa:generate")
  {
    GenerateFixNamed();
    assert "af-pwa:generate" <= Registered[1];
  }

  /** The corrected auto-fix names `af-pwa:generate` for the `--icons` fix. */
  lemma GenerateFixNamed()
    ensures CorrectedFixCommand("af-pwa:generate --icons") == Some("af-pwa:generate")
  {
    var line := "af-pwa:generate --icons";
    GenerateFixRuns();
    CorrectedFixOf(line, line);
    GenerateFixSplits();
  }

  /** The routes hint is not auto-fixable. */
  lemma RoutesHintNotFixable()
    ensures !CanAutoFix("Check your routes")
  {
    AbsentByPair("Check your routes", "af-pwa:install");
    AbsentByPair("Check your routes", "af-pwa:generate");
    AbsentByPair("Check your routes", "php artisan vendor:publish");
  }
}
