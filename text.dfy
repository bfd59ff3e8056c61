/** String helpers with the semantics of the JavaScript and PHP built-ins the
    modelled code calls (`startsWith`, `includes`, `replace`, `str_replace`,
    `trim`, `strtolower`, `split('.').pop()`, ...). Strings are sequences of
    characters; case mapping is ASCII only. */
module Text {
  import opened Wrappers

  /** `s.startsWith(p)`; the empty prefix is a prefix of every string. */
  predicate StartsWith(s: string, p: string) {
    |p| <= |s| && s[..|p|] == p
  }

  /** `s.endsWith(p)`. */
  predicate EndsWith(s: string, p: string) {
    |p| <= |s| && s[|s| - |p|..] == p
  }

  /** `sub` occurs in `s` starting at index `i`. */
  predicate OccursAt(s: string, sub: string, i: nat) {
    i + |sub| <= |s| && s[i..i + |sub|] == sub
  }

  /** A string cannot start where the text holds a different first
      character. */
  lemma NotOccursAtHead(s: string, sub: string, i: nat)
    requires sub != [] && i < |s| && s[i] != sub[0]
    ensures !OccursAt(s, sub, i)
  {
    if i + |sub| <= |s| {
      assert s[i..i + |sub|][0] == s[i];
    }
  }

  /** `s.includes(sub)` / `str_contains($s, $sub)`. */
  predicate Contains(s: string, sub: string) {
    exists i: nat | i <= |s| :: OccursAt(s, sub, i)
  }

  /** Index of the first occurrence of `sub` at or after `k`. */
  function IndexFrom(s: string, sub: string, k: nat): (r: Option<nat>)
    decreases |s| - k
    ensures r.Some? ==> k <= r.value && OccursAt(s, sub, r.value)
    ensures r.Some? ==> forall j: nat :: k <= j < r.value ==> !OccursAt(s, sub, j)
    ensures r.None? ==> forall j: nat :: k <= j ==> !OccursAt(s, sub, j)
  {
    if |s| < k + |sub| then None
    else if OccursAt(s, sub, k) then Some(k)
    else IndexFrom(s, sub, k + 1)
  }

  /** `s.indexOf(sub)`, with `None` for -1. */
  function IndexOf(s: string, sub: string): (r: Option<nat>)
    ensures r.Some? <==> Contains(s, sub)
    ensures r.Some? ==> OccursAt(s, sub, r.value)
    ensures r.Some? ==> forall j: nat :: j < r.value ==> !OccursAt(s, sub, j)
  {
    IndexFrom(s, sub, 0)
  }

  lemma ContainsWitness(s: string, sub: string, i: nat)
    requires OccursAt(s, sub, i)
    ensures Contains(s, sub)
  {
  }

  /** A string contains each of its prefixes. */
  lemma ContainsPrefix(s: string, p: string)
    requires StartsWith(s, p)
    ensures Contains(s, p)
  {
    assert OccursAt(s, p, 0);
  }

  /** `s.replace(from, to)` with a string pattern: only the first occurrence is
      replaced. */
  function ReplaceFirst(s: string, from: string, to: string): (r: string)
    ensures !Contains(s, from) ==> r == s
    ensures Contains(s, from) ==> |r| == |s| - |from| + |to|
  {
    match IndexOf(s, from)
    case None => s
    case Some(i) => s[..i] + to + s[i + |from|..]
  }

  /** `str_replace($from, $to, $s)`: every non-overlapping occurrence, scanning
      left to right; an empty search string leaves the subject unchanged. */
  function ReplaceAll(s: string, from: string, to: string): (r: string)
    decreases |s|
  {
    if from == [] || |s| < |from| then s
    else if StartsWith(s, from) then to + ReplaceAll(s[|from|..], from, to)
    else [s[0]] + ReplaceAll(s[1..], from, to)
  }

  /** A subject without an occurrence of the search string is returned as is. */
  lemma {:induction false} ReplaceAllAbsent(s: string, from: string, to: string)
    requires !Contains(s, from)
    ensures ReplaceAll(s, from, to) == s
    decreases |s|
  {
    if from == [] || |s| < |from| {
    } else {
      assert !OccursAt(s, from, 0);
      forall i: nat ensures !OccursAt(s[1..], from, i) {
        if OccursAt(s[1..], from, i) {
          assert s[1..][i..i + |from|] == s[i + 1..i + 1 + |from|];
          assert OccursAt(s, from, i + 1);
        }
      }
      ReplaceAllAbsent(s[1..], from, to);
    }
  }

  /** Replacing a search string that the replacement does not bring back, and
      that is followed by text without it, removes it: the result of a leading
      occurrence is the replacement followed by the rest. */
  lemma ReplaceAllLeading(from: string, to: string, rest: string)
    requires from != [] && !Contains(rest, from)
    ensures ReplaceAll(from + rest, from, to) == to + rest
  {
    var s := from + rest;
    assert StartsWith(s, from);
    assert s[|from|..] == rest;
    ReplaceAllAbsent(rest, from, to);
  }

  /** `sub` is absent when no place in `s` starts with its first two
      characters. */
  lemma AbsentByPair(s: string, sub: string)
    requires |sub| >= 2
    requires forall i :: 0 <= i && i + |sub| <= |s| ==> s[i] != sub[0] || s[i + 1] != sub[1]
    ensures !Contains(s, sub)
  {
    forall i: nat | i <= |s| ensures !OccursAt(s, sub, i) {
      if i + |sub| <= |s| {
        assert s[i..i + |sub|][0] == s[i] && s[i..i + |sub|][1] == s[i + 1];
      }
    }
  }

  /** `ltrim($s, chars)`: the longest prefix made of `cs` is removed. */
  function TrimLeft(s: string, cs: set<char>): (r: string)
    ensures |r| <= |s|
    ensures r == [] || r[0] !in cs
    ensures forall i :: 0 <= i < |s| - |r| ==> s[i] in cs
  {
    if s != [] && s[0] in cs then TrimLeft(s[1..], cs) else s
  }

  /** What `ltrim` keeps is the rest of the string, untouched. */
  lemma {:induction false} TrimLeftSuffix(s: string, cs: set<char>)
    ensures s[|s| - |TrimLeft(s, cs)|..] == TrimLeft(s, cs)
    decreases |s|
  {
    if s != [] && s[0] in cs {
      TrimLeftSuffix(s[1..], cs);
    }
  }

  /** `rtrim($s, chars)`: the longest suffix made of `cs` is removed. */
  function TrimRight(s: string, cs: set<char>): (r: string)
    ensures |r| <= |s| && s[..|r|] == r
    ensures r == [] || r[|r| - 1] !in cs
    ensures forall i :: |r| <= i < |s| ==> s[i] in cs
  {
    if s != [] && s[|s| - 1] in cs then TrimRight(s[..|s| - 1], cs) else s
  }

  /** `trim($s, chars)`. */
  function Trim(s: string, cs: set<char>): string {
    TrimRight(TrimLeft(s, cs), cs)
  }

  /** The characters PHP's `trim` removes by default. */
  const PhpWhitespace: set<char> := {' ', '\t', '\n', '\r', '\0', '\U{B}'}

  /** `\s` in a PCRE pattern without the UTF flag. */
  const PcreSpace: set<char> := {' ', '\t', '\n', '\U{B}', '\U{C}', '\r'}

  /** The characters JavaScript's `String.prototype.trim` removes: white space
      and line terminators of ECMA-262 section 12.2 and 12.3. */
  const JsWhitespace: set<char> :=
    {' ', '\t', '\n', '\r', '\U{B}', '\U{C}', '\U{A0}', '\U{1680}', '\U{2000}', '\U{2001}',
     '\U{2002}', '\U{2003}', '\U{2004}', '\U{2005}', '\U{2006}', '\U{2007}', '\U{2008}',
     '\U{2009}', '\U{200A}', '\U{2028}', '\U{2029}', '\U{202F}', '\U{205F}', '\U{3000}', '\U{FEFF}'}

  function LowerChar(c: char): (r: char)
    ensures 'A' <= c <= 'Z' ==> 'a' <= r <= 'z'
    ensures !('A' <= c <= 'Z') ==> r == c
  {
    if 'A' <= c <= 'Z' then (c as int + 32) as char else c
  }

  function UpperChar(c: char): (r: char)
    ensures 'a' <= c <= 'z' ==> 'A' <= r <= 'Z'
    ensures !('a' <= c <= 'z') ==> r == c
  {
    if 'a' <= c <= 'z' then (c as int - 32) as char else c
  }

  /** `toLowerCase()` / `strtolower` on ASCII letters. */
  function Lower(s: string): (r: string)
    ensures |r| == |s|
    ensures forall i :: 0 <= i < |s| ==> r[i] == LowerChar(s[i])
  {
    if s == [] then [] else [LowerChar(s[0])] + Lower(s[1..])
  }

  /** `strtoupper` on ASCII letters. */
  function Upper(s: string): (r: string)
    ensures |r| == |s|
    ensures forall i :: 0 <= i < |s| ==> r[i] == UpperChar(s[i])
  {
    if s == [] then [] else [UpperChar(s[0])] + Upper(s[1..])
  }

  /** `s.split('.').pop()`: the text after the last dot, or all of `s` when it
      has no dot. */
  function AfterLastDot(s: string): (r: string)
    ensures |r| <= |s| && s[|s| - |r|..] == r
    ensures '.' !in r
    ensures |r| < |s| ==> s[|s| - |r| - 1] == '.'
  {
    if s == [] then []
    else if s[|s| - 1] == '.' then []
    else AfterLastDot(s[..|s| - 1]) + [s[|s| - 1]]
  }

  /** `substr_count($s, c)` for a one-character needle. */
  function CountChar(s: string, c: char): nat {
    multiset(s)[c]
  }

  /** A natural number in decimal, as string interpolation prints it. */
  function Decimal(n: nat): (r: string)
    ensures r != [] && forall c :: c in r ==> '0' <= c <= '9'
    ensures n < 10 ==> r == [(48 + n) as char]
    decreases n
  {
    if n < 10 then [(48 + n) as char] else Decimal(n / 10) + [(48 + n % 10) as char]
  }

  /** The value of a string of decimal digits. */
  function DigitsValue(s: string): nat
    decreases |s|
  {
    if s == [] then 0
    else
      var c := s[|s| - 1];
      DigitsValue(s[..|s| - 1]) * 10 + (if '0' <= c <= '9' then c as int - 48 else 0)
  }

  /** Reading a printed number back gives the number: `Decimal` is
      injective. */
  lemma {:induction false} DecimalRoundTrip(n: nat)
    ensures DigitsValue(Decimal(n)) == n
    decreases n
  {
    if n >= 10 {
      DecimalRoundTrip(n / 10);
      var d := Decimal(n / 10) + [(48 + n % 10) as char];
      assert d[..|d| - 1] == Decimal(n / 10);
    }
  }

  /** `"{$n}x{$n}"`, the size label of a square icon. */
  function SizeLabel(n: nat): string {
    Decimal(n) + "x" + Decimal(n)
  }

  /** Different sizes have different labels, so the file names built from
      them never collide. */
  lemma SizeLabelInjective(m: nat, n: nat)
    requires SizeLabel(m) == SizeLabel(n)
    ensures m == n
  {
    var a, b := Decimal(m), Decimal(n);
    assert |a| == |b|;
    assert a == SizeLabel(m)[..|a|] == SizeLabel(n)[..|b|] == b;
    DecimalRoundTrip(m);
    DecimalRoundTrip(n);
  }
}
