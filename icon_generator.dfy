/** The browser-side PWA generator (icon-generator-script.js): the list of
    icons the checkboxes select, the icon, shortcut and protocol-handler
    lists the page keeps, the colour shading of gradient backgrounds, and the
    manifest and Laravel configuration entries built from them. Canvases are
    abstracted as the icon they were drawn for; the DOM, file reading,
    drawing and the ZIP download are not modelled. */
module IconGenerator {
  import opened Wrappers
  import opened Text
  import opened HexColor

  // ---------------------------------------------------------------- icon matrix

  datatype IconKind = Favicon | Standard | Apple | Maskable | Windows

  /** The order in which `buildIconMatrix` adds the groups. */
  function Rank(k: IconKind): nat {
    match k
    case Favicon => 0
    case Standard => 1
    case Apple => 2
    case Maskable => 3
    case Windows => 4
  }

  function Prefix(k: IconKind): (p: string)
    ensures forall i :: 0 <= i < |p| ==> !('0' <= p[i] <= '9') && p[i] != 'x'
  {
    match k
    case Favicon => "favicon-"
    case Standard => "icon-"
    case Apple => "apple-icon-"
    case Maskable => "maskable-icon-"
    case Windows => "mstile-"
  }

  /** `` `${prefix}${s}x${s}.png` `` */
  function IconName(k: IconKind, n: nat): string {
    Prefix(k) + SizeLabel(n) + ".png"
  }

  function GroupDesc(k: IconKind): string {
    match k
    case Favicon => "Favicon"
    case Standard => "PWA Icon"
    case Apple => "Apple Touch"
    case Maskable => "Maskable"
    case Windows => "Windows Tile"
  }

  /** One entry of the matrix; `maskable` is the `maskable: true` only the
      maskable group sets. */
  datatype IconSpec = IconSpec(size: nat, name: string, desc: string, kind: IconKind, maskable: bool)

  function Entry(k: IconKind, n: nat): IconSpec {
    IconSpec(n, IconName(k, n), GroupDesc(k), k, k == Maskable)
  }

  /** `ICON_SETS`. */
  const FaviconSizes: seq<nat> := [16, 32, 48]
  const PwaSizes: seq<nat> := [72, 96, 128, 144, 152, 180, 192, 256, 384, 512]
  const AppleSizes: seq<nat> := [57, 60, 72, 76, 114, 120, 144, 152, 180]
  const MaskableSizes: seq<nat> := [192, 512]

  /** The three Windows tiles, pushed one by one with their own
      descriptions. */
  const WindowsTiles: seq<IconSpec> :=
    [IconSpec(70, IconName(Windows, 70), "Windows Tile Small", Windows, false),
     IconSpec(150, IconName(Windows, 150), "Windows Tile Medium", Windows, false),
     IconSpec(310, IconName(Windows, 310), "Windows Tile Large", Windows, false)]

  /** The state of the five checkboxes; `None` when the element is not on
      the page, so that `?.checked ?? default` applies. */
  datatype Checkboxes = Checkboxes(
    favicons: Option<bool>, pwa: Option<bool>, apple: Option<bool>, maskable: Option<bool>, windows: Option<bool>)

  function Checked(box: Option<bool>, default: bool): bool {
    if box.Some? then box.value else default
  }

  function Group(k: IconKind, sizes: seq<nat>): (r: seq<IconSpec>)
    ensures |r| == |sizes|
    ensures forall i :: 0 <= i < |r| ==> r[i] == Entry(k, sizes[i])
  {
    seq(|sizes|, i requires 0 <= i < |sizes| => Entry(k, sizes[i]))
  }

  /** The entries one checkbox contributes. */
  function Part(b: Checkboxes, k: IconKind): seq<IconSpec> {
    match k
    case Favicon => if Checked(b.favicons, true) then Group(Favicon, FaviconSizes) else []
    case Standard => if Checked(b.pwa, true) then Group(Standard, PwaSizes) else []
    case Apple => if Checked(b.apple, true) then Group(Apple, AppleSizes) else []
    case Maskable => if Checked(b.maskable, true) then Group(Maskable, MaskableSizes) else []
    case Windows => if Checked(b.windows, false) then WindowsTiles else []
  }

  /** `buildIconMatrix()`'s list: favicons, PWA icons, Apple icons and
      maskable icons unless unchecked, Windows tiles only when checked. */
  function Matrix(b: Checkboxes): seq<IconSpec> {
    Part(b, Favicon) + Part(b, Standard) + Part(b, Apple) + Part(b, Maskable) + Part(b, Windows)
  }

  method AppendGroup(out: seq<IconSpec>, k: IconKind, sizes: seq<nat>) returns (r: seq<IconSpec>)
    ensures r == out + Group(k, sizes)
  {
    r := out;
    ghost var group := Group(k, sizes);
    for i := 0 to |sizes|
      invariant r == out + group[..i]
    {
      assert group[..i + 1] == group[..i] + [Entry(k, sizes[i])];
      r := r + [Entry(k, sizes[i])];
    }
    assert group[..|sizes|] == group;
  }

  /** `buildIconMatrix()`. */
  method BuildIconMatrix(b: Checkboxes) returns (out: seq<IconSpec>)
    ensures out == Matrix(b)
  {
    out := [];
    if Checked(b.favicons, true) {
      out := AppendGroup(out, Favicon, FaviconSizes);
    }
    assert out == Part(b, Favicon);
    if Checked(b.pwa, true) {
      out := AppendGroup(out, Standard, PwaSizes);
    }
    assert out == Part(b, Favicon) + Part(b, Standard);
    if Checked(b.apple, true) {
      out := AppendGroup(out, Apple, AppleSizes);
    }
    assert out == Part(b, Favicon) + Part(b, Standard) + Part(b, Apple);
    if Checked(b.maskable, true) {
      out := AppendGroup(out, Maskable, MaskableSizes);
    }
    ghost var before := out;
    if Checked(b.windows, false) {
      out := out + [WindowsTiles[0]];
      out := out + [WindowsTiles[1]];
      out := out + [WindowsTiles[2]];
      assert out == before + WindowsTiles;
    }
  }

  /** Entries whose name is built from their kind and size, and that are
      maskable exactly in the maskable group. */
  predicate WellNamed(m: seq<IconSpec>) {
    forall i :: 0 <= i < |m| ==> m[i].name == IconName(m[i].kind, m[i].size) && (m[i].maskable <==> m[i].kind == Maskable)
  }

  predicate DistinctNames(m: seq<IconSpec>) {
    forall i, j :: 0 <= i < j < |m| ==> m[i].name != m[j].name
  }

  /** Kinds appear in the order favicons, PWA, Apple, maskable, Windows. */
  predicate Ordered(m: seq<IconSpec>) {
    forall i, j :: 0 <= i < j < |m| ==> Rank(m[i].kind) <= Rank(m[j].kind)
  }

  predicate AllOfRank(m: seq<IconSpec>, r: nat) {
    forall i :: 0 <= i < |m| ==> Rank(m[i].kind) == r
  }

  predicate BelowRank(m: seq<IconSpec>, r: nat) {
    forall i :: 0 <= i < |m| ==> Rank(m[i].kind) < r
  }

  predicate DistinctSizes(sizes: seq<nat>) {
    forall i, j :: 0 <= i < j < |sizes| ==> sizes[i] != sizes[j]
  }

  /** The tiles' names are the literal `mstile-70x70.png`,
      `mstile-150x150.png` and `mstile-310x310.png`. */
  lemma WindowsTileNames()
    ensures WindowsTiles[0].name == "mstile-70x70.png"
    ensures WindowsTiles[1].name == "mstile-150x150.png"
    ensures WindowsTiles[2].name == "mstile-310x310.png"
  {
    assert Decimal(7) == "7" && Decimal(70) == "70";
    assert Decimal(1) == "1" && Decimal(15) == "15" && Decimal(150) == "150";
    assert Decimal(3) == "3" && Decimal(31) == "31" && Decimal(310) == "310";
  }

  /** Different kinds or sizes give different names. */
  lemma IconNameInjective(k1: IconKind, n1: nat, k2: IconKind, n2: nat)
    requires IconName(k1, n1) == IconName(k2, n2)
    ensures k1 == k2 && n1 == n2
  {
    var s := IconName(k1, n1);
    var p1, p2 := Prefix(k1), Prefix(k2);
    assert s[0] == p1[0] && s[0] == p2[0] && s[1] == p1[1] && s[1] == p2[1];
    assert s[2] == p1[2] && s[2] == p2[2];
    assert k1 == k2;
    var l1, l2 := SizeLabel(n1), SizeLabel(n2);
    assert l1 == s[|p1|..|s| - 4];
    assert l2 == IconName(k2, n2)[|p2|..|s| - 4];
    SizeLabelInjective(n1, n2);
  }

  lemma GroupFacts(k: IconKind, sizes: seq<nat>)
    requires DistinctSizes(sizes)
    ensures var g := Group(k, sizes); DistinctNames(g) && WellNamed(g) && AllOfRank(g, Rank(k))
  {
    forall i, j | 0 <= i < j < |sizes| ensures Group(k, sizes)[i].name != Group(k, sizes)[j].name {
      if IconName(k, sizes[i]) == IconName(k, sizes[j]) {
        IconNameInjective(k, sizes[i], k, sizes[j]);
      }
    }
  }

  /** Each checkbox's entries are well named, of its own kind and distinct. */
  lemma PartFacts(b: Checkboxes, k: IconKind)
    ensures var g := Part(b, k); DistinctNames(g) && WellNamed(g) && AllOfRank(g, Rank(k))
  {
    match k
    case Favicon => GroupFacts(Favicon, FaviconSizes);
    case Standard => GroupFacts(Standard, PwaSizes);
    case Apple => GroupFacts(Apple, AppleSizes);
    case Maskable => GroupFacts(Maskable, MaskableSizes);
    case Windows => TilesFacts();
  }

  /** The three tiles carry the names `Entry` would give them, so they too
      are well named, of one kind and distinct. */
  lemma TilesFacts()
    ensures DistinctNames(WindowsTiles) && WellNamed(WindowsTiles) && AllOfRank(WindowsTiles, Rank(Windows))
  {
    GroupFacts(Windows, [70, 150, 310]);
    var g := Group(Windows, [70, 150, 310]);
    assert forall i :: 0 <= i < 3 ==> WindowsTiles[i].name == g[i].name && WindowsTiles[i].kind == g[i].kind;
  }

  /** Appending the entries of a later kind keeps the list well named,
      ordered and free of duplicate names. */
  lemma {:induction false} AppendPart(a: seq<IconSpec>, b: seq<IconSpec>, r: nat)
    requires DistinctNames(a) && WellNamed(a) && Ordered(a) && BelowRank(a, r)
    requires DistinctNames(b) && WellNamed(b) && AllOfRank(b, r)
    ensures var m := a + b; DistinctNames(m) && WellNamed(m) && Ordered(m) && BelowRank(m, r + 1)
  {
    var m := a + b;
    forall i, j | 0 <= i < j < |m| ensures m[i].name != m[j].name && Rank(m[i].kind) <= Rank(m[j].kind) {
      if i < |a| && j >= |a| {
        var x, y := a[i], b[j - |a|];
        if x.name == y.name {
          IconNameInjective(x.kind, x.size, y.kind, y.size);
        }
      }
    }
  }

  /** Every name in the matrix is different (so `generatedIcons` ends up
      with one key per entry), each name is built from the entry's kind and
      size, and the groups come in their fixed order. */
  lemma MatrixShape(b: Checkboxes)
    ensures var m := Matrix(b); DistinctNames(m) && WellNamed(m) && Ordered(m)
  {
    PartFacts(b, Favicon);
    PartFacts(b, Standard);
    PartFacts(b, Apple);
    PartFacts(b, Maskable);
    PartFacts(b, Windows);
    var g0 := Part(b, Favicon);
    AppendPart([], g0, 0);
    assert [] + g0 == g0;
    AppendPart(g0, Part(b, Standard), 1);
    AppendPart(g0 + Part(b, Standard), Part(b, Apple), 2);
    AppendPart(g0 + Part(b, Standard) + Part(b, Apple), Part(b, Maskable), 3);
    AppendPart(g0 + Part(b, Standard) + Part(b, Apple) + Part(b, Maskable), Part(b, Windows), 4);
  }

  /** The matrix holds 3, 10, 9, 2 and 3 entries for the five checked
      boxes. */
  lemma MatrixLength(b: Checkboxes)
    ensures |Matrix(b)| == (if Checked(b.favicons, true) then 3 else 0) + (if Checked(b.pwa, true) then 10 else 0)
                           + (if Checked(b.apple, true) then 9 else 0) + (if Checked(b.maskable, true) then 2 else 0)
                           + (if Checked(b.windows, false) then 3 else 0)
  {
  }

  /** Windows tiles are built only when their box is checked. */
  lemma NoWindowsUnlessChecked(b: Checkboxes)
    ensures !Checked(b.windows, false) ==> forall i :: 0 <= i < |Matrix(b)| ==> Matrix(b)[i].kind != Windows
  {
    if !Checked(b.windows, false) {
      var p0, p1, p2, p3 := Part(b, Favicon), Part(b, Standard), Part(b, Apple), Part(b, Maskable);
      var m := Matrix(b);
      assert m == p0 + p1 + p2 + p3;
      forall i | 0 <= i < |m| ensures m[i].kind != Windows {
        if i < |p0| {
          assert m[i] == p0[i];
        } else if i < |p0| + |p1| {
          assert m[i] == p1[i - |p0|];
        } else if i < |p0| + |p1| + |p2| {
          assert m[i] == p2[i - |p0| - |p1|];
        } else {
          assert m[i] == p3[i - |p0| - |p1| - |p2|];
        }
      }
    }
  }

  /** With none of the checkboxes on the page, 24 icons are built and no
      Windows tile is among them. */
  lemma DefaultMatrix()
    ensures var r := Matrix(Checkboxes(None, None, None, None, None));
            |r| == 24 && forall i :: 0 <= i < |r| ==> r[i].kind != Windows
  {
    var b := Checkboxes(None, None, None, None, None);
    MatrixLength(b);
    NoWindowsUnlessChecked(b);
  }

  // ---------------------------------------------------------------- size match

  predicate IsDigit(c: char) {
    '0' <= c <= '9'
  }

  /** The number of digits from `p` on. */
  function DigitRun(s: string, p: nat): (k: nat)
    requires p <= |s|
    ensures p + k <= |s|
    ensures forall i :: p <= i < p + k ==> IsDigit(s[i])
    ensures p + k < |s| ==> !IsDigit(s[p + k])
    decreases |s| - p
  {
    if p < |s| && IsDigit(s[p]) then DigitRun(s, p + 1) + 1 else 0
  }

  /** `\d+` greedy from `p`, backing off one digit at a time, followed by
      `x` and the same digits again: the length that matches first. */
  function MatchLen(s: string, p: nat, k: nat): (r: Option<nat>)
    ensures r.Some? ==> 0 < r.value <= k && p + 2 * r.value + 1 <= |s|
    decreases k
  {
    if k == 0 then None
    else if p + 2 * k + 1 <= |s| && s[p + k] == 'x' && s[p + k + 1..p + 2 * k + 1] == s[p..p + k] then Some(k)
    else MatchLen(s, p, k - 1)
  }

  /** The first group of the leftmost match of `/(\d+)x\1/` at or after
      `p`. */
  function MatchFrom(s: string, p: nat): (r: Option<string>)
    decreases |s| - p
  {
    if p >= |s| then None
    else
      match MatchLen(s, p, DigitRun(s, p))
      case Some(k) => Some(s[p..p + k])
      case None => MatchFrom(s, p + 1)
  }

  /** `name.match(/(\d+)x\1/)?.[1]`. */
  function SizeMatch(name: string): Option<string> {
    MatchFrom(name, 0)
  }

  lemma {:induction false} SkipNonDigits(s: string, p: nat, q: nat)
    requires p <= q <= |s|
    requires forall i :: p <= i < q ==> !IsDigit(s[i])
    ensures MatchFrom(s, p) == MatchFrom(s, q)
    decreases q - p
  {
    if p < q {
      assert DigitRun(s, p) == 0;
      SkipNonDigits(s, p + 1, q);
    }
  }

  lemma {:induction false} DigitRunIs(s: string, p: nat, d: string)
    requires p + |d| < |s| && s[p..p + |d|] == d
    requires forall i :: 0 <= i < |d| ==> IsDigit(d[i])
    requires !IsDigit(s[p + |d|])
    ensures DigitRun(s, p) == |d|
    decreases |d|
  {
    if d != [] {
      assert s[p] == d[0];
      assert s[p + 1..p + 1 + |d[1..]|] == d[1..];
      DigitRunIs(s, p + 1, d[1..]);
    }
  }

  /** A digit-free prefix, a number, `x`, the same number: the number is
      the size. */
  lemma MatchAfterPrefix(p: string, d: string, t: string)
    requires forall i :: 0 <= i < |p| ==> !IsDigit(p[i])
    requires d != [] && forall i :: 0 <= i < |d| ==> IsDigit(d[i])
    ensures MatchFrom(p + d + "x" + d + t, 0) == Some(d)
  {
    var s := p + d + "x" + d + t;
    var q := |p|;
    forall i | 0 <= i < q ensures !IsDigit(s[i]) {
      assert s[i] == p[i];
    }
    SkipNonDigits(s, 0, q);
    assert s[q..q + |d|] == d;
    assert s[q + |d|] == 'x';
    assert s[q + |d| + 1..q + 2 * |d| + 1] == d;
    MatchAtNumber(s, q, d);
  }

  /** At a number followed by `x` and the same number, the number is the
      match. */
  lemma MatchAtNumber(s: string, q: nat, d: string)
    requires d != [] && forall i :: 0 <= i < |d| ==> IsDigit(d[i])
    requires q + 2 * |d| + 1 <= |s| && s[q..q + |d|] == d && s[q + |d|] == 'x'
    requires s[q + |d| + 1..q + 2 * |d| + 1] == d
    ensures MatchFrom(s, q) == Some(d)
  {
    DigitRunIs(s, q, d);
    assert MatchLen(s, q, |d|) == Some(|d|);
  }

  /** Every name of the matrix yields its own size. */
  lemma IconNameSize(k: IconKind, n: nat)
    ensures SizeMatch(IconName(k, n)) == Some(Decimal(n))
  {
    var d := Decimal(n);
    assert IconName(k, n) == Prefix(k) + d + "x" + d + ".png";
    forall i | 0 <= i < |d| ensures IsDigit(d[i]) {
      assert d[i] in d;
    }
    MatchAfterPrefix(Prefix(k), d, ".png");
  }

  /** A name without digits has no size. */
  lemma {:induction false} NoDigitsNoSize(s: string, p: nat)
    requires forall i :: 0 <= i < |s| ==> !IsDigit(s[i])
    ensures MatchFrom(s, p) == None
    decreases |s| - p
  {
    if p < |s| {
      assert DigitRun(s, p) == 0;
      NoDigitsNoSize(s, p + 1);
    }
  }

  // ---------------------------------------------------------------- generated icons

  /** The position of the key `name` in an insertion-ordered object. */
  function KeyIndex(entries: seq<IconSpec>, name: string): (r: Option<nat>)
    ensures r.Some? ==> r.value < |entries| && entries[r.value].name == name
    ensures r.None? ==> forall i :: 0 <= i < |entries| ==> entries[i].name != name
    decreases |entries|
  {
    if entries == [] then None
    else if entries[|entries| - 1].name == name then Some(|entries| - 1)
    else KeyIndex(entries[..|entries| - 1], name)
  }

  /** `generatedIcons[cfg.name] = canvas`: an existing key keeps its place
      and takes the new value, a new key goes last. */
  function Put(entries: seq<IconSpec>, e: IconSpec): (r: seq<IconSpec>)
    ensures (forall i :: 0 <= i < |entries| ==> entries[i].name != e.name) ==> r == entries + [e]
  {
    match KeyIndex(entries, e.name)
    case Some(i) => entries[i := e]
    case None => entries + [e]
  }

  /** In a list of distinct names, setting the next entry on the entries
      before it appends it. */
  lemma PutNext(list: seq<IconSpec>, i: nat)
    requires DistinctNames(list) && i < |list|
    ensures Put(list[..i], list[i]) == list[..i + 1]
  {
    var before := list[..i];
    forall j | 0 <= j < |before| ensures before[j].name != list[i].name {
      assert before[j] == list[j];
    }
    assert list[..i + 1] == before + [list[i]];
  }

  // ---------------------------------------------------------------- shortcuts and handlers

  datatype Shortcut = Shortcut(name: string, shortName: string, url: string, description: string)

  const EmptyShortcut: Shortcut := Shortcut("", "", "", "")
  const MaxShortcuts: nat := 4

  datatype ShortcutField = Name | ShortName | Url | Description

  /** `shortcuts[i].<field> = this.value`. */
  function WithField(s: Shortcut, f: ShortcutField, v: string): (r: Shortcut)
    ensures f == Name ==> r == s.(name := v)
    ensures f == ShortName ==> r == s.(shortName := v)
    ensures f == Url ==> r == s.(url := v)
    ensures f == Description ==> r == s.(description := v)
  {
    match f
    case Name => s.(name := v)
    case ShortName => s.(shortName := v)
    case Url => s.(url := v)
    case Description => s.(description := v)
  }

  /** `shortcuts.splice(index, 1)`: a negative index counts from the end,
      one past the end or beyond removes nothing. */
  function Splice(s: seq<Shortcut>, index: int): (r: seq<Shortcut>)
    ensures 0 <= index < |s| ==> r == s[..index] + s[index + 1..]
    ensures index >= |s| ==> r == s
    ensures |r| == (if -|s| <= index < |s| then |s| - 1 else if index < -|s| && s != [] then |s| - 1 else |s|)
  {
    var start := if index < 0 then (if |s| + index < 0 then 0 else |s| + index) else index;
    if start < |s| then s[..start] + s[start + 1..] else s
  }

  /** Removing the last shortcut, by its index or by -1, undoes adding
      it. */
  lemma SpliceUndoesAppend(s: seq<Shortcut>, x: Shortcut)
    ensures Splice(s + [x], |s|) == s
    ensures Splice(s + [x], -1) == s
  {
    assert (s + [x])[..|s|] == s;
  }

  datatype ProtocolHandler = ProtocolHandler(scheme: string, url: string)

  /** The page's mutable lists: `shortcuts`, `protocolHandlers` and
      `generatedIcons`, the last as its entries in insertion order, each
      canvas abstracted as the icon it was drawn for. */
  class Generator {
    var shortcuts: seq<Shortcut>
    var protocolHandlers: seq<ProtocolHandler>
    var generatedIcons: seq<IconSpec>

    /** The shortcut list never grows past four entries. */
    predicate Valid()
      reads this
    {
      |shortcuts| <= MaxShortcuts
    }

    /** The state when the script loads: one empty shortcut. */
    constructor()
      ensures shortcuts == [EmptyShortcut] && protocolHandlers == [] && generatedIcons == []
      ensures Valid()
    {
      shortcuts := [EmptyShortcut];
      protocolHandlers := [];
      generatedIcons := [];
    }

    /** `addShortcut()`: refused at four or more entries, otherwise an
        empty shortcut is appended. */
    method AddShortcut() returns (added: bool)
      modifies this
      ensures added <==> |old(shortcuts)| < MaxShortcuts
      ensures shortcuts == if added then old(shortcuts) + [EmptyShortcut] else old(shortcuts)
      ensures protocolHandlers == old(protocolHandlers) && generatedIcons == old(generatedIcons)
      ensures old(Valid()) ==> Valid()
    {
      if |shortcuts| >= MaxShortcuts {
        return false;
      }
      shortcuts := shortcuts + [EmptyShortcut];
      return true;
    }

    /** `removeShortcut(index)`. */
    method RemoveShortcut(index: int)
      modifies this
      ensures shortcuts == Splice(old(shortcuts), index)
      ensures protocolHandlers == old(protocolHandlers) && generatedIcons == old(generatedIcons)
      ensures old(Valid()) ==> Valid()
    {
      shortcuts := Splice(shortcuts, index);
    }

    /** The `oninput` handlers of a rendered shortcut row, which only exist
        for the current indices. */
    method EditShortcut(i: nat, f: ShortcutField, v: string)
      modifies this
      requires i < |shortcuts|
      ensures shortcuts == old(shortcuts)[i := WithField(old(shortcuts)[i], f, v)]
      ensures protocolHandlers == old(protocolHandlers) && generatedIcons == old(generatedIcons)
      ensures old(Valid()) ==> Valid()
    {
      shortcuts := shortcuts[i := WithField(shortcuts[i], f, v)];
    }

    /** `addProtocolHandler()`: both inputs are trimmed; an empty one
        refuses the handler, otherwise the trimmed pair is appended. */
    method AddProtocolHandler(scheme: string, url: string) returns (added: bool)
      modifies this
      ensures var s, u := Trim(scheme, JsWhitespace), Trim(url, JsWhitespace);
              added <==> s != [] && u != []
      ensures var s, u := Trim(scheme, JsWhitespace), Trim(url, JsWhitespace);
              protocolHandlers == if added then old(protocolHandlers) + [ProtocolHandler(s, u)] else old(protocolHandlers)
      ensures shortcuts == old(shortcuts) && generatedIcons == old(generatedIcons)
    {
      var s := Trim(scheme, JsWhitespace);
      var u := Trim(url, JsWhitespace);
      if s == [] || u == [] {
        return false;
      }
      protocolHandlers := protocolHandlers + [ProtocolHandler(s, u)];
      return true;
    }

    /** `generateIconsToRight()` once an image is loaded: the object is
        emptied and one key is set per matrix entry, so it ends holding the
        matrix itself, in order. */
    method GenerateIcons(b: Checkboxes)
      modifies this
      ensures generatedIcons == Matrix(b)
      ensures shortcuts == old(shortcuts) && protocolHandlers == old(protocolHandlers)
    {
      var list := BuildIconMatrix(b);
      MatrixShape(b);
      generatedIcons := [];
      for i := 0 to |list|
        invariant generatedIcons == list[..i]
        invariant shortcuts == old(shortcuts) && protocolHandlers == old(protocolHandlers)
      {
        PutNext(list, i);
        generatedIcons := Put(generatedIcons, list[i]);
      }
      assert list[..|list|] == list;
    }
  }

  // ---------------------------------------------------------------- colour shading

  /** `ToInt32`, which `>>` and `&` apply to their operands. */
  function Int32(n: int): (r: int)
    ensures -0x8000_0000 <= r < 0x8000_0000
    ensures 0 <= n < 0x8000_0000 ==> r == n
  {
    var m := n % 0x1_0000_0000;
    if m >= 0x8000_0000 then m - 0x1_0000_0000 else m
  }

  /** The leading hex digits of `s`. */
  function LeadingHex(s: string): (r: string)
    ensures |r| <= |s| && s[..|r|] == r && AllHex(r)
    ensures |r| < |s| ==> !IsHexDigit(s[|r|])
  {
    if s != [] && IsHexDigit(s[0]) then [s[0]] + LeadingHex(s[1..]) else []
  }

  lemma {:induction false} LeadingHexAll(s: string)
    requires AllHex(s)
    ensures LeadingHex(s) == s
  {
    if s != [] {
      LeadingHexAll(s[1..]);
    }
  }

  /** `parseInt(s, 16)` for text that starts with a hex digit; `None` for
      `NaN`. */
  function ParseHex(s: string): (r: Option<nat>)
    ensures r.None? <==> LeadingHex(s) == []
  {
    var digits := LeadingHex(s);
    if digits == [] then None else Some(Hexdec(digits))
  }

  function Clamp255(x: int): (r: nat)
    ensures r <= 255
    ensures 0 <= x <= 255 ==> r == x
  {
    if x < 0 then 0 else if x > 255 then 255 else x
  }

  /** The channels `adjustColor` computes from `num`, `NaN` reading as 0 in
      the bit operations. */
  function Shifted(num: Option<nat>, amt: int): (rgb: (nat, nat, nat))
    ensures rgb.0 < 256 && rgb.1 < 256 && rgb.2 < 256
  {
    var n := if num.Some? then Int32(num.value) else 0;
    (Clamp255(n / 0x10000 + amt), Clamp255((n / 0x100) % 0x100 + amt), Clamp255(n % 0x100 + amt))
  }

  /** `'#' + (0x1000000 + R * 0x10000 + G * 0x100 + B).toString(16).slice(1)`. */
  function ColourText(rgb: (nat, nat, nat)): (r: string)
    requires rgb.0 < 256 && rgb.1 < 256 && rgb.2 < 256
    ensures r == Format(rgb)
  {
    Base16Colour(rgb.0, rgb.1, rgb.2);
    "#" + ToBase16(0x1000000 + rgb.0 * 0x10000 + rgb.1 * 0x100 + rgb.2)[1..]
  }

  /** `adjustColor(color, amount)`, with `amt` the integer
      `Math.round(2.55 * amount)` (the gradient's -20 gives -51): always a
      `#` and six lowercase hex digits, holding the shifted channels. */
  function AdjustColor(color: string, amt: int): (r: string)
    ensures |r| == 7 && r[0] == '#' && IsLowerHex6(r[1..])
    ensures r == Format(Shifted(ParseHex(ReplaceFirst(color, "#", "")), amt))
  {
    ColourText(Shifted(ParseHex(ReplaceFirst(color, "#", "")), amt))
  }

  /** Six hex digits read as one number hold the three channels. */
  lemma HexSixValue(h: string)
    requires |h| == 6 && AllHex(h)
    ensures Hexdec(h) == Hexdec([h[0], h[1]]) * 0x10000 + Hexdec([h[2], h[3]]) * 0x100 + Hexdec([h[4], h[5]])
  {
    var first, four := [h[0], h[1]], [h[0], h[1], h[2], h[3]];
    var x, y, z := Hexdec(first), Hexdec([h[2], h[3]]), Hexdec([h[4], h[5]]);
    HexdecAppendPair(first, h[2], h[3]);
    HexdecPair(h[2], h[3]);
    assert first + [h[2], h[3]] == four;
    assert Hexdec(four) == 256 * x + y;
    HexdecAppendPair(four, h[4], h[5]);
    HexdecPair(h[4], h[5]);
    assert four + [h[4], h[5]] == h;
    assert Hexdec(h) == 256 * (256 * x + y) + z;
    assert 256 * (256 * x + y) == x * 0x10000 + y * 0x100;
  }

  /** Shifting by 0 gives back the channels a 24-bit value packs. */
  lemma ShiftedByZero(x: nat, y: nat, z: nat)
    requires x < 256 && y < 256 && z < 256
    ensures Shifted(Some(x * 0x10000 + y * 0x100 + z), 0) == (x, y, z)
  {
    var n := x * 0x10000 + y * 0x100 + z;
    assert Int32(n) == n;
    assert n / 0x10000 == x;
    assert n / 0x100 == x * 0x100 + y;
    assert (x * 0x100 + y) % 0x100 == y;
    assert n % 0x100 == z;
  }

  lemma ParseHashSix(h: string)
    requires IsLowerHex6(h)
    ensures ParseHex(ReplaceFirst("#" + h, "#", "")) == Some(Hexdec(h))
  {
    var c := "#" + h;
    assert OccursAt(c, "#", 0);
    assert IndexOf(c, "#") == Some(0);
    assert c[..0] + "" + c[1..] == h;
    LeadingHexAll(h);
  }

  /** Shading by 0 leaves a lowercase `#rrggbb` colour as it is. */
  lemma AdjustByZero(h: string)
    requires IsLowerHex6(h)
    ensures AdjustColor("#" + h, 0) == "#" + h
  {
    ParseHashSix(h);
    var x, y, z := Hexdec([h[0], h[1]]), Hexdec([h[2], h[3]]), Hexdec([h[4], h[5]]);
    HexSixValue(h);
    ShiftedByZero(x, y, z);
    PairRoundTrip(h[0], h[1]);
    PairRoundTrip(h[2], h[3]);
    PairRoundTrip(h[4], h[5]);
    SixSplit(h);
  }

  /** A negative amount never lightens a channel, a positive one never
      darkens it. */
  lemma ShadingMonotone(num: Option<nat>, amt: int)
    ensures var base := Shifted(num, 0); var r := Shifted(num, amt);
            (amt <= 0 ==> r.0 <= base.0 && r.1 <= base.1 && r.2 <= base.2)
            && (amt >= 0 ==> r.0 >= base.0 && r.1 >= base.1 && r.2 >= base.2)
  {
  }

  // ---------------------------------------------------------------- manifest and config

  datatype ManifestIcon = ManifestIcon(src: string, sizes: string, mime: string, purpose: string)

  /** The manifest entry of one generated icon, `None` when its name has no
      `NxN` size (it is then filtered out). */
  function ManifestIconOf(e: IconSpec): Option<ManifestIcon> {
    match SizeMatch(e.name)
    case None => None
    case Some(size) =>
      Some(ManifestIcon("/icons/" + e.name, size + "x" + size, "image/png",
                        if Contains(e.name, "maskable") then "maskable" else "any"))
  }

  /** The `icons` of `generateManifestJSON()`: entries without a size are
      dropped, the others keep their order. */
  function ManifestIcons(generated: seq<IconSpec>): (r: seq<ManifestIcon>)
    ensures |r| <= |generated|
    ensures (forall i :: 0 <= i < |generated| ==> ManifestIconOf(generated[i]).Some?) ==>
              |r| == |generated| && forall i :: 0 <= i < |r| ==> Some(r[i]) == ManifestIconOf(generated[i])
    decreases |generated|
  {
    if generated == [] then []
    else
      var init := generated[..|generated| - 1];
      assert forall i :: 0 <= i < |init| ==> init[i] == generated[i];
      ManifestIcons(init)
      + match ManifestIconOf(generated[|generated| - 1]) case Some(m) => [m] case None => []
  }

  /** The name of a matrix entry mentions `maskable` exactly when the entry
      is maskable. */
  lemma MaskableName(k: IconKind, n: nat)
    ensures Contains(IconName(k, n), "maskable") <==> k == Maskable
  {
    var s := IconName(k, n);
    if k == Maskable {
      assert s[..8] == "maskable";
      assert OccursAt(s, "maskable", 0);
    } else {
      var p := Prefix(k);
      var tail := SizeLabel(n) + ".png";
      assert s == p + tail;
      forall i | 0 <= i < |tail| ensures tail[i] != 'm' && tail[i] != 'a' {
        if i < |SizeLabel(n)| {
          assert tail[i] == SizeLabel(n)[i];
          var d := Decimal(n);
          if i < |d| {
            assert SizeLabel(n)[i] == d[i] && d[i] in d;
          } else if i > |d| {
            assert SizeLabel(n)[i] == d[i - |d| - 1] && d[i - |d| - 1] in d;
          }
        }
      }
      forall i | 0 <= i && i + 8 <= |s| ensures s[i] != 'm' || s[i + 1] != 'a' {
        if i + 1 < |p| {
          assert s[i] == p[i] && s[i + 1] == p[i + 1];
        } else if i + 1 == |p| {
          assert s[i + 1] == tail[0];
        } else {
          assert s[i] == tail[i - |p|];
        }
      }
      AbsentByPair(s, "maskable");
    }
  }

  /** A well-named icon is listed with its own size, and as `maskable`
      exactly when it is of the maskable kind. */
  lemma IconListed(e: IconSpec)
    requires e.name == IconName(e.kind, e.size)
    ensures var r := ManifestIconOf(e);
            r.Some? && r.value.sizes == SizeLabel(e.size) && (r.value.purpose == "maskable" <==> e.kind == Maskable)
  {
    IconNameSize(e.kind, e.size);
    MaskableName(e.kind, e.size);
  }

  /** Every icon of the matrix is listed in the manifest, in order, with its
      own size and `maskable` purpose exactly for the maskable group. */
  lemma MatrixIconsListed(b: Checkboxes)
    ensures var m := Matrix(b); var r := ManifestIcons(m);
            |r| == |m|
            && forall i :: 0 <= i < |r| ==>
                 r[i].sizes == SizeLabel(m[i].size)
                 && (r[i].purpose == "maskable" <==> m[i].kind == Maskable)
  {
    var m := Matrix(b);
    MatrixShape(b);
    forall i | 0 <= i < |m| ensures ManifestIconOf(m[i]).Some?
      && ManifestIconOf(m[i]).value.sizes == SizeLabel(m[i].size)
      && (ManifestIconOf(m[i]).value.purpose == "maskable" <==> m[i].kind == Maskable)
    {
      IconListed(m[i]);
    }
  }

  /** One icon of the Laravel configuration: an entry without a size is
      kept, with `'0x0'`. */
  datatype ConfigIcon = ConfigIcon(src: string, sizes: string, maskable: bool)

  function ConfigIconOf(name: string): (r: ConfigIcon)
    ensures SizeMatch(name).None? ==> r.sizes == "0x0"
    ensures SizeMatch(name).Some? ==> Some(r.sizes) == match ManifestIconOf(IconSpec(0, name, "", Standard, false)) case Some(m) => Some(m.sizes) case None => None
  {
    var size := match SizeMatch(name) case Some(d) => d case None => "0";
    ConfigIcon("/icons/" + name, size + "x" + size, Contains(name, "maskable"))
  }

  /** The configuration keeps an icon the manifest drops: a name without
      digits. */
  lemma ConfigKeepsSizeless(e: IconSpec)
    requires forall i :: 0 <= i < |e.name| ==> !IsDigit(e.name[i])
    ensures ManifestIcons([e]) == [] && ConfigIconOf(e.name).sizes == "0x0"
  {
    NoDigitsNoSize(e.name, 0);
    assert [e][..0] == [];
  }

  /** The manifest's `shortcuts`: entries with a name and a URL, the short
      name falling back to the name. */
  function ManifestShortcut(s: Shortcut): Shortcut {
    Shortcut(s.name, if s.shortName != [] then s.shortName else s.name, s.url, s.description)
  }

  predicate Complete(s: Shortcut) {
    s.name != [] && s.url != []
  }

  function ManifestShortcuts(s: seq<Shortcut>): (r: seq<Shortcut>)
    ensures |r| <= |s|
    ensures forall x :: x in r ==> x.name != [] && x.url != [] && x.shortName != []
    ensures forall x :: x in r <==> exists i :: 0 <= i < |s| && Complete(s[i]) && x == ManifestShortcut(s[i])
    decreases |s|
  {
    if s == [] then []
    else
      var init := s[..|s| - 1];
      var last := s[|s| - 1];
      assert forall i :: 0 <= i < |init| ==> init[i] == s[i];
      ManifestShortcuts(init) + (if Complete(last) then [ManifestShortcut(last)] else [])
  }

  /** The form fields `generateManifestJSON` reads, `""` when empty. */
  datatype Form = Form(
    appName: string, shortName: string, themeColor: string, backgroundColor: string,
    startUrl: string, scope: string, display: string, orientation: string,
    description: string, lang: string, dir: string, category: string)

  datatype WebManifest = WebManifest(
    name: string, shortName: string, description: string, startUrl: string, scope: string,
    display: string, backgroundColor: string, themeColor: string, orientation: string,
    icons: seq<ManifestIcon>, lang: string, dir: string,
    categories: Option<seq<string>>, protocolHandlers: Option<seq<ProtocolHandler>>,
    shortcuts: Option<seq<Shortcut>>)

  /** `value || fallback` on a string. */
  function Or(v: string, fallback: string): (r: string)
    ensures v != [] ==> r == v
    ensures v == [] ==> r == fallback
  {
    if v == [] then fallback else v
  }

  /** The field is the form's value when filled in and the default when
      empty. */
  predicate Defaulted(out: string, v: string, fallback: string) {
    (v != [] ==> out == v) && (v == [] ==> out == fallback)
  }

  /** `generateManifestJSON()`. */
  function ManifestJson(f: Form, g: Generator): (r: WebManifest)
    reads g
    ensures r.name != [] && r.shortName != [] && r.startUrl != [] && r.display != []
    ensures Defaulted(r.name, f.appName, "My PWA App") && Defaulted(r.shortName, f.shortName, "PWA")
    ensures Defaulted(r.description, f.description, "A Progressive Web App powered by AF-PWA")
    ensures Defaulted(r.startUrl, f.startUrl, "/") && Defaulted(r.scope, f.scope, "/")
    ensures Defaulted(r.display, f.display, "standalone") && Defaulted(r.orientation, f.orientation, "any")
    ensures Defaulted(r.backgroundColor, f.backgroundColor, "#0b1220") && Defaulted(r.themeColor, f.themeColor, "#2563eb")
    ensures Defaulted(r.lang, f.lang, "en") && Defaulted(r.dir, f.dir, "ltr")
    ensures r.categories.Some? <==> f.category != []
    ensures r.categories.Some? ==> r.categories.value == [f.category]
    ensures r.protocolHandlers.Some? <==> g.protocolHandlers != []
    ensures r.protocolHandlers.Some? ==> r.protocolHandlers.value == g.protocolHandlers
    ensures r.shortcuts.Some? <==> g.shortcuts != []
    ensures r.shortcuts.Some? ==> r.shortcuts.value == ManifestShortcuts(g.shortcuts)
    ensures r.icons == ManifestIcons(g.generatedIcons)
  {
    WebManifest(
      Or(f.appName, "My PWA App"), Or(f.shortName, "PWA"),
      Or(f.description, "A Progressive Web App powered by AF-PWA"),
      Or(f.startUrl, "/"), Or(f.scope, "/"), Or(f.display, "standalone"),
      Or(f.backgroundColor, "#0b1220"), Or(f.themeColor, "#2563eb"), Or(f.orientation, "any"),
      ManifestIcons(g.generatedIcons), Or(f.lang, "en"), Or(f.dir, "ltr"),
      if f.category != [] then Some([f.category]) else None,
      if g.protocolHandlers != [] then Some(g.protocolHandlers) else None,
      if g.shortcuts != [] then Some(ManifestShortcuts(g.shortcuts)) else None)
  }
}
