/** `af-pwa:generate` (src/Console/GenerateCommand.php): which files a run
    generates, the colour darkening of the placeholder icons, the copy
    target of an SVG source, and the `--optimize` pass over the manifest,
    the service worker and the SVG icons. File contents are parameters; the
    filesystem calls and the console output are not modelled. */
module GenerateCommand {
  import opened Wrappers
  import opened Text
  import opened HexColor
  import opened ManifestJson

  // ---------------------------------------------------------------- steps

  datatype Flags = Flags(manifest: bool, serviceWorker: bool, icons: bool, optimize: bool)

  /** What `handle` does, in the order it does it. */
  datatype Step = MakeManifest | MakeServiceWorker | MakeIcons | Optimize | Validate

  function Rank(s: Step): nat {
    match s
    case MakeManifest => 0
    case MakeServiceWorker => 1
    case MakeIcons => 2
    case Optimize => 3
    case Validate => 4
  }

  /** `hasSpecificOption()`. */
  predicate HasSpecificOption(f: Flags) {
    f.manifest || f.serviceWorker || f.icons
  }

  /** The steps of `handle`: without `--manifest`, `--service-worker` or
      `--icons` all three files are generated, otherwise exactly the
      selected ones; `--optimize` adds the optimisation pass at the end. */
  function Steps(f: Flags): (r: seq<Step>)
    ensures !HasSpecificOption(f) ==> MakeManifest in r && MakeServiceWorker in r && MakeIcons in r
    ensures HasSpecificOption(f) ==>
              (MakeManifest in r <==> f.manifest) && (MakeServiceWorker in r <==> f.serviceWorker)
              && (MakeIcons in r <==> f.icons)
    ensures Optimize in r <==> f.optimize
    ensures Validate !in r
    ensures forall i, j :: 0 <= i < j < |r| ==> Rank(r[i]) < Rank(r[j])
  {
    Select(f, [MakeManifest, MakeServiceWorker, MakeIcons, Optimize])
  }

  /** Whether `handle` runs step `s` under the flags. */
  predicate Selected(f: Flags, s: Step) {
    match s
    case MakeManifest => f.manifest || !HasSpecificOption(f)
    case MakeServiceWorker => f.serviceWorker || !HasSpecificOption(f)
    case MakeIcons => f.icons || !HasSpecificOption(f)
    case Optimize => f.optimize
    case Validate => false
  }

  /** The selected steps of `order`, in that order. */
  function Select(f: Flags, order: seq<Step>): (r: seq<Step>)
    requires forall i, j :: 0 <= i < j < |order| ==> Rank(order[i]) < Rank(order[j])
    ensures forall s :: s in r <==> s in order && Selected(f, s)
    ensures forall i, j :: 0 <= i < j < |r| ==> Rank(r[i]) < Rank(r[j])
    ensures forall i :: 0 <= i < |r| ==> exists k :: 0 <= k < |order| && r[i] == order[k]
  {
    if order == [] then []
    else (if Selected(f, order[0]) then [order[0]] else []) + Select(f, order[1..])
  }

  // ---------------------------------------------------------------- colours

  /** The integer part, toward zero, of `n / 100`: how `%02x` reads the
      float `$c - ($c * $percent / 100)` written as `n / 100`. */
  function TruncDiv100(n: int): int {
    if n >= 0 then n / 100 else -((-n) / 100)
  }

  /** `max(0, min(255, x))`. */
  function Clamp255(x: int): (r: nat)
    ensures r <= 255
    ensures 0 <= x <= 255 ==> r == x
  {
    if x < 0 then 0 else if x > 255 then 255 else x
  }

  /** One channel of `darkenColor`. */
  function DarkenChannel(c: nat, percent: int): (r: nat)
    ensures r <= 255
  {
    Clamp255(TruncDiv100(100 * c - c * percent))
  }

  /** `ceil(n / 100)`. */
  function CeilDiv100(n: int): int {
    -((-n) / 100)
  }

  lemma ShiftDiv100(c: int, m: int)
    ensures (100 * c + m) / 100 == c + m / 100
  {
  }

  /** Each channel loses the rounded-up share `c * percent / 100`, within
      0..255. */
  lemma DarkenChannelCeil(c: nat, percent: int)
    ensures DarkenChannel(c, percent) == Clamp255(c - CeilDiv100(c * percent))
  {
    var n := c * percent;
    if 100 * c - n >= 0 {
      ShiftDiv100(c, -n);
    } else {
      ShiftDiv100(c, -n);
      assert c - CeilDiv100(n) < 0;
    }
  }

  /** A non-negative percentage never lightens, and 100 or more gives
      black. */
  lemma DarkenChannelBounds(c: nat, percent: int)
    requires c <= 255 && 0 <= percent
    ensures DarkenChannel(c, percent) <= c
    ensures percent >= 100 ==> DarkenChannel(c, percent) == 0
  {
    DarkenChannelCeil(c, percent);
    assert c * percent >= 0;
    if percent >= 100 {
      assert c * percent >= c * 100;
    }
  }

  /** `darkenColor($hex, $percent)`. */
  function DarkenColor(hex: string, percent: int): (r: string)
    ensures |r| == 7 && r[0] == '#' && IsLowerHex6(r[1..])
  {
    var rgb := Channels(hex);
    Format((DarkenChannel(rgb.0, percent), DarkenChannel(rgb.1, percent), DarkenChannel(rgb.2, percent)))
  }

  /** Darkening by 0 gives back a lowercase six-digit colour, whatever the
      number of `#` in front of it. */
  lemma DarkenByZero(hashes: nat, h: string)
    requires IsLowerHex6(h)
    ensures DarkenColor(seq(hashes, _ => '#') + h, 0) == "#" + h
  {
    var s := seq(hashes, _ => '#') + h;
    var rgb := Channels(s);
    ChannelsRoundTrip(hashes, h);
    assert DarkenChannel(rgb.0, 0) == rgb.0 && DarkenChannel(rgb.1, 0) == rgb.1 && DarkenChannel(rgb.2, 0) == rgb.2;
  }

  /** A three-digit colour darkens like its six-digit expansion. */
  lemma DarkenShorthand(a: char, b: char, c: char, percent: int)
    requires a != '#'
    ensures DarkenColor([a, b, c], percent) == DarkenColor([a, a, b, b, c, c], percent)
  {
    ShorthandExpands(a, b, c);
  }

  /** The default theme colour `#007bff` darkened by 20% is `#0062cc`. */
  lemma DefaultThemeDarkened()
    ensures DarkenColor("#007bff", 20) == "#0062cc"
  {
    DefaultThemeChannels();
    DefaultThemeDigits();
    DarkenChannelValue(0, 20, 0, 0);
    DarkenChannelValue(123, 20, 9840, 98);
    DarkenChannelValue(255, 20, 20400, 204);
  }

  lemma DarkenChannelValue(c: nat, percent: int, n: nat, v: nat)
    requires 100 * c - c * percent == n && n / 100 == v
    ensures DarkenChannel(c, percent) == Clamp255(v)
  {
  }

  lemma DefaultThemeChannels()
    ensures Channels("#007bff") == (0, 123, 255)
  {
    var h := "007bff";
    assert "#007bff" == seq(1, _ => '#') + h;
    TrimHashes(1, h);
    ChannelsOfSix("#007bff", h);
    HexdecPair('0', '0');
    HexdecPair('7', 'b');
    HexdecPair('f', 'f');
  }

  lemma DefaultThemeDigits()
    ensures Format((0, 98, 204)) == "#0062cc"
  {
    assert Hex2(0) == "00" && Hex2(98) == "62" && Hex2(204) == "cc";
  }

  // ---------------------------------------------------------------- icons

  /** Where `generateIconSize` copies the source: an SVG source for a size
      of 192 or more goes to the destination with every `.png` turned into
      `.svg`; anything else to the destination itself. */
  function IconCopyTarget(source: string, destination: string, size: int): string {
    if EndsWith(source, ".svg") && size >= 192 then ReplaceAll(destination, ".png", ".svg") else destination
  }

  /** A path ending in its only `.png` ends in `.svg` instead. */
  lemma {:induction false} PngSuffixReplaced(d: string)
    requires !Contains(d, ".png")
    ensures ReplaceAll(d + ".png", ".png", ".svg") == d + ".svg"
    decreases |d|
  {
    var s := d + ".png";
    if d == [] {
      assert s == ".png" && StartsWith(s, ".png");
      assert s[4..] == [];
    } else {
      NoPngAtHead(d);
      NoPngInTail(d);
      PngSuffixReplaced(d[1..]);
      assert s[1..] == d[1..] + ".png";
      assert d + ".svg" == [d[0]] + (d[1..] + ".svg");
    }
  }

  /** A non-empty path without `.png`, followed by `.png`, does not start
      with `.png`. */
  lemma NoPngAtHead(d: string)
    requires d != [] && !Contains(d, ".png")
    ensures !StartsWith(d + ".png", ".png")
  {
    var s := d + ".png";
    if |d| >= 4 {
      assert s[..4] == d[..4];
      assert !OccursAt(d, ".png", 0);
    } else {
      assert s[|d|] == '.' && ".png"[|d|] != '.';
    }
  }

  /** The tail of a path without `.png` has none either. */
  lemma NoPngInTail(d: string)
    requires d != [] && !Contains(d, ".png")
    ensures !Contains(d[1..], ".png")
  {
    forall i: nat | i <= |d[1..]| ensures !OccursAt(d[1..], ".png", i) {
      if OccursAt(d[1..], ".png", i) {
        assert d[i + 1..i + 5] == d[1..][i..i + 4];
        assert OccursAt(d, ".png", i + 1);
      }
    }
  }

  /** Large sizes of an SVG source are copied to an `.svg` file; small
      sizes and other sources to the `.png` destination itself. */
  lemma SvgSourceTarget(source: string, d: string, size: int)
    requires !Contains(d, ".png")
    ensures EndsWith(source, ".svg") && size >= 192 ==> IconCopyTarget(source, d + ".png", size) == d + ".svg"
    ensures !(EndsWith(source, ".svg") && size >= 192) ==> IconCopyTarget(source, d + ".png", size) == d + ".png"
  {
    PngSuffixReplaced(d);
  }

  /** The files `findSourceIcon` looks for under `public/`, in order. */
  const SourceCandidates: seq<string> :=
    ["logo.svg", "logo.png", "favicon.svg", "favicon.png", "favicon.ico", "icon.svg", "icon.png"]

  /** `findSourceIcon()`: the first candidate that exists. */
  method FindSourceIcon(present: set<string>) returns (r: Option<string>)
    ensures r.None? <==> forall i :: 0 <= i < |SourceCandidates| ==> SourceCandidates[i] !in present
    ensures r.Some? ==> exists i :: 0 <= i < |SourceCandidates| && SourceCandidates[i] == r.value
                          && r.value in present
                          && forall j :: 0 <= j < i ==> SourceCandidates[j] !in present
  {
    for i := 0 to |SourceCandidates|
      invariant forall j :: 0 <= j < i ==> SourceCandidates[j] !in present
    {
      if SourceCandidates[i] in present {
        return Some(SourceCandidates[i]);
      }
    }
    return None;
  }

  /** The sizes of `generateIconSizes` and `createPlaceholderIcons`. */
  const IconSizes: seq<nat> := [16, 32, 72, 96, 128, 144, 152, 192, 384, 512]

  /** `generateAppleIcons`: file name under `public/` and size. */
  const AppleIcons: seq<(string, nat)> :=
    [("apple-touch-icon.png", 180), ("apple-touch-icon-152x152.png", 152),
     ("apple-touch-icon-144x144.png", 144), ("apple-touch-icon-120x120.png", 120),
     ("apple-touch-icon-114x114.png", 114), ("apple-touch-icon-76x76.png", 76),
     ("apple-touch-icon-72x72.png", 72), ("apple-touch-icon-60x60.png", 60),
     ("apple-touch-icon-57x57.png", 57)]

  const MaskableSizes: seq<nat> := [192, 512]

  const IconPrefix: string := "icons/icon-"
  const MaskablePrefix: string := "icons/maskable-icon-"

  /** `icons/icon-{$size}x{$size}.png`, relative to `public/`. */
  function IconPath(n: nat): string {
    IconPrefix + SizeLabel(n) + ".png"
  }

  function MaskablePath(n: nat): string {
    MaskablePrefix + SizeLabel(n) + ".png"
  }

  /** The files `createPlaceholderIcons` writes: one per icon size. */
  function PlaceholderFiles(): seq<string> {
    seq(|IconSizes|, i requires 0 <= i < |IconSizes| => IconPath(IconSizes[i]))
  }

  /** The files `generateIconSizes` copies the source to. */
  function SizedCopies(src: string): seq<string> {
    seq(|IconSizes|, i requires 0 <= i < |IconSizes| => IconCopyTarget(src, IconPath(IconSizes[i]), IconSizes[i]))
  }

  /** The files `generateAppleIcons` copies the source to. */
  function AppleCopies(src: string): seq<string> {
    seq(|AppleIcons|, i requires 0 <= i < |AppleIcons| => IconCopyTarget(src, AppleIcons[i].0, AppleIcons[i].1))
  }

  /** The files `generateMaskableIcons` copies the source to. */
  function MaskableFiles(): seq<string> {
    seq(|MaskableSizes|, i requires 0 <= i < |MaskableSizes| => MaskablePath(MaskableSizes[i]))
  }

  /** The files a run of `generateIcons` writes when every copy succeeds:
      placeholders at the icon paths without a source; with one, the copies
      of `generateIconSizes`, then the Apple icons, then the maskable ones. */
  function IconRunFiles(source: Option<string>): seq<string> {
    match source
    case None => PlaceholderFiles()
    case Some(src) => SizedCopies(src) + AppleCopies(src) + MaskableFiles()
  }

  /** `createPlaceholderIcons()`: the files it writes, in order. */
  method CreatePlaceholderIcons() returns (written: seq<string>)
    ensures written == PlaceholderFiles()
  {
    written := [];
    for i := 0 to |IconSizes|
      invariant written == PlaceholderFiles()[..i]
    {
      written := written + [IconPath(IconSizes[i])];
    }
  }

  /** `generateIconSizes($sourceIcon)`: the files it writes, in order. */
  method GenerateIconSizes(src: string) returns (written: seq<string>)
    ensures written == SizedCopies(src)
  {
    written := [];
    for i := 0 to |IconSizes|
      invariant written == SizedCopies(src)[..i]
    {
      written := written + [IconCopyTarget(src, IconPath(IconSizes[i]), IconSizes[i])];
    }
  }

  /** `generateAppleIcons($sourceIcon)`: the files it writes, in order. */
  method GenerateAppleIcons(src: string) returns (written: seq<string>)
    ensures written == AppleCopies(src)
  {
    written := [];
    for i := 0 to |AppleIcons|
      invariant written == AppleCopies(src)[..i]
    {
      written := written + [IconCopyTarget(src, AppleIcons[i].0, AppleIcons[i].1)];
    }
  }

  /** `generateMaskableIcons($sourceIcon)`: the files it writes, in order. */
  method GenerateMaskableIcons() returns (written: seq<string>)
    ensures written == MaskableFiles()
  {
    written := [];
    for i := 0 to |MaskableSizes|
      invariant written == MaskableFiles()[..i]
    {
      written := written + [MaskablePath(MaskableSizes[i])];
    }
  }

  /** `generateIcons()` with the source `findSourceIcon` returned: the files
      it writes, in order. */
  method GenerateIcons(source: Option<string>) returns (written: seq<string>)
    ensures written == IconRunFiles(source)
  {
    if source.None? {
      written := CreatePlaceholderIcons();
      return;
    }
    var sized := GenerateIconSizes(source.value);
    var apple := GenerateAppleIcons(source.value);
    var maskable := GenerateMaskableIcons();
    written := sized + apple + maskable;
  }

  lemma NoDotInIconStem(n: nat)
    ensures !Contains(IconPrefix + SizeLabel(n), ".png")
  {
    var d := IconPrefix + SizeLabel(n);
    forall i | 0 <= i < |d| ensures d[i] != '.' {
      if i >= |IconPrefix| {
        assert d[i] == SizeLabel(n)[i - |IconPrefix|];
        assert d[i] in SizeLabel(n);
      }
    }
    forall i: nat | i <= |d| ensures !OccursAt(d, ".png", i) {
      if i + 4 <= |d| {
        assert d[i..i + 4][0] == d[i];
      }
    }
  }

  /** Two strings that end in four characters whose second ones differ are
      different. */
  lemma EndingsDiffer(a: string, x: string, b: string, y: string)
    requires |x| == |y| == 4 && x[1] != y[1]
    ensures a + x != b + y
  {
    assert (a + x)[|a| + 1] == x[1];
    assert (b + y)[|b| + 1] == y[1];
  }

  /** Two strings whose `k`-th characters differ are different. */
  lemma PrefixesDiffer(p: string, a: string, q: string, b: string, k: nat)
    requires k < |p| && k < |q| && p[k] != q[k]
    ensures p + a != q + b
  {
    assert (p + a)[k] == p[k] && (q + b)[k] == q[k];
  }

  /** Without a source, or with a source that is not SVG, every size of
      `IconSizes` is written at its `.png` path. */
  lemma PngIconsWritten(source: Option<string>, i: nat)
    requires source.None? || !EndsWith(source.value, ".svg")
    requires i < |IconSizes|
    ensures IconPath(IconSizes[i]) in IconRunFiles(source)
  {
    var files := IconRunFiles(source);
    assert files[i] == IconPath(IconSizes[i]);
  }

  /** With an SVG source, the sizes from 192 up are copied to `.svg` files,
      so `icons/icon-192x192.png`, `icons/icon-384x384.png` and
      `icons/icon-512x512.png` are never written. */
  lemma SvgSourceSkipsPng(src: string, i: nat)
    requires EndsWith(src, ".svg")
    requires i < |IconSizes| && IconSizes[i] >= 192
    ensures IconPath(IconSizes[i]) !in IconRunFiles(Some(src))
    ensures IconPrefix + SizeLabel(IconSizes[i]) + ".svg" in IconRunFiles(Some(src))
  {
    var target := IconSizes[i];
    SizedSkipPng(src, target);
    AppleSkipIconPath(src, target);
    MaskableSkipIconPath(target);
    NoDotInIconStem(target);
    SvgSourceTarget(src, IconPrefix + SizeLabel(target), target);
    assert SizedCopies(src)[i] == IconPrefix + SizeLabel(target) + ".svg";
    assert IconRunFiles(Some(src)) == SizedCopies(src) + AppleCopies(src) + MaskableFiles();
  }

  /** With an SVG source, no size copy goes to the `.png` path of a size
      of 192 or more. */
  lemma SizedSkipPng(src: string, target: nat)
    requires EndsWith(src, ".svg") && target >= 192
    ensures IconPath(target) !in SizedCopies(src)
  {
    var files := SizedCopies(src);
    assert IconPath(target) == IconPrefix + (SizeLabel(target) + ".png");
    forall k | 0 <= k < |files| ensures files[k] != IconPath(target) {
      var size := IconSizes[k];
      NoDotInIconStem(size);
      SvgSourceTarget(src, IconPrefix + SizeLabel(size), size);
      if size >= 192 {
        EndingsDiffer(IconPrefix + SizeLabel(size), ".svg", IconPrefix + SizeLabel(target), ".png");
      } else if files[k] == IconPath(target) {
        assert IconPrefix + SizeLabel(size) + ".png" == IconPrefix + SizeLabel(target) + ".png";
        assert SizeLabel(size) == SizeLabel(target) by {
          assert SizeLabel(size) == (IconPrefix + SizeLabel(size) + ".png")[|IconPrefix|..|IconPrefix| + |SizeLabel(size)|];
        }
        SizeLabelInjective(size, target);
      }
    }
  }

  /** No Apple icon is at an `icons/icon-` path. */
  lemma AppleSkipIconPath(src: string, target: nat)
    ensures IconPath(target) !in AppleCopies(src)
  {
    var files := AppleCopies(src);
    forall k | 0 <= k < |files| ensures files[k] != IconPath(target) {
      var entry := AppleIcons[k];
      assert files[k] == entry.0;
      PrefixesDiffer(entry.0, [], IconPrefix, SizeLabel(target) + ".png", 0);
    }
  }

  /** No maskable icon is at an `icons/icon-` path. */
  lemma MaskableSkipIconPath(target: nat)
    ensures IconPath(target) !in MaskableFiles()
  {
    var files := MaskableFiles();
    forall k | 0 <= k < |files| ensures files[k] != IconPath(target) {
      var size := MaskableSizes[k];
      assert files[k] == MaskablePrefix + (SizeLabel(size) + ".png");
      PrefixesDiffer(MaskablePrefix, SizeLabel(size) + ".png", IconPrefix, SizeLabel(target) + ".png", 6);
    }
  }

  // ---------------------------------------------------------------- manifest

  /** What `optimizeManifest` does to `public/manifest.json`. */
  datatype ManifestWrite = NoFile | Written(content: Json) | Throws

  /** The entries whose value is not PHP-empty, in order. */
  function DropEmpty(entries: seq<(string, Json)>): (r: seq<(string, Json)>)
    ensures |r| <= |entries|
    ensures forall e :: e in r <==> e in entries && !PhpEmpty(e.1)
    decreases |entries|
  {
    if entries == [] then []
    else
      var last := entries[|entries| - 1];
      DropEmpty(entries[..|entries| - 1]) + (if PhpEmpty(last.1) then [] else [last])
  }

  /** The indices of the items that are not PHP-empty. */
  function KeptIndices(items: seq<Json>): (r: seq<nat>)
    ensures forall j :: 0 <= j < |r| ==> r[j] < |items| && !PhpEmpty(items[r[j]])
    ensures forall i :: 0 <= i < |items| && !PhpEmpty(items[i]) ==> i in r
    decreases |items|
  {
    if items == [] then []
    else
      var n := |items| - 1;
      KeptIndices(items[..n]) + (if PhpEmpty(items[n]) then [] else [n])
  }

  /** `array_filter` on a list keeps the original keys; `json_encode` then
      writes a list only when they still run 0, 1, 2, ... and an object
      keyed by the indices otherwise. */
  function FilteredList(items: seq<Json>): Json {
    var kept := KeptIndices(items);
    if forall j :: 0 <= j < |kept| ==> kept[j] == j then
      List(seq(|kept|, j requires 0 <= j < |kept| => items[kept[j]]))
    else
      Object(seq(|kept|, j requires 0 <= j < |kept| => (Decimal(kept[j]), items[kept[j]])))
  }

  /** The array `json_decode($text, true)` builds from a decoded object:
      keys merged, values decoded to arrays at every depth. */
  function DecodedArray(entries: seq<(string, Json)>): seq<(string, Json)> {
    MergeKeys(RoundTripEntries(Object(entries), entries))
  }

  /** That array after `array_filter`: the entries whose value is not
      PHP-empty, with their keys, in order. */
  function KeptArray(entries: seq<(string, Json)>): seq<(string, Json)> {
    DropEmpty(DecodedArray(entries))
  }

  /** `optimizeManifest()` on the decoded file: every top-level value that
      is PHP-empty is removed and the remaining array is encoded, as a list
      when its keys run 0, 1, 2, ... (so an object whose values are all
      PHP-empty is written as `[]`). `array_filter` throws on anything that
      is not an array, which includes text that is not JSON. */
  function OptimizedManifest(file: Option<Decoded>): (r: ManifestWrite)
    ensures file.None? ==> r == NoFile
    ensures file == Some(Invalid) ==> r == Throws
    ensures file.Some? && file.value.Value? && !file.value.v.Object? && !file.value.v.List? ==> r == Throws
    ensures file.Some? && file.value.Value? && file.value.v.Object? ==>
              r == Written(EncodeArray(KeptArray(file.value.v.entries)))
  {
    match file
    case None => NoFile
    case Some(Invalid) => Throws
    case Some(Value(v)) =>
      match v
      case Object(entries) => Written(EncodeArray(KeptArray(entries)))
      case List(items) => Written(FilteredList(seq(|items|, i requires 0 <= i < |items| => RoundTrip(items[i]))))
      case _ => Throws
  }

  /** A key survives the filter exactly when the value it has last is not
      PHP-empty, and it then keeps that value as decoded. */
  lemma KeptKeys(entries: seq<(string, Json)>, key: string)
    ensures key in Keys(KeptArray(entries)) <==> Lookup(entries, key).Some? && !PhpEmpty(Lookup(entries, key).value)
    ensures forall e :: e in KeptArray(entries) && e.0 == key ==> e.1 == RoundTrip(Lookup(entries, key).value)
  {
    DecodedKeys(entries, key);
    FilterKeys(DecodedArray(entries), key, Lookup(entries, key));
  }

  /** Filtering an array whose key `key` holds the decoded `v` keeps the key
      exactly when `v` is not PHP-empty. */
  lemma FilterKeys(d: seq<(string, Json)>, key: string, v: Option<Json>)
    requires key in Keys(d) <==> v.Some?
    requires forall e :: e in d && e.0 == key ==> v.Some? && e.1 == RoundTrip(v.value)
    ensures key in Keys(DropEmpty(d)) <==> v.Some? && !PhpEmpty(v.value)
    ensures forall e :: e in DropEmpty(d) && e.0 == key ==> e.1 == RoundTrip(v.value)
  {
    var r := DropEmpty(d);
    if v.Some? {
      PhpEmptyRoundTrip(v.value);
      var i :| 0 <= i < |d| && d[i].0 == key;
      assert d[i] in d;
      if !PhpEmpty(v.value) {
        assert d[i] in r;
      }
    }
    if key in Keys(r) {
      var i :| 0 <= i < |r| && r[i].0 == key;
      assert r[i] in r;
    }
  }

  /** The decoded array holds a key exactly when the object does, with the
      value it has last, decoded. */
  lemma DecodedKeys(entries: seq<(string, Json)>, key: string)
    ensures key in Keys(DecodedArray(entries)) <==> Lookup(entries, key).Some?
    ensures forall e :: e in DecodedArray(entries) && e.0 == key ==>
              Lookup(entries, key).Some? && e.1 == RoundTrip(Lookup(entries, key).value)
  {
    var ne := RoundTripEntries(Object(entries), entries);
    var d := DecodedArray(entries);
    LookupRoundTrip(entries, ne, key);
    forall e | e in d && e.0 == key ensures Lookup(entries, key).Some? && e.1 == RoundTrip(Lookup(entries, key).value) {
      var i :| 0 <= i < |d| && d[i] == e;
    }
  }

  /** When every value of the manifest object is PHP-empty, `[]` is
      written. */
  lemma AllEmptyWrittenAsList(entries: seq<(string, Json)>)
    requires forall i :: 0 <= i < |entries| ==> PhpEmpty(entries[i].1)
    ensures OptimizedManifest(Some(Value(Object(entries)))) == Written(List([]))
  {
    var ne := RoundTripEntries(Object(entries), entries);
    var d := DecodedArray(entries);
    forall e | e in d ensures PhpEmpty(e.1) {
      var i :| 0 <= i < |ne| && ne[i] == e;
      PhpEmptyRoundTrip(entries[i].1);
    }
    DropAllEmpty(d);
    assert EncodeArray([]) == List([]);
  }

  lemma {:induction false} DropAllEmpty(entries: seq<(string, Json)>)
    requires forall e :: e in entries ==> PhpEmpty(e.1)
    ensures DropEmpty(entries) == []
    decreases |entries|
  {
    if entries != [] {
      var n := |entries| - 1;
      assert forall e :: e in entries[..n] ==> e in entries;
      assert entries[n] in entries;
      DropAllEmpty(entries[..n]);
    }
  }

  /** `"prefer_related_applications": false` is dropped from the manifest. */
  lemma FalseFlagDropped(before: seq<(string, Json)>, after: seq<(string, Json)>)
    requires forall i :: 0 <= i < |after| ==> after[i].0 != "prefer_related_applications"
    ensures var m := before + [("prefer_related_applications", Bool(false))] + after;
            OptimizedManifest(Some(Value(Object(m)))) == Written(EncodeArray(KeptArray(m)))
            && "prefer_related_applications" !in Keys(KeptArray(m))
  {
    var m := before + [("prefer_related_applications", Bool(false))] + after;
    LookupLastWins(before, "prefer_related_applications", Bool(false), after);
    KeptKeys(m, "prefer_related_applications");
  }

  // ---------------------------------------------------------------- minifier

  /** `preg_replace('/open[\s\S]*?close/', '', $s)`: from each `open` up
      to the first `close` after it is removed; an `open` that is never
      closed stays. */
  function StripBetween(s: string, open: string, close: string): (r: string)
    requires open != []
    ensures |r| <= |s|
    decreases |s|
  {
    if s == [] then []
    else if StartsWith(s, open) then
      match IndexFrom(s, close, |open|)
      case Some(k) => StripBetween(s[k + |close|..], open, close)
      case None => [s[0]] + StripBetween(s[1..], open, close)
    else [s[0]] + StripBetween(s[1..], open, close)
  }

  /** Block comments of the service worker. */
  function StripBlockComments(s: string): (r: string) {
    StripBetween(s, "/*", "*/")
  }

  /** The index of the first line feed of `s`, or `|s|`. */
  function LineEnd(s: string): (k: nat)
    ensures k <= |s| && '\n' !in s[..k] && (k < |s| ==> s[k] == '\n')
    decreases |s|
  {
    if s == [] || s[0] == '\n' then 0 else LineEnd(s[1..]) + 1
  }

  /** `preg_replace('/\/\/.*$/m', '', $s)`: from each double slash to the
      end of its line is removed, the line feed itself kept. */
  function StripLineComments(s: string): (r: string)
    ensures |r| <= |s|
    decreases |s|
  {
    if s == [] then []
    else if StartsWith(s, "//") then StripLineComments(s[LineEnd(s)..])
    else [s[0]] + StripLineComments(s[1..])
  }

  /** The text after the run of `\s` characters at the start of `s`. */
  function AfterSpaces(s: string): (r: string)
    ensures |r| <= |s| && s[|s| - |r|..] == r
    ensures r == [] || r[0] !in PcreSpace
    decreases |s|
  {
    if s != [] && s[0] in PcreSpace then AfterSpaces(s[1..]) else s
  }

  /** No two `\s` characters next to each other. */
  predicate SingleSpaced(s: string) {
    forall i :: 0 <= i < |s| - 1 ==> s[i] !in PcreSpace || s[i + 1] !in PcreSpace
  }

  /** `preg_replace('/\s+/', ' ', $s)`. */
  function CollapseSpaces(s: string): (r: string)
    ensures SingleSpaced(r)
    ensures r == [] <==> s == []
    ensures s != [] && s[0] !in PcreSpace ==> r[0] == s[0]
    decreases |s|
  {
    if s == [] then []
    else if s[0] in PcreSpace then " " + CollapseSpaces(AfterSpaces(s))
    else [s[0]] + CollapseSpaces(s[1..])
  }

  lemma SingleSpacedSlice(s: string, a: nat, b: nat)
    requires a <= b <= |s| && SingleSpaced(s)
    ensures SingleSpaced(s[a..b])
  {
    forall i | 0 <= i < b - a - 1 ensures s[a..b][i] !in PcreSpace || s[a..b][i + 1] !in PcreSpace {
      assert s[a..b][i] == s[a + i] && s[a..b][i + 1] == s[a + i + 1];
    }
  }

  /** `trim` keeps single spacing and leaves no PHP whitespace at either
      end. */
  lemma TrimSingleSpaced(s: string)
    requires SingleSpaced(s)
    ensures var r := Trim(s, PhpWhitespace);
            SingleSpaced(r) && (r == [] || (r[0] !in PhpWhitespace && r[|r| - 1] !in PhpWhitespace))
  {
    var l := TrimLeft(s, PhpWhitespace);
    TrimLeftSuffix(s, PhpWhitespace);
    SingleSpacedSlice(s, |s| - |l|, |s|);
    var r := TrimRight(l, PhpWhitespace);
    SingleSpacedSlice(l, 0, |r|);
    if r != [] {
      assert r[0] == l[0];
    }
  }

  /** The four rewrites of `optimizeServiceWorker`, in order. */
  function Minified(s: string): (r: string)
    ensures SingleSpaced(r)
    ensures r == [] || (r[0] !in PhpWhitespace && r[|r| - 1] !in PhpWhitespace)
  {
    TrimSingleSpaced(CollapseSpaces(StripLineComments(StripBlockComments(s))));
    Trim(CollapseSpaces(StripLineComments(StripBlockComments(s))), PhpWhitespace)
  }

  /** `optimizeServiceWorker()`: the new content of `public/sw.js`, which
      is trimmed and never has two whitespace characters in a row; nothing
      is written without the file. */
  method OptimizeServiceWorker(file: Option<string>) returns (written: Option<string>)
    ensures file.None? <==> written.None?
    ensures written.Some? ==> written.value == Minified(file.value)
    ensures written.Some? ==> SingleSpaced(written.value)
    ensures written.Some? && written.value != [] ==>
              written.value[0] !in PhpWhitespace && written.value[|written.value| - 1] !in PhpWhitespace
  {
    if file.None? {
      return None;
    }
    var content := file.value;
    content := StripBlockComments(content);
    content := StripLineComments(content);
    content := CollapseSpaces(content);
    TrimSingleSpaced(content);
    content := Trim(content, PhpWhitespace);
    return Some(content);
  }

  /** Text without a comment opener is left alone by both comment
      rewrites. */
  lemma {:induction false} NoCommentsKept(s: string)
    requires !Contains(s, "/*") && !Contains(s, "//")
    ensures StripBlockComments(s) == s && StripLineComments(s) == s
    decreases |s|
  {
    if s != [] {
      assert !OccursAt(s, "/*", 0) && !OccursAt(s, "//", 0);
      forall i: nat | i <= |s[1..]| ensures !OccursAt(s[1..], "/*", i) && !OccursAt(s[1..], "//", i) {
        if i + 2 <= |s[1..]| {
          assert s[1..][i..i + 2] == s[i + 1..i + 3];
          assert !OccursAt(s, "/*", i + 1) && !OccursAt(s, "//", i + 1);
        }
      }
      NoCommentsKept(s[1..]);
    }
  }

  /** A double slash ends the line even inside a string literal: in
      `fetch('https://cdn.example/app.js')` everything from `//` to the end
      of the line is cut, and what remains is what came before it. */
  lemma DoubleSlashCutsLine(p: string, t: string)
    requires !Contains(p, "//") && (p == [] || p[|p| - 1] != '/')
    requires '\n' !in t
    ensures StripLineComments(p + "//" + t) == p
  {
    var r := "//" + t;
    assert StartsWith(r, "//") by {
      assert r[..2] == "//";
    }
    assert '\n' !in r;
    LineEndNone(r);
    assert r[LineEnd(r)..] == [];
    DoubleSlashCutsLineFrom(p, r);
    assert p + "//" + t == p + r;
  }

  lemma {:induction false} LineEndNone(s: string)
    requires '\n' !in s
    ensures LineEnd(s) == |s|
    decreases |s|
  {
    if s != [] {
      assert '\n' !in s[1..];
      LineEndNone(s[1..]);
    }
  }

  lemma {:induction false} DoubleSlashCutsLineFrom(p: string, rest: string)
    requires !Contains(p, "//") && (p == [] || p[|p| - 1] != '/')
    requires StartsWith(rest, "//")
    ensures StripLineComments(p + rest) == p + StripLineComments(rest)
    decreases |p|
  {
    if p != [] {
      var s := p + rest;
      NoSlashesAtHead(p, rest);
      assert s[1..] == p[1..] + rest;
      NoSlashesInTail(p);
      DoubleSlashCutsLineFrom(p[1..], rest);
    } else {
      assert p + rest == rest;
    }
  }

  /** Text without `//` and not ending in `/`, followed by `//`, does not
      start with `//`. */
  lemma NoSlashesAtHead(p: string, rest: string)
    requires p != [] && !Contains(p, "//") && p[|p| - 1] != '/'
    requires StartsWith(rest, "//")
    ensures !StartsWith(p + rest, "//")
  {
    var s := p + rest;
    if |p| >= 2 {
      assert s[..2] == p[..2];
      assert !OccursAt(p, "//", 0);
    } else {
      assert s[1] == rest[0] == '/';
    }
  }

  /** The tail of text without `//` has none either. */
  lemma NoSlashesInTail(p: string)
    requires p != [] && !Contains(p, "//")
    ensures !Contains(p[1..], "//")
  {
    forall i: nat | i <= |p[1..]| ensures !OccursAt(p[1..], "//", i) {
      if i + 2 <= |p[1..]| {
        assert p[1..][i..i + 2] == p[i + 1..i + 3];
        assert !OccursAt(p, "//", i + 1);
      }
    }
  }

  // ---------------------------------------------------------------- icon files

  /** `s` without its `\s` characters. */
  function Visible(s: string): (r: string)
    decreases |s|
  {
    if s == [] then [] else (if s[0] in PcreSpace then [] else [s[0]]) + Visible(s[1..])
  }

  lemma {:induction false} AfterSpacesVisible(s: string)
    ensures Visible(AfterSpaces(s)) == Visible(s)
    decreases |s|
  {
    if s != [] && s[0] in PcreSpace {
      AfterSpacesVisible(s[1..]);
    }
  }

  /** `preg_replace('/>\s+</', '><', $s)`: the white space between two tags
      is removed. */
  function JoinTags(s: string): (r: string)
    ensures |r| <= |s|
    decreases |s|
  {
    if s == [] then []
    else
      var t := AfterSpaces(s[1..]);
      if s[0] == '>' && |t| < |s| - 1 && t != [] && t[0] == '<' then [s[0]] + ([t[0]] + JoinTags(t[1..]))
      else [s[0]] + JoinTags(s[1..])
  }

  lemma VisibleCons(c: char, x: string)
    ensures Visible([c] + x) == (if c in PcreSpace then [] else [c]) + Visible(x)
  {
    assert ([c] + x)[0] == c && ([c] + x)[1..] == x;
  }

  /** Joining tags removes white space and nothing else. */
  lemma {:induction false} JoinTagsVisible(s: string)
    ensures Visible(JoinTags(s)) == Visible(s)
    decreases |s|
  {
    if s != [] {
      var t := AfterSpaces(s[1..]);
      if s[0] == '>' && |t| < |s| - 1 && t != [] && t[0] == '<' {
        JoinTagsVisible(t[1..]);
        GapVisible(s, t, JoinTags(t[1..]));
      } else {
        JoinTagsVisible(s[1..]);
        KeptVisible(s, JoinTags(s[1..]));
      }
    }
  }

  lemma GapVisible(s: string, t: string, joined: string)
    requires s != [] && t == AfterSpaces(s[1..]) && t != []
    requires Visible(joined) == Visible(t[1..])
    ensures Visible([s[0]] + ([t[0]] + joined)) == Visible(s)
  {
    VisibleCons(s[0], [t[0]] + joined);
    VisibleCons(t[0], joined);
    AfterSpacesVisible(s[1..]);
    VisibleCons(t[0], t[1..]);
    assert t == [t[0]] + t[1..];
    KeptVisible(s, [t[0]] + joined);
  }

  lemma KeptVisible(s: string, rest: string)
    requires s != [] && Visible(rest) == Visible(s[1..])
    ensures Visible([s[0]] + rest) == Visible(s)
  {
    VisibleCons(s[0], rest);
    VisibleCons(s[0], s[1..]);
    assert s == [s[0]] + s[1..];
  }

  /** Collapsing runs of white space removes white space and nothing
      else. */
  lemma {:induction false} CollapseSpacesVisible(s: string)
    ensures Visible(CollapseSpaces(s)) == Visible(s)
    decreases |s|
  {
    if s != [] {
      if s[0] in PcreSpace {
        CollapseSpacesVisible(AfterSpaces(s));
        AfterSpacesVisible(s);
        assert Visible(" " + CollapseSpaces(AfterSpaces(s))) == Visible(CollapseSpaces(AfterSpaces(s)));
      } else {
        CollapseSpacesVisible(s[1..]);
      }
    }
  }

  /** The rewrite `optimizeIcons` applies to an SVG file. */
  function MinifiedSvg(content: string): (r: string)
    ensures |r| <= |content|
  {
    JoinTags(StripBetween(content, "<!--", "-->"))
  }

  /** The number of `.svg` files among `files`. */
  function SvgCount(files: seq<(string, string)>): (n: nat)
    ensures n <= |files|
    decreases |files|
  {
    if files == [] then 0
    else SvgCount(files[..|files| - 1]) + (if EndsWith(files[|files| - 1].0, ".svg") then 1 else 0)
  }

  /** `optimizeIcons()` over the icon directory's files, as name and
      content: every `.svg` file is rewritten and counted, the others are
      left as they are; nothing happens without the directory. */
  method OptimizeIcons(dir: Option<seq<(string, string)>>) returns (optimized: nat, files: seq<(string, string)>)
    ensures dir.None? ==> optimized == 0 && files == []
    ensures dir.Some? ==> |files| == |dir.value| && optimized == SvgCount(dir.value)
    ensures dir.Some? ==> forall i :: 0 <= i < |files| ==>
              files[i] == (if EndsWith(dir.value[i].0, ".svg") then (dir.value[i].0, MinifiedSvg(dir.value[i].1)) else dir.value[i])
  {
    optimized := 0;
    files := [];
    if dir.None? {
      return;
    }
    var icons := dir.value;
    for i := 0 to |icons|
      invariant |files| == i
      invariant forall j :: 0 <= j < i ==>
                  files[j] == (if EndsWith(icons[j].0, ".svg") then (icons[j].0, MinifiedSvg(icons[j].1)) else icons[j])
      invariant optimized == SvgCount(icons[..i])
    {
      assert icons[..i + 1][..i] == icons[..i];
      if EndsWith(icons[i].0, ".svg") {
        files := files + [(icons[i].0, MinifiedSvg(icons[i].1))];
        optimized := optimized + 1;
      } else {
        files := files + [icons[i]];
      }
    }
    assert icons[..|icons|] == icons;
  }
}
