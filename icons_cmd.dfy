/** `af-pwa:generate-icons` (src/Console/GenerateIconsCommand.php): which of
    the four placeholder icons a run writes, the colour it fills them with
    and the letter it draws. The drawing itself (GD, fonts) is not
    modelled. */
module GenerateIconsCommand {
  import opened Text
  import opened HexColor

  /** The icons of `handle`, as size and file name under
      `public/vendor/artflow-studio/pwa/icons`. */
  const IconJobs: seq<(nat, string)> :=
    [(192, "icon-192x192.png"), (512, "icon-512x512.png"),
     (192, "maskable-icon-192x192.png"), (512, "maskable-icon-512x512.png")]

  /** An icon is written unless it exists and `--force` is not given. */
  predicate Writes(existing: set<string>, force: bool, name: string) {
    force || name !in existing
  }

  /** The names a run writes, in the order of `IconJobs`. */
  function Written(existing: set<string>, force: bool, k: nat): (r: seq<string>)
    requires k <= |IconJobs|
    ensures |r| <= k
    ensures forall n :: n in r <==> exists i :: 0 <= i < k && IconJobs[i].1 == n && Writes(existing, force, n)
    ensures (forall i :: 0 <= i < k ==> !Writes(existing, force, IconJobs[i].1)) ==> r == []
  {
    if k == 0 then []
    else
      var name := IconJobs[k - 1].1;
      Written(existing, force, k - 1) + (if Writes(existing, force, name) then [name] else [])
  }

  /** `handle()`: the icons written and the icons skipped. */
  method Handle(existing: set<string>, force: bool) returns (written: seq<string>, skipped: seq<string>)
    ensures written == Written(existing, force, |IconJobs|)
    ensures |written| + |skipped| == |IconJobs|
    ensures forall n :: n in skipped <==> (exists i :: 0 <= i < |IconJobs| && IconJobs[i].1 == n) && !Writes(existing, force, n)
  {
    written := [];
    skipped := [];
    for i := 0 to |IconJobs|
      invariant written == Written(existing, force, i)
      invariant |written| + |skipped| == i
      invariant forall n :: n in skipped <==> (exists j :: 0 <= j < i && IconJobs[j].1 == n) && !Writes(existing, force, n)
    {
      var name := IconJobs[i].1;
      SkippedStep(existing, force, i, skipped);
      if name in existing && !force {
        skipped := skipped + [name];
        continue;
      }
      written := written + [name];
    }
  }

  /** `n` names one of the first `k` icons. */
  predicate AmongFirst(n: string, k: nat) {
    exists j :: 0 <= j < k && j < |IconJobs| && IconJobs[j].1 == n
  }

  lemma SkippedStep(existing: set<string>, force: bool, i: nat, skipped: seq<string>)
    requires i < |IconJobs|
    requires forall n :: n in skipped <==> (exists j :: 0 <= j < i && IconJobs[j].1 == n) && !Writes(existing, force, n)
    ensures var name := IconJobs[i].1;
            var next := if Writes(existing, force, name) then skipped else skipped + [name];
            forall n :: n in next <==> (exists j :: 0 <= j < i + 1 && IconJobs[j].1 == n) && !Writes(existing, force, n)
  {
    var name := IconJobs[i].1;
    forall n ensures AmongFirst(n, i + 1) <==> AmongFirst(n, i) || n == name {
      if n == name {
        assert IconJobs[i].1 == n;
      }
    }
  }

  /** With `--force` all four icons are written. */
  lemma ForceWritesAll(existing: set<string>)
    ensures Written(existing, true, |IconJobs|) == seq(|IconJobs|, i requires 0 <= i < |IconJobs| => IconJobs[i].1)
  {
    assert Written(existing, true, 0) == [];
    assert Written(existing, true, 1) == [IconJobs[0].1];
    assert Written(existing, true, 2) == [IconJobs[0].1, IconJobs[1].1];
    assert Written(existing, true, 3) == [IconJobs[0].1, IconJobs[1].1, IconJobs[2].1];
  }

  /** A second run without `--force` writes nothing: the first one left
      every icon in place. */
  lemma SecondRunSkipsAll(existing: set<string>, force: bool)
    ensures var after := existing + set n | n in Written(existing, force, |IconJobs|);
            Written(after, false, |IconJobs|) == []
  {
    var after := existing + set n | n in Written(existing, force, |IconJobs|);
    forall i | 0 <= i < |IconJobs| ensures IconJobs[i].1 in after {
      if IconJobs[i].1 !in existing {
        assert Writes(existing, force, IconJobs[i].1);
        assert IconJobs[i].1 in Written(existing, force, |IconJobs|);
      }
    }
  }

  /** `hexToRgb($hex)`: red, green and blue as `darkenColor` reads them. */
  function HexToRgb(hex: string): (rgb: seq<nat>)
    ensures |rgb| == 3 && rgb[0] < 256 && rgb[1] < 256 && rgb[2] < 256
    ensures var c := Channels(hex); rgb == [c.0, c.1, c.2]
  {
    var c := Channels(hex);
    [c.0, c.1, c.2]
  }

  /** Six hex digits of either case after any number of `#` are read pair
      by pair. */
  lemma HexToRgbDigits(hashes: nat, h: string)
    requires |h| == 6 && AllHex(h)
    ensures HexToRgb(seq(hashes, _ => '#') + h)
            == [16 * HexValue(h[0]) + HexValue(h[1]), 16 * HexValue(h[2]) + HexValue(h[3]), 16 * HexValue(h[4]) + HexValue(h[5])]
  {
    var s := seq(hashes, _ => '#') + h;
    assert h[0] != '#';
    TrimHashes(hashes, h);
    ChannelsOfSix(s, h);
    HexdecPair(h[0], h[1]);
    HexdecPair(h[2], h[3]);
    HexdecPair(h[4], h[5]);
  }

  /** The colour a lowercase six-digit theme colour is read as prints back
      as that colour. */
  lemma HexToRgbRoundTrip(h: string)
    requires IsLowerHex6(h)
    ensures var rgb := HexToRgb("#" + h); Format((rgb[0], rgb[1], rgb[2])) == "#" + h
  {
    assert "#" + h == seq(1, _ => '#') + h;
    ChannelsRoundTrip(1, h);
  }

  /** The default theme colour `#4F46E5` fills the icons with
      rgb(79, 70, 229). */
  lemma DefaultThemeRgb()
    ensures HexToRgb("#4F46E5") == [79, 70, 229]
  {
    var h := "4F46E5";
    assert AllHex(h) by {
      forall i | 0 <= i < 6 ensures IsHexDigit(h[i]) {
      }
    }
    var s := seq(1, _ => '#') + h;
    assert s == "#4F46E5" by {
      forall i | 0 <= i < 7 ensures s[i] == "#4F46E5"[i] {
      }
    }
    HexToRgbDigits(1, h);
    assert HexValue(h[0]) == 4 && HexValue(h[1]) == 15 && HexValue(h[2]) == 4;
    assert HexValue(h[3]) == 6 && HexValue(h[4]) == 14 && HexValue(h[5]) == 5;
  }

  /** `strtoupper(substr($appName, 0, 1))`: the letter drawn on the icon,
      empty for an empty name. */
  function Initial(appName: string): (r: string)
    ensures appName == [] ==> r == []
    ensures appName != [] ==> r == [UpperChar(appName[0])]
  {
    Upper(Substr(appName, 0, 1))
  }
}
