/** Hex colour strings as the console commands read and print them: PHP's
    `ltrim($hex, '#')`, the three-digit shorthand, `hexdec(substr(...))` for
    each channel and `sprintf('%02x')`, and the base-16 printing of
    `Number.prototype.toString(16)` the icon generator relies on. */
module HexColor {
  import opened Text

  predicate IsHexDigit(c: char) {
    '0' <= c <= '9' || 'a' <= c <= 'f' || 'A' <= c <= 'F'
  }

  function HexValue(c: char): (v: nat)
    requires IsHexDigit(c)
    ensures v < 16
  {
    if '0' <= c <= '9' then c as int - 48
    else if 'a' <= c <= 'f' then c as int - 87
    else c as int - 55
  }

  /** The lowercase digit for a value below 16. */
  function Digit(v: nat): (c: char)
    requires v < 16
    ensures IsHexDigit(c) && HexValue(c) == v && !('A' <= c <= 'Z')
  {
    if v < 10 then (48 + v) as char else (87 + v) as char
  }

  predicate AllHex(s: string) {
    forall i :: 0 <= i < |s| ==> IsHexDigit(s[i])
  }

  /** Six lowercase hex digits, as `%02x%02x%02x` prints them. */
  predicate IsLowerHex6(s: string) {
    |s| == 6 && AllHex(s) && forall i :: 0 <= i < 6 ==> !('A' <= s[i] <= 'Z')
  }

  /** PHP's `hexdec`: characters that are not hex digits are skipped. */
  function Hexdec(s: string): (r: nat)
    ensures |s| <= 1 ==> r < 16
    ensures |s| <= 2 ==> r < 256
    decreases |s|
  {
    if s == [] then 0
    else
      var c := s[|s| - 1];
      if IsHexDigit(c) then Hexdec(s[..|s| - 1]) * 16 + HexValue(c) else Hexdec(s[..|s| - 1])
  }

  lemma HexdecPair(a: char, b: char)
    requires IsHexDigit(a) && IsHexDigit(b)
    ensures Hexdec([a, b]) == 16 * HexValue(a) + HexValue(b)
  {
    assert [a, b][..1] == [a];
    assert [a][..0] == [];
  }

  /** Two more hex digits multiply what was read so far by 256. */
  lemma HexdecAppendPair(s: string, a: char, b: char)
    requires IsHexDigit(a) && IsHexDigit(b)
    ensures Hexdec(s + [a, b]) == 256 * Hexdec(s) + 16 * HexValue(a) + HexValue(b)
  {
    assert (s + [a, b])[..|s| + 1] == s + [a];
    assert (s + [a])[..|s|] == s;
  }

  /** PHP's `substr($s, $start, $length)` for a non-negative start and
      length: empty past the end, cut short at the end. */
  function Substr(s: string, start: nat, length: nat): (r: string)
    ensures |r| <= length
    ensures start + length <= |s| ==> r == s[start..start + length]
  {
    if start >= |s| then []
    else s[start..if start + length <= |s| then start + length else |s|]
  }

  /** The colour with its leading `#` characters removed and a three-digit
      shorthand written out by doubling each digit. */
  function Normalize(hex: string): (r: string)
    ensures var h := TrimLeft(hex, {'#'});
            |h| == 3 ==> r == [h[0], h[0], h[1], h[1], h[2], h[2]]
    ensures var h := TrimLeft(hex, {'#'}); |h| != 3 ==> r == h
  {
    var h := TrimLeft(hex, {'#'});
    if |h| == 3 then [h[0], h[0], h[1], h[1], h[2], h[2]] else h
  }

  /** Red, green and blue as both commands read them: `hexdec` of the
      character pairs at 0, 2 and 4 of the normalised colour. */
  function Channels(hex: string): (rgb: (nat, nat, nat))
    ensures rgb.0 < 256 && rgb.1 < 256 && rgb.2 < 256
  {
    var h := Normalize(hex);
    (Hexdec(Substr(h, 0, 2)), Hexdec(Substr(h, 2, 2)), Hexdec(Substr(h, 4, 2)))
  }

  /** `sprintf('%02x', $n)`. */
  function Hex2(n: nat): (r: string)
    requires n < 256
    ensures |r| == 2 && AllHex(r) && !('A' <= r[0] <= 'Z') && !('A' <= r[1] <= 'Z')
    ensures Hexdec(r) == n
  {
    HexdecPair(Digit(n / 16), Digit(n % 16));
    [Digit(n / 16), Digit(n % 16)]
  }

  /** `'#' . sprintf('%02x%02x%02x', ...)` of three channels. */
  function Format(rgb: (nat, nat, nat)): (r: string)
    requires rgb.0 < 256 && rgb.1 < 256 && rgb.2 < 256
    ensures |r| == 7 && r[0] == '#' && IsLowerHex6(r[1..])
  {
    "#" + Hex2(rgb.0) + Hex2(rgb.1) + Hex2(rgb.2)
  }

  /** A pair of lowercase hex digits is printed back as it was read. */
  lemma PairRoundTrip(a: char, b: char)
    requires IsHexDigit(a) && IsHexDigit(b) && !('A' <= a <= 'Z') && !('A' <= b <= 'Z')
    ensures Hex2(Hexdec([a, b])) == [a, b]
  {
    HexdecPair(a, b);
  }

  /** The channels of six hex digits are the values of their pairs. */
  lemma ChannelsOfSix(s: string, h: string)
    requires |h| == 6 && Normalize(s) == h
    ensures Channels(s) == (Hexdec([h[0], h[1]]), Hexdec([h[2], h[3]]), Hexdec([h[4], h[5]]))
  {
    assert Substr(h, 0, 2) == [h[0], h[1]];
    assert Substr(h, 2, 2) == [h[2], h[3]];
    assert Substr(h, 4, 2) == [h[4], h[5]];
  }

  /** A lowercase six-digit colour, with or without leading `#`s, is read
      into channels that format back to the same colour. */
  lemma ChannelsRoundTrip(hashes: nat, h: string)
    requires IsLowerHex6(h)
    ensures var s := seq(hashes, _ => '#') + h;
            Format(Channels(s)) == "#" + h
  {
    var s := seq(hashes, _ => '#') + h;
    TrimHashes(hashes, h);
    assert Normalize(s) == h;
    ChannelsOfSix(s, h);
    PairRoundTrip(h[0], h[1]);
    PairRoundTrip(h[2], h[3]);
    PairRoundTrip(h[4], h[5]);
    SixSplit(h);
  }

  lemma SixSplit(h: string)
    requires |h| == 6
    ensures "#" + [h[0], h[1]] + [h[2], h[3]] + [h[4], h[5]] == "#" + h
  {
    assert [h[0], h[1]] + [h[2], h[3]] + [h[4], h[5]] == h;
  }

  lemma {:induction false} TrimHashes(hashes: nat, h: string)
    requires h == [] || h[0] != '#'
    ensures TrimLeft(seq(hashes, _ => '#') + h, {'#'}) == h
    decreases hashes
  {
    if hashes > 0 {
      var s := seq(hashes, _ => '#') + h;
      assert s[1..] == seq(hashes - 1, _ => '#') + h;
      TrimHashes(hashes - 1, h);
    } else {
      assert seq(0, _ => '#') + h == h;
    }
  }

  /** The shorthand `abc` reads as `aabbcc`. */
  lemma ShorthandExpands(a: char, b: char, c: char)
    requires a != '#'
    ensures Channels([a, b, c]) == Channels([a, a, b, b, c, c])
  {
    assert TrimLeft([a, b, c], {'#'}) == [a, b, c];
    assert TrimLeft([a, a, b, b, c, c], {'#'}) == [a, a, b, b, c, c];
  }

  // ---------------------------------------------------------------- base 16

  /** `n.toString(16)`. */
  function ToBase16(n: nat): (r: string)
    ensures r != []
    decreases n
  {
    if n < 16 then [Digit(n)] else ToBase16(n / 16) + [Digit(n % 16)]
  }

  /** The last `k` base-16 digits of `x`, zero-padded. */
  function FixedDigits(x: nat, k: nat): (r: string)
    ensures |r| == k
    decreases k
  {
    if k == 0 then [] else FixedDigits(x / 16, k - 1) + [Digit(x % 16)]
  }

  function Pow16(k: nat): (p: nat)
    ensures p >= 1
  {
    if k == 0 then 1 else 16 * Pow16(k - 1)
  }

  /** A leading 1 digit above `k` digits: `16^k + x` prints as `1` followed
      by `x` padded to `k` digits. */
  lemma {:induction false} ToBase16Leading(k: nat, x: nat)
    requires x < Pow16(k)
    ensures ToBase16(Pow16(k) + x) == "1" + FixedDigits(x, k)
    decreases k
  {
    if k > 0 {
      var n := Pow16(k) + x;
      assert n / 16 == Pow16(k - 1) + x / 16 && n % 16 == x % 16;
      ToBase16Leading(k - 1, x / 16);
    }
  }

  /** Two low digits of a number are the `%02x` of its last byte. */
  lemma FixedDigitsByte(a: nat, b: nat, k: nat)
    requires b < 256
    ensures FixedDigits(a * 256 + b, k + 2) == FixedDigits(a, k) + Hex2(b)
  {
    var n := a * 256 + b;
    assert n / 16 == a * 16 + b / 16 && n % 16 == b % 16;
    assert (a * 16 + b / 16) / 16 == a && (a * 16 + b / 16) % 16 == b / 16;
  }

  lemma FixedDigitsHex2(b: nat)
    requires b < 256
    ensures FixedDigits(b, 2) == Hex2(b)
  {
    FixedDigitsByte(0, b, 0);
  }

  /** The `#rrggbb` trick of `(0x1000000 + R*0x10000 + G*0x100 + B)
      .toString(16).slice(1)`: the seven-digit number drops its leading 1
      and leaves the three channels as two digits each. */
  lemma Base16Colour(r: nat, g: nat, b: nat)
    requires r < 256 && g < 256 && b < 256
    ensures ToBase16(0x1000000 + r * 0x10000 + g * 0x100 + b)[1..] == Hex2(r) + Hex2(g) + Hex2(b)
  {
    var x := (r * 256 + g) * 256 + b;
    assert 0x1000000 + r * 0x10000 + g * 0x100 + b == Pow16(6) + x by {
      assert Pow16(6) == 0x1000000;
    }
    ToBase16Leading(6, x);
    assert FixedDigits(x, 6) == Hex2(r) + Hex2(g) + Hex2(b) by {
      SixDigits(r, g, b);
    }
  }

  lemma SixDigits(r: nat, g: nat, b: nat)
    requires r < 256 && g < 256 && b < 256
    ensures FixedDigits((r * 256 + g) * 256 + b, 6) == Hex2(r) + Hex2(g) + Hex2(b)
  {
    ThreeBytes(r, g, b, 2);
    FixedDigitsHex2(r);
  }

  lemma ThreeBytes(r: nat, g: nat, b: nat, k: nat)
    requires g < 256 && b < 256
    ensures FixedDigits((r * 256 + g) * 256 + b, k + 4) == FixedDigits(r, k) + Hex2(g) + Hex2(b)
  {
    var rg := r * 256 + g;
    FixedDigitsByte(rg, b, k + 2);
    FixedDigitsByte(r, g, k);
  }
}
