/** Post tags and the integer part of `Color(hex:)` (`Models/Tag.swift`). */
module TagModels {
  import opened Text
  import opened Wrappers
  import opened Dates

  /** A tag with its optional `created_at` / `updated_at` timestamps. */
  datatype Tag = Tag(id: int, name: string, hexColor: string, createdAt: Option<Instant>, updatedAt: Option<Instant>)

  /** The four 8-bit channels `Color(hex:)` computes before scaling to 0..1. */
  datatype Argb = Argb(a: int, r: int, g: int, b: int)

  predicate IsAlnum(c: char) {
    IsDigit(c) || 'a' <= c <= 'z' || 'A' <= c <= 'Z'
  }

  /** `trimmingCharacters(in: .alphanumerics.inverted)`: drops non-alphanumeric
      characters from both ends only. */
  function TrimNonAlnum(s: string): (r: string)
    ensures |r| <= |s|
    ensures r != [] ==> IsAlnum(r[0]) && IsAlnum(r[|r| - 1])
    decreases |s|
  {
    if s == [] then []
    else if !IsAlnum(s[0]) then TrimNonAlnum(s[1..])
    else if !IsAlnum(s[|s| - 1]) then TrimNonAlnum(s[..|s| - 1])
    else s
  }

  predicate IsHexDigit(c: char) {
    IsDigit(c) || 'a' <= c <= 'f' || 'A' <= c <= 'F'
  }

  function HexDigitValue(c: char): (v: nat)
    requires IsHexDigit(c)
    ensures v < 16
  {
    if IsDigit(c) then DigitValue(c)
    else if 'a' <= c <= 'f' then (c as int - 'a' as int + 10) as nat
    else (c as int - 'A' as int + 10) as nat
  }

  predicate AllHex(s: string) {
    forall i :: 0 <= i < |s| ==> IsHexDigit(s[i])
  }

  function Pow16(k: nat): (p: nat)
    ensures p >= 1
  {
    if k == 0 then 1 else 16 * Pow16(k - 1)
  }

  /** The value of a string of hex digits. */
  function HexValue(s: string): nat
    requires AllHex(s)
    decreases |s|
  {
    if s == [] then 0 else HexValue(s[..|s| - 1]) * 16 + HexDigitValue(s[|s| - 1])
  }

  /** A string of `k` hex digits is worth less than 16^k. */
  lemma {:induction false} HexValueBound(s: string)
    requires AllHex(s)
    ensures HexValue(s) < Pow16(|s|)
    decreases |s|
  {
    if s != [] {
      HexValueBound(s[..|s| - 1]);
    }
  }

  /** The longest prefix of hex digits. */
  function HexPrefix(s: string): (p: string)
    ensures AllHex(p) && |p| <= |s| && p == s[..|p|]
    ensures |p| < |s| ==> !IsHexDigit(s[|p|])
    decreases |s|
  {
    if s != [] && IsHexDigit(s[0]) then [s[0]] + HexPrefix(s[1..]) else []
  }

  /** `Scanner.scanHexInt64`: an optional `0x`/`0X` prefix, then as many hex
      digits as there are; 0 when there are none. */
  function ScanHex(s: string): (v: nat)
    ensures v < Pow16(|s|)
  {
    if |s| >= 3 && s[0] == '0' && (s[1] == 'x' || s[1] == 'X') && IsHexDigit(s[2]) then
      Pow16Monotone(|HexPrefix(s[2..])|, |s|);
      HexValueBound(HexPrefix(s[2..]));
      HexValue(HexPrefix(s[2..]))
    else
      Pow16Monotone(|HexPrefix(s)|, |s|);
      HexValueBound(HexPrefix(s));
      HexValue(HexPrefix(s))
  }

  lemma {:induction false} Pow16Monotone(a: nat, b: nat)
    requires a <= b
    ensures Pow16(a) <= Pow16(b)
    decreases b
  {
    if a < b {
      Pow16Monotone(a, b - 1);
    }
  }

  /** The channels for a trimmed hex string of 3 (RGB), 6 (RRGGBB) or 8
      (AARRGGBB) characters; opaque black otherwise. */
  function ChannelsOf(hex: string): (c: Argb) {
    var v := ScanHex(hex);
    if |hex| == 3 then Argb(255, (v / 256) * 17, (v / 16 % 16) * 17, (v % 16) * 17)
    else if |hex| == 6 then Argb(255, v / 65536, v / 256 % 256, v % 256)
    else if |hex| == 8 then Argb(v / 16777216, v / 65536 % 256, v / 256 % 256, v % 256)
    else Argb(255, 0, 0, 0)
  }

  /** `Color(hex:)` before the division by 255. */
  function ColorFromHex(hex: string): (c: Argb) {
    ChannelsOf(TrimNonAlnum(hex))
  }

  predicate InByteRange(c: Argb) {
    0 <= c.a <= 255 && 0 <= c.r <= 255 && 0 <= c.g <= 255 && 0 <= c.b <= 255
  }

  /** Every channel of every parsed colour is a byte, whatever the input:
      the scanned value has no more hex digits than the string is long. */
  lemma ColorChannelsAreBytes(hex: string)
    ensures InByteRange(ColorFromHex(hex))
  {
    var t := TrimNonAlnum(hex);
    var v := ScanHex(t);
    if |t| == 3 {
      assert Pow16(3) == 4096;
      assert v / 256 < 16;
    } else if |t| == 6 {
      assert Pow16(6) == 16777216;
    } else if |t| == 8 {
      assert Pow16(8) == 4294967296;
    }
  }

  /** Strings of any length other than 3, 6 and 8 give opaque black. */
  lemma OtherLengthsAreBlack(hex: string)
    requires |TrimNonAlnum(hex)| != 3 && |TrimNonAlnum(hex)| != 6 && |TrimNonAlnum(hex)| != 8
    ensures ColorFromHex(hex) == Argb(255, 0, 0, 0)
  {
  }

  lemma ShiftAdd(x: int, p: int, y: int, d: int)
    ensures (x * p + y) * 16 + d == x * (16 * p) + (y * 16 + d)
  {
  }

  lemma {:induction false} HexValueAppend(a: string, b: string)
    requires AllHex(a) && AllHex(b)
    ensures AllHex(a + b) && HexValue(a + b) == HexValue(a) * Pow16(|b|) + HexValue(b)
    decreases |b|
  {
    if b != [] {
      var ab := a + b;
      var b' := b[..|b| - 1];
      var d := HexDigitValue(b[|b| - 1]);
      assert ab[..|ab| - 1] == a + b';
      assert ab[|ab| - 1] == b[|b| - 1];
      HexValueAppend(a, b');
      assert HexValue(ab) == HexValue(a + b') * 16 + d;
      assert HexValue(b) == HexValue(b') * 16 + d;
      assert Pow16(|b|) == 16 * Pow16(|b'|);
      ShiftAdd(HexValue(a), Pow16(|b'|), HexValue(b'), d);
    } else {
      assert a + b == a;
    }
  }

  lemma {:induction false} HexPrefixOfAllHex(s: string)
    requires AllHex(s)
    ensures HexPrefix(s) == s
    decreases |s|
  {
    if s != [] {
      HexPrefixOfAllHex(s[1..]);
    }
  }

  lemma ThreeBytes(v: int, r: nat, g: nat, b: nat)
    requires r < 256 && g < 256 && b < 256
    requires v == r * 65536 + g * 256 + b
    ensures v / 65536 == r && v / 256 % 256 == g && v % 256 == b
  {
    assert v / 256 == r * 256 + g;
  }

  /** Two hex digits make a byte. */
  lemma PairBound(p: string)
    requires |p| == 2 && AllHex(p)
    ensures HexValue(p) < 256
  {
    HexValueBound(p);
    assert Pow16(2) == 256;
  }

  lemma Shift256(x: int, y: int, z: int)
    ensures (x * 256 + y) * 256 + z == x * 65536 + y * 256 + z
  {
  }

  /** Appending two hex digits shifts the value by one byte. */
  lemma AppendPair(x: string, y: string)
    requires AllHex(x) && AllHex(y) && |y| == 2
    ensures AllHex(x + y) && HexValue(x + y) == HexValue(x) * 256 + HexValue(y)
  {
    HexValueAppend(x, y);
    assert Pow16(2) == 256;
  }

  lemma SixHexValue(t: string)
    requires |t| == 6 && AllHex(t)
    ensures HexValue(t) == HexValue(t[0..2]) * 65536 + HexValue(t[2..4]) * 256 + HexValue(t[4..6])
  {
    var rg, b := t[0..4], t[4..6];
    assert t == rg + b;
    AppendPair(rg, b);
    var r, g := rg[0..2], rg[2..4];
    assert rg == r + g;
    AppendPair(r, g);
    assert r == t[0..2] && g == t[2..4];
    Shift256(HexValue(r), HexValue(g), HexValue(b));
  }

  /** A `#RRGGBB` string yields opaque alpha and its three byte pairs. */
  lemma SixDigitColor(s: string)
    requires |s| == 7 && s[0] == '#' && AllHex(s[1..])
    ensures ColorFromHex(s) == Argb(255, HexValue(s[1..3]), HexValue(s[3..5]), HexValue(s[5..7]))
  {
    var t := s[1..];
    HashHexScans(s);
    assert t[0..2] == s[1..3] && t[2..4] == s[3..5] && t[4..6] == s[5..7];
    SixHexValue(t);
    var r, g, b := HexValue(s[1..3]), HexValue(s[3..5]), HexValue(s[5..7]);
    PairBound(s[1..3]);
    PairBound(s[3..5]);
    PairBound(s[5..7]);
    ThreeBytes(HexValue(t), r, g, b);
  }

  lemma Nibbles(x: nat, y: nat, z: nat)
    requires x < 16 && y < 16 && z < 16
    ensures var v := (x * 16 + y) * 16 + z;
      v / 256 == x && v / 16 % 16 == y && v % 16 == z
  {
    var v := (x * 16 + y) * 16 + z;
    assert v / 16 == x * 16 + y;
  }

  /** A `#RGB` string repeats each digit: channel = digit * 17 (0xF -> 0xFF). */
  lemma ThreeDigitColor(s: string)
    requires |s| == 4 && s[0] == '#' && AllHex(s[1..])
    ensures ColorFromHex(s) == Argb(255, HexDigitValue(s[1]) * 17, HexDigitValue(s[2]) * 17, HexDigitValue(s[3]) * 17)
  {
    var t := s[1..];
    assert TrimNonAlnum(s) == TrimNonAlnum(t);
    assert IsAlnum(t[0]) && IsAlnum(t[2]);
    assert TrimNonAlnum(t) == t;
    HexPrefixOfAllHex(t);
    assert ScanHex(t) == HexValue(t);
    assert t[..2][..1] == t[..1];
    assert t[..1][..0] == [];
    assert HexValue(t[..1]) == HexDigitValue(t[0]);
    assert HexValue(t[..2]) == HexDigitValue(t[0]) * 16 + HexDigitValue(t[1]);
    assert HexValue(t) == HexValue(t[..2]) * 16 + HexDigitValue(t[2]);
    Nibbles(HexDigitValue(t[0]), HexDigitValue(t[1]), HexDigitValue(t[2]));
  }

  lemma ArgbOf(v: int, a: nat, r: nat, g: nat, b: nat)
    requires a < 256 && r < 256 && g < 256 && b < 256
    requires v == a * 16777216 + r * 65536 + g * 256 + b
    ensures v / 16777216 == a && v / 65536 % 256 == r && v / 256 % 256 == g && v % 256 == b
  {
    assert v / 256 == a * 65536 + r * 256 + g;
    assert v / 65536 == a * 256 + r;
  }

  lemma EightHexValue(t: string)
    requires |t| == 8 && AllHex(t)
    ensures HexValue(t) == HexValue(t[0..2]) * 16777216 + HexValue(t[2..8])
  {
    assert t == t[0..2] + t[2..8];
    HexValueAppend(t[0..2], t[2..8]);
    assert Pow16(6) == 16777216;
  }

  /** After `#`, a string of hex digits is kept whole by the trim and read
      whole by the scanner. */
  lemma HashHexScans(s: string)
    requires |s| >= 2 && s[0] == '#' && AllHex(s[1..])
    ensures TrimNonAlnum(s) == s[1..]
    ensures ScanHex(s[1..]) == HexValue(s[1..])
  {
    var t := s[1..];
    assert TrimNonAlnum(s) == TrimNonAlnum(t);
    assert IsAlnum(t[0]) && IsAlnum(t[|t| - 1]);
    assert TrimNonAlnum(t) == t;
    HexPrefixOfAllHex(t);
  }

  /** A `#AARRGGBB` string is read as ARGB: alpha is the first byte pair, and
      the rest read as in the six-digit case. */
  lemma EightDigitColor(s: string)
    requires |s| == 9 && s[0] == '#' && AllHex(s[1..])
    ensures ColorFromHex(s) == Argb(HexValue(s[1..3]), HexValue(s[3..5]), HexValue(s[5..7]), HexValue(s[7..9]))
  {
    var t := s[1..];
    HashHexScans(s);
    var u := t[2..8];
    assert t[0..2] == s[1..3] && u[0..2] == s[3..5] && u[2..4] == s[5..7] && u[4..6] == s[7..9];
    EightHexValue(t);
    SixHexValue(u);
    var a, r, g, b := HexValue(s[1..3]), HexValue(s[3..5]), HexValue(s[5..7]), HexValue(s[7..9]);
    PairBound(s[1..3]);
    PairBound(s[3..5]);
    PairBound(s[5..7]);
    PairBound(s[7..9]);
    ArgbOf(HexValue(t), a, r, g, b);
  }

  predicate IsUpperHexDigit(c: char) {
    IsDigit(c) || 'A' <= c <= 'F'
  }

  /** `Tag.predefinedColors`. */
  const PredefinedColors: seq<string> := [
    "#F44336", "#E91E63", "#9C27B0", "#673AB7", "#3F51B5", "#2196F3", "#03A9F4",
    "#00BCD4", "#009688", "#4CAF50", "#8BC34A", "#CDDC39", "#FFEB3B", "#FFC107",
    "#FF9800", "#FF5722", "#795548", "#9E9E9E", "#607D8B"
  ]

  predicate IsHashRrggbb(c: string) {
    |c| == 7 && c[0] == '#' && forall k :: 1 <= k < 7 ==> IsUpperHexDigit(c[k])
  }

  /** A `#RRGGBB` string in upper case parses to an opaque colour. */
  lemma RrggbbIsOpaque(c: string)
    requires IsHashRrggbb(c)
    ensures ColorFromHex(c).a == 255
  {
    assert AllHex(c[1..]);
    SixDigitColor(c);
  }

  /** Nineteen predefined colours, each `#` plus six upper-case hex digits, so
      each parses by the six-digit rule to an opaque colour. */
  lemma PredefinedColorsShape()
    ensures |PredefinedColors| == 19
    ensures forall i :: 0 <= i < |PredefinedColors| ==> IsHashRrggbb(PredefinedColors[i])
    ensures forall i :: 0 <= i < |PredefinedColors| ==> ColorFromHex(PredefinedColors[i]).a == 255
  {
    forall i | 0 <= i < |PredefinedColors|
      ensures IsHashRrggbb(PredefinedColors[i]) && ColorFromHex(PredefinedColors[i]).a == 255
    {
      var c := PredefinedColors[i];
      assert IsHashRrggbb(c);
      RrggbbIsOpaque(c);
    }
  }

  /** Two hex digits read high digit first. */
  lemma PairValue(p: string)
    requires |p| == 2 && AllHex(p)
    ensures HexValue(p) == HexDigitValue(p[0]) * 16 + HexDigitValue(p[1])
  {
    var q := p[..1];
    assert HexValue(p) == HexValue(q) * 16 + HexDigitValue(p[1]);
    assert q[..0] == [];
    assert HexValue(q) == HexValue(q[..0]) * 16 + HexDigitValue(p[0]);
  }

  /** The first predefined colour is Material red, (244, 67, 54). */
  lemma RedExample()
    ensures ColorFromHex("#F44336") == Argb(255, 244, 67, 54)
  {
    var s := "#F44336";
    assert s[1..] == "F44336" && IsHashRrggbb(s);
    assert s[1..3] == "F4" && s[3..5] == "43" && s[5..7] == "36";
    PairValue("F4");
    PairValue("43");
    PairValue("36");
    assert HexValue("F4") == 244 && HexValue("43") == 67 && HexValue("36") == 54;
    SixDigitColor(s);
  }
}
