/** Hexadecimal text as the scripts use it: `int(t, 16)` on slices of a
    "#rrggbb" palette entry, `f"{n:02x}"` for an alpha suffix, and
    `int(f * 255)` for turning an opacity fraction into a byte. */
module HexCodec {
  import opened Wrappers

  /** A channel triple parsed from a colour string. */
  datatype Rgb = Rgb(r: int, g: int, b: int)

  /** A channel triple with an alpha byte, as PIL's RGBA fill tuples. */
  datatype Rgba = Rgba(r: int, g: int, b: int, a: int)

  /** `(r, g, b, alpha)` from a parsed colour. */
  function WithAlpha(c: Option<Rgb>, a: int): Option<Rgba> {
    match c
    case Some(rgb) => Some(Rgba(rgb.r, rgb.g, rgb.b, a))
    case None => None
  }

  predicate IsHexDigit(c: char) {
    ('0' <= c <= '9') || ('a' <= c <= 'f') || ('A' <= c <= 'F')
  }

  predicate IsLowerHexDigit(c: char) {
    ('0' <= c <= '9') || ('a' <= c <= 'f')
  }

  predicate AllHex(s: string) {
    forall i :: 0 <= i < |s| ==> IsHexDigit(s[i])
  }

  function DigitValue(c: char): (v: nat)
    requires IsHexDigit(c)
    ensures v < 16
  {
    if '0' <= c <= '9' then (c - '0') as nat
    else if 'a' <= c <= 'f' then (c - 'a') as nat + 10
    else (c - 'A') as nat + 10
  }

  /** The lowercase digit Python's format spec `x` prints for 0 <= d < 16. */
  function LowerDigit(d: nat): (c: char)
    requires d < 16
    ensures IsLowerHexDigit(c) && IsHexDigit(c) && DigitValue(c) == d
  {
    if d < 10 then ('0' as int + d) as char else ('a' as int + d - 10) as char
  }

  function Pow16(k: nat): (p: nat)
    ensures p >= 1
  {
    if k == 0 then 1 else 16 * Pow16(k - 1)
  }

  /** Value of a string of hex digits, most significant first. */
  function HexValue(s: string): (v: nat)
    requires AllHex(s)
  {
    if s == [] then 0 else 16 * HexValue(s[..|s| - 1]) + DigitValue(s[|s| - 1])
  }

  /** Python's `int(t, 16)` on a digit string; None stands for the ValueError
      it raises on an empty or non-hex string. */
  function ParseHex(t: string): (r: Option<nat>)
    ensures r.Some? <==> (t != [] && AllHex(t))
    ensures r.Some? ==> r.value == HexValue(t) && r.value < Pow16(|t|)
    ensures r.Some? && |t| <= 2 ==> r.value <= 255
  {
    if t != [] && AllHex(t) then
      HexValueBound(t);
      assert Pow16(1) == 16 && Pow16(2) == 256;
      Some(HexValue(t))
    else None
  }

  lemma {:induction false} HexValueBound(s: string)
    requires AllHex(s)
    ensures HexValue(s) < Pow16(|s|)
  {
    if s != [] {
      HexValueBound(s[..|s| - 1]);
    }
  }

  /** Python's slice `s[i:j]` for 0 <= i <= j: indices past the end are clipped. */
  function Slice(s: string, i: nat, j: nat): (t: string)
    requires i <= j
    ensures |t| <= j - i
    ensures j <= |s| ==> t == s[i..j]
  {
    var hi := if j <= |s| then j else |s|;
    var lo := if i <= hi then i else hi;
    s[lo..hi]
  }

  /** `int(c[1:3], 16)`, `int(c[3:5], 16)`, `int(c[5:7], 16)` as the scripts
      write it; the leading character is never inspected. */
  function ParseColour(c: string): (r: Option<Rgb>)
    ensures r.Some? ==> 0 <= r.value.r <= 255 && 0 <= r.value.g <= 255 && 0 <= r.value.b <= 255
    ensures WellFormedColour(c) ==> r.Some?
  {
    match (ParseHex(Slice(c, 1, 3)), ParseHex(Slice(c, 3, 5)), ParseHex(Slice(c, 5, 7)))
    case (Some(r), Some(g), Some(b)) => Some(Rgb(r, g, b))
    case _ => None
  }

  /** A "#rrggbb" palette entry. */
  predicate WellFormedColour(c: string) {
    |c| == 7 && c[0] == '#' && AllHex(c[1..])
  }

  /** Lowercase hex digits of n without padding, as Python's `x` format prints them. */
  function ToHex(n: nat): (s: string)
    ensures s != [] && forall i :: 0 <= i < |s| ==> IsLowerHexDigit(s[i])
  {
    if n < 16 then [LowerDigit(n)] else ToHex(n / 16) + [LowerDigit(n % 16)]
  }

  /** `f"{n:02x}"`: at least two characters, zero padded after the sign. */
  function Format02x(n: int): (s: string)
    ensures |s| >= 2
  {
    if n < 0 then "-" + ToHex(-n)
    else var h := ToHex(n); if |h| < 2 then "0" + h else h
  }

  lemma {:induction false} ToHexRoundTrip(n: nat)
    ensures AllHex(ToHex(n)) && HexValue(ToHex(n)) == n
  {
    var s := ToHex(n);
    if n >= 16 {
      ToHexRoundTrip(n / 16);
      assert s[..|s| - 1] == ToHex(n / 16);
    }
  }

  lemma {:induction false} ToHexLength(n: nat)
    ensures |ToHex(n)| <= 2 <==> n < 256
    ensures n < 16 <==> |ToHex(n)| == 1
  {
    if n >= 16 {
      ToHexLength(n / 16);
    }
  }

  lemma {:induction false} LeadingZero(s: string)
    requires AllHex(s)
    ensures AllHex("0" + s) && HexValue("0" + s) == HexValue(s)
  {
    var t := "0" + s;
    if s != [] {
      assert t[..|t| - 1] == "0" + s[..|s| - 1];
      LeadingZero(s[..|s| - 1]);
    }
  }

  /** The alpha suffix a palette entry receives: two lowercase digits for a
      byte, and reading them back in base 16 gives the byte again. */
  lemma Format02xByte(n: int)
    requires 0 <= n <= 255
    ensures |Format02x(n)| == 2
    ensures forall i :: 0 <= i < 2 ==> IsLowerHexDigit(Format02x(n)[i])
    ensures ParseHex(Format02x(n)) == Some(n)
  {
    ToHexLength(n);
    ToHexRoundTrip(n);
    if n < 16 {
      LeadingZero(ToHex(n));
    }
  }

  /** The inverse of the colour parse: a byte triple written as "#rrggbb". */
  function FormatColour(c: Rgb): string {
    "#" + Format02x(c.r) + Format02x(c.g) + Format02x(c.b)
  }

  /** Writing a byte triple as "#rrggbb" gives a well-formed palette entry,
      and parsing it gives the triple back. */
  lemma ColourRoundTrip(c: Rgb)
    requires 0 <= c.r <= 255 && 0 <= c.g <= 255 && 0 <= c.b <= 255
    ensures WellFormedColour(FormatColour(c))
    ensures ParseColour(FormatColour(c)) == Some(c)
  {
    Format02xByte(c.r);
    Format02xByte(c.g);
    Format02xByte(c.b);
    var rr, gg, bb := Format02x(c.r), Format02x(c.g), Format02x(c.b);
    var s := "#" + rr + gg + bb;
    assert s == FormatColour(c);
    assert s[1..3] == rr && s[3..5] == gg && s[5..7] == bb;
    forall i | 0 <= i < |s[1..]| ensures IsHexDigit(s[1..][i]) {
      if i < 2 {
        assert s[1..][i] == rr[i];
      } else if i < 4 {
        assert s[1..][i] == gg[i - 2];
      } else {
        assert s[1..][i] == bb[i - 4];
      }
    }
  }

  /** The value of a lowercase digit, written again as a digit, is that digit. */
  lemma LowerDigitOfValue(c: char)
    requires IsLowerHexDigit(c)
    ensures LowerDigit(DigitValue(c)) == c
  {
  }

  /** The other direction of the byte round trip: two lowercase hex digits,
      read in base 16 and written back with `02x`, give the same two digits. */
  lemma ParseFormat2(t: string)
    requires |t| == 2 && IsLowerHexDigit(t[0]) && IsLowerHexDigit(t[1])
    ensures ParseHex(t).Some? && 0 <= ParseHex(t).value <= 255
    ensures Format02x(ParseHex(t).value) == t
  {
    var hi, lo := DigitValue(t[0]), DigitValue(t[1]);
    assert AllHex(t) && AllHex(t[..1]);
    assert HexValue(t[..1]) == hi by {
      assert t[..1][..0] == [];
    }
    var n := HexValue(t);
    assert n == 16 * hi + lo;
    LowerDigitOfValue(t[0]);
    LowerDigitOfValue(t[1]);
    if n < 16 {
      assert hi == 0 && t[0] == '0';
      assert ToHex(n) == [t[1]];
    } else {
      assert n / 16 == hi && n % 16 == lo;
      assert ToHex(n / 16) == [t[0]];
    }
  }

  /** A lowercase "#rrggbb" entry survives parsing and writing back. */
  predicate LowerColour(c: string) {
    |c| == 7 && c[0] == '#' && forall i :: 1 <= i < 7 ==> IsLowerHexDigit(c[i])
  }

  /** Parsing a lowercase "#rrggbb" entry and writing the triple back gives
      the entry again: with ColourRoundTrip, parse and format are inverse on
      lowercase entries and byte triples. */
  lemma FormatParsedColour(c: string)
    requires LowerColour(c)
    ensures ParseColour(c).Some?
    ensures FormatColour(ParseColour(c).value) == c
  {
    ParseFormat2(c[1..3]);
    ParseFormat2(c[3..5]);
    ParseFormat2(c[5..7]);
    assert c == [c[0]] + c[1..3] + c[3..5] + c[5..7];
  }

  /** Python's `int(x)` on a float: truncation toward zero. */
  function Trunc(x: real): (t: int)
    ensures x >= 0.0 ==> 0 <= t && t as real <= x < t as real + 1.0
    ensures x < 0.0 ==> t <= 0 && t as real - 1.0 < x <= t as real
  {
    if x >= 0.0 then x.Floor else -((-x).Floor)
  }

  /** `int(f * 255)`: an opacity fraction as a byte. */
  function AlphaByte(f: real): (a: int)
    ensures 0.0 <= f <= 1.0 ==> 0 <= a <= 255
    ensures 0.0 <= f ==> a as real <= f * 255.0 < a as real + 1.0
  {
    Trunc(f * 255.0)
  }
}
