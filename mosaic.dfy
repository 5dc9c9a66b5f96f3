/** The triangular mosaic: random points over a canvas enlarged by a fifth
    on every side are triangulated, and each triangle is filled with a
    translucent palette colour written as "#rrggbbaa", optionally outlined
    in translucent black or white. The triangulation is a library call and
    is not modelled; the model covers the point list, the colour strings
    and the per-triangle fill and stroke choices. */
module Mosaic {
  import opened Wrappers
  import opened HexCodec

  function Max(a: int, b: int): int { if a >= b then a else b }

  // ---------------------------------------------------------------------
  // Points

  datatype Point = Point(x: real, y: real)

  /** A `random.uniform(-0.2 * dim, 1.2 * dim)` draw on both axes. */
  predicate InEnlargedCanvas(p: Point, width: int, height: int) {
    -(width as real) * 0.2 <= p.x <= width as real * 1.2 && -(height as real) * 0.2 <= p.y <= height as real * 1.2
  }

  /** The point loop: exactly `num_points` points (none for a negative
      count, as `range` gives), each the pair of draws made for it. */
  method RandomPoints(width: int, height: int, numPoints: int, draws: seq<Point>) returns (points: seq<Point>)
    requires |draws| >= Max(0, numPoints)
    requires forall i :: 0 <= i < |draws| ==> InEnlargedCanvas(draws[i], width, height)
    ensures |points| == Max(0, numPoints)
    ensures points == draws[..Max(0, numPoints)]
    ensures forall i :: 0 <= i < |points| ==> InEnlargedCanvas(points[i], width, height)
  {
    points := [];
    for i := 0 to Max(0, numPoints)
      invariant points == draws[..i]
    {
      var x := draws[i].x;
      var y := draws[i].y;
      points := points + [Point(x, y)];
    }
  }

  // ---------------------------------------------------------------------
  // Colour strings

  /** `int(255 * triangle_alpha)`: over the declared range [0.6, 0.9) it is
      between 153 and 229. */
  function TriangleAlpha(t: real): (a: int)
    ensures 0.0 <= t <= 1.0 ==> 0 <= a <= 255
    ensures 0.6 <= t < 0.9 ==> 153 <= a <= 229
  {
    Trunc(255.0 * t)
  }

  /** `colour + f"{alpha:02x}"`. */
  function WithAlphaSuffix(colour: string, alpha: int): (s: string)
    ensures |s| >= |colour| + 2 && s[..|colour|] == colour
  {
    colour + Format02x(alpha)
  }

  lemma SliceOfPrefix(s: string, t: string, i: nat, j: nat)
    requires i <= j <= |s|
    ensures Slice(s + t, i, j) == Slice(s, i, j)
  {
    assert (s + t)[i..j] == s[i..j];
  }

  /** A "#rrggbb" entry with a byte suffix is a 9-character "#rrggbbaa":
      its first three channels parse as the entry's own, and its last two
      digits parse back to the alpha. */
  lemma AlphaSuffixRoundTrip(colour: string, alpha: int)
    requires WellFormedColour(colour) && 0 <= alpha <= 255
    ensures |WithAlphaSuffix(colour, alpha)| == 9
    ensures WithAlphaSuffix(colour, alpha)[0] == '#' && AllHex(WithAlphaSuffix(colour, alpha)[1..])
    ensures ParseColour(WithAlphaSuffix(colour, alpha)) == ParseColour(colour)
    ensures ParseHex(WithAlphaSuffix(colour, alpha)[7..]) == Some(alpha)
  {
    var suffix := Format02x(alpha);
    var s := colour + suffix;
    Format02xByte(alpha);
    assert s[7..] == suffix;
    forall i | 0 <= i < |s[1..]| ensures IsHexDigit(s[1..][i]) {
      if i < 6 {
        assert s[1..][i] == colour[1..][i];
      } else {
        assert s[1..][i] == suffix[i - 6];
      }
    }
    SliceOfPrefix(colour, suffix, 1, 3);
    SliceOfPrefix(colour, suffix, 3, 5);
    SliceOfPrefix(colour, suffix, 5, 7);
  }

  /** `int(255 * 0.3)`, the fixed alpha of every outline. */
  const STROKE_ALPHA: int := Trunc(255.0 * 0.3)

  /** `"#000000" if random.random() > 0.5 else "#ffffff"`, with the outline
      alpha appended: always "#0000004c" or "#ffffff4c". */
  function StrokeColour(u: real): (s: string)
    ensures STROKE_ALPHA == 76
    ensures s == (if u > 0.5 then "#0000004c" else "#ffffff4c")
  {
    assert 76.0 <= 255.0 * 0.3 < 77.0;
    assert Format02x(76) == "4c" by {
      assert ToHex(76) == [LowerDigit(4), LowerDigit(12)];
    }
    (if u > 0.5 then "#000000" else "#ffffff") + Format02x(STROKE_ALPHA)
  }

  // ---------------------------------------------------------------------
  // Triangles

  /** The draws made for one triangle: the `random.choice` palette index,
      the first `stroke_width` draw (an outline is drawn when it is
      positive), the `random.random()` for the outline colour and the
      second `stroke_width` draw, its width. */
  datatype TriangleDraw = TriangleDraw(colour: nat, strokeTest: int, u: real, strokeWidth: int)

  /** The fill of a triangle and its outline, if any: (colour, width). */
  datatype Style = Style(fill: string, outline: Option<(string, int)>)

  /** The triangle loop over the simplices: every fill carries the same
      alpha suffix on a palette entry, and every outline is translucent
      black or white. */
  method TriangleStyles(palette: seq<string>, triangleAlpha: real, numTriangles: nat, draws: seq<TriangleDraw>)
    returns (styles: seq<Style>)
    requires |draws| >= numTriangles
    requires forall i :: 0 <= i < |draws| ==> draws[i].colour < |palette|
    ensures |styles| == numTriangles
    ensures forall i :: 0 <= i < numTriangles ==>
      styles[i].fill == WithAlphaSuffix(palette[draws[i].colour], TriangleAlpha(triangleAlpha))
    ensures forall i :: 0 <= i < numTriangles ==>
      (styles[i].outline.Some? <==> draws[i].strokeTest > 0) &&
      (styles[i].outline.Some? ==> styles[i].outline.value == (StrokeColour(draws[i].u), draws[i].strokeWidth))
  {
    styles := [];
    for i := 0 to numTriangles
      invariant |styles| == i
      invariant forall k :: 0 <= k < i ==>
        styles[k].fill == WithAlphaSuffix(palette[draws[k].colour], TriangleAlpha(triangleAlpha))
      invariant forall k :: 0 <= k < i ==>
        (styles[k].outline.Some? <==> draws[k].strokeTest > 0) &&
        (styles[k].outline.Some? ==> styles[k].outline.value == (StrokeColour(draws[k].u), draws[k].strokeWidth))
    {
      var d := draws[i];
      var alpha := Trunc(255.0 * triangleAlpha);
      var fill := palette[d.colour] + Format02x(alpha);
      var outline: Option<(string, int)> := None;
      if d.strokeTest > 0 {
        outline := Some((StrokeColour(d.u), d.strokeWidth));
      }
      styles := styles + [Style(fill, outline)];
    }
  }
}
