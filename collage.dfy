/** The internet collage: several fetched photographs are blended into one
    image, its channels are shifted, a horizontal channel glitch is added,
    and translucent palette shapes are drawn over it. The model covers the
    per-image seeds, the blend fold and its mode dispatch, the channel
    clamp, the glitch offsets, the overlay colours and the choice of
    overlay shape. */
module Collage {
  import opened Wrappers
  import opened HexCodec

  // ---------------------------------------------------------------------
  // Channel shift

  /** `max(0, min(255, i + shift))`: one entry of the lookup table a
      channel is mapped through. */
  function Clamp(i: int, shift: int): (v: int)
    ensures 0 <= v <= 255
    ensures 0 <= i + shift <= 255 ==> v == i + shift
    ensures i + shift < 0 ==> v == 0
    ensures i + shift > 255 ==> v == 255
  {
    if i + shift < 0 then 0 else if i + shift > 255 then 255 else i + shift
  }

  /** The clamp never reverses the order of two channel values. */
  lemma ClampMonotone(i1: int, i2: int, shift: int)
    requires i1 <= i2
    ensures Clamp(i1, shift) <= Clamp(i2, shift)
  {
  }

  /** Clamping an already clamped value with no shift changes nothing. */
  lemma ClampIdempotent(i: int, shift: int)
    ensures Clamp(Clamp(i, shift), 0) == Clamp(i, shift)
  {
  }

  /** `int(colour_shift + random.uniform(-20, 20))`: with colour_shift in
      [-30, 30) the offset is between -50 and 49. */
  function ChannelOffset(colourShift: real, jitter: real): (s: int)
    ensures -30.0 <= colourShift < 30.0 && -20.0 <= jitter <= 20.0 ==> -50 <= s <= 49
  {
    Trunc(colourShift + jitter)
  }

  datatype Pixel = Pixel(r: int, g: int, b: int)

  predicate ValidPixel(p: Pixel) {
    0 <= p.r <= 255 && 0 <= p.g <= 255 && 0 <= p.b <= 255
  }

  /** `apply_colour_shift`: each channel through its own clamp table. */
  function ColourShift(img: seq<Pixel>, shiftR: int, shiftG: int, shiftB: int): (out: seq<Pixel>)
    ensures |out| == |img|
    ensures forall k :: 0 <= k < |out| ==> ValidPixel(out[k])
    ensures forall k :: 0 <= k < |out| ==>
      out[k].r == Clamp(img[k].r, shiftR) && out[k].g == Clamp(img[k].g, shiftG) && out[k].b == Clamp(img[k].b, shiftB)
  {
    seq(|img|, k requires 0 <= k < |img| =>
      Pixel(Clamp(img[k].r, shiftR), Clamp(img[k].g, shiftG), Clamp(img[k].b, shiftB)))
  }

  /** A zero shift leaves a valid image as it is, and shifting again by
      zero after any shift changes nothing. */
  lemma ColourShiftZero(img: seq<Pixel>, shiftR: int, shiftG: int, shiftB: int)
    requires forall k :: 0 <= k < |img| ==> ValidPixel(img[k])
    ensures ColourShift(img, 0, 0, 0) == img
    ensures ColourShift(ColourShift(img, shiftR, shiftG, shiftB), 0, 0, 0) == ColourShift(img, shiftR, shiftG, shiftB)
  {
    var out := ColourShift(img, 0, 0, 0);
    assert forall k :: 0 <= k < |img| ==> out[k] == img[k];
    var shifted := ColourShift(img, shiftR, shiftG, shiftB);
    var again := ColourShift(shifted, 0, 0, 0);
    assert forall k :: 0 <= k < |shifted| ==> again[k] == shifted[k];
  }

  // ---------------------------------------------------------------------
  // Glitch

  /** What `add_glitch_effect` does: nothing at all below intensity 0.01,
      otherwise red and blue move apart horizontally by the same amount and
      green stays (a zero amount gives back an unmoved copy). */
  datatype Glitch = Untouched | ChannelOffsets(r: int, g: int, b: int)

  function GlitchOffsets(width: int, intensity: real): (gl: Glitch)
    ensures gl == Untouched <==> intensity < 0.01
    ensures gl.ChannelOffsets? ==> gl.g == 0 && gl.b == -gl.r && gl.r >= 0
    ensures gl.ChannelOffsets? && width >= 0 ==>
      gl.r as real <= width as real * intensity * 0.05 < gl.r as real + 1.0
  {
    if intensity < 0.01 then Untouched
    else
      var shift := Trunc(width as real * intensity * 0.05);
      if shift > 0 then ChannelOffsets(shift, 0, -shift) else ChannelOffsets(0, 0, 0)
  }

  // ---------------------------------------------------------------------
  // Fetched images and the blend fold

  /** The fetch loop: image i is requested with seed `seed + i * 1000`. The
      seeds grow strictly, so every image is asked for with its own seed. */
  method ImageSeeds(seed: int, numImages: nat) returns (seeds: seq<int>)
    ensures |seeds| == numImages
    ensures forall i :: 0 <= i < numImages ==> seeds[i] == seed + i * 1000
    ensures forall i, j :: 0 <= i < j < numImages ==> seeds[i] < seeds[j]
  {
    seeds := [];
    for i := 0 to numImages
      invariant |seeds| == i
      invariant forall k :: 0 <= k < i ==> seeds[k] == seed + k * 1000
      invariant forall k, l :: 0 <= k < l < i ==> seeds[k] < seeds[l]
    {
      seeds := seeds + [seed + i * 1000];
    }
  }

  /** What `apply_blend` does for a mode name. */
  datatype BlendOp = Multiply | Screen | HalfBlend | SoftLight

  const BlendModes: set<string> := {"multiply", "screen", "overlay", "soft_light"}

  /** Any unknown name blends like "overlay": half of each image. */
  function ApplyBlend(mode: string): (op: BlendOp)
    ensures op == HalfBlend <==> mode == "overlay" || mode !in BlendModes
  {
    if mode == "multiply" then Multiply
    else if mode == "screen" then Screen
    else if mode == "soft_light" then SoftLight
    else HalfBlend
  }

  /** The result of blending `rest` one by one into `acc`, left to right. */
  function FoldBlend<I>(acc: I, rest: seq<I>, blend: (I, I) -> I): I {
    if rest == [] then acc else blend(FoldBlend(acc, rest[..|rest| - 1], blend), rest[|rest| - 1])
  }

  /** Folding over the first element and then the rest is the same as
      starting from the first blend: the fold is a left fold. */
  lemma {:induction false} FoldBlendFirst<I>(acc: I, rest: seq<I>, blend: (I, I) -> I)
    requires |rest| >= 1
    ensures FoldBlend(acc, rest, blend) == FoldBlend(blend(acc, rest[0]), rest[1..], blend)
  {
    if |rest| > 1 {
      var init := rest[..|rest| - 1];
      FoldBlendFirst(acc, init, blend);
      assert init[1..] == rest[1..][..|rest[1..]| - 1];
    }
  }

  /** The blend loop: the result starts as the first image and each later
      image is blended into it, one blend call per later image. */
  method BlendAll<I>(images: seq<I>, blend: (I, I) -> I) returns (result: I, calls: nat)
    requires |images| >= 1
    ensures result == FoldBlend(images[0], images[1..], blend)
    ensures calls == |images| - 1
    ensures |images| == 1 ==> result == images[0]
  {
    result := images[0];
    calls := 0;
    for i := 1 to |images|
      invariant result == FoldBlend(images[0], images[1..i], blend)
      invariant calls == i - 1
    {
      result := blend(result, images[i]);
      calls := calls + 1;
      assert images[1..i + 1][..i - 1] == images[1..i];
    }
    assert images[1..|images|] == images[1..];
  }

  // ---------------------------------------------------------------------
  // Overlay shapes

  /** `int(overlay_alpha * 255)`: over the declared range [0.3, 0.8) it is
      between 76 and 203. */
  function OverlayAlpha(overlayAlpha: real): (a: int)
    ensures 0.0 <= overlayAlpha <= 1.0 ==> 0 <= a <= 255
    ensures 0.3 <= overlayAlpha < 0.8 ==> 76 <= a <= 203
  {
    AlphaByte(overlayAlpha)
  }

  /** The fill of one overlay shape: a `random.choice` palette entry parsed
      as "#rrggbb", with the overlay alpha. */
  function ShapeColour(palette: seq<string>, idx: int, overlayAlpha: real): (c: Option<Rgba>)
    requires 0 <= idx < |palette|
    ensures c.Some? <==> ParseColour(palette[idx]).Some?
    ensures WellFormedColour(palette[idx]) ==> c.Some?
    ensures c.Some? ==> ParseColour(palette[idx]) == Some(Rgb(c.value.r, c.value.g, c.value.b))
    ensures c.Some? ==> 0 <= c.value.r <= 255 && 0 <= c.value.g <= 255 && 0 <= c.value.b <= 255
    ensures c.Some? ==> c.value.a == OverlayAlpha(overlayAlpha)
  {
    WithAlpha(ParseColour(palette[idx]), OverlayAlpha(overlayAlpha))
  }

  /** An entry written from a byte triple gives a shape filled with exactly
      that triple, with the overlay alpha. */
  lemma ShapeColourOfEntry(palette: seq<string>, idx: int, rgb: Rgb, overlayAlpha: real)
    requires 0 <= idx < |palette| && palette[idx] == FormatColour(rgb)
    requires 0 <= rgb.r <= 255 && 0 <= rgb.g <= 255 && 0 <= rgb.b <= 255
    ensures ShapeColour(palette, idx, overlayAlpha) == Some(Rgba(rgb.r, rgb.g, rgb.b, OverlayAlpha(overlayAlpha)))
  {
    ColourRoundTrip(rgb);
  }

  datatype ShapeKind = Circle | Line | Triangle | Rectangle | NoShape

  /** The shape drawn for an overlay style. `u` holds the `random.random()`
      values in the order they are drawn; `used` says how many the branch
      conditions consumed, because `and` and `or` short-circuit. */
  function ChooseShape(style: string, u: seq<real>): (r: (ShapeKind, nat))
    requires |u| >= 3
    ensures r.1 <= 3
    ensures style == "circles" ==> r == (Circle, 0)
    ensures style == "lines" ==> r == (Line, 0)
    ensures style == "polygons" ==> r.1 == 1 && (r.0 == Triangle || r.0 == Rectangle)
    ensures style == "polygons" ==> (r.0 == Triangle <==> u[0] < 0.5)
    ensures r.0 == NoShape <==> style !in {"circles", "lines", "polygons", "mixed"}
    ensures style == "mixed" ==> r.0 != NoShape && 1 <= r.1
    ensures style == "mixed" ==> (r.0 == Circle <==> u[0] < 0.4) && (r.0 == Circle ==> r.1 == 1)
    ensures style == "mixed" ==> (r.0 == Line <==> !(u[0] < 0.4) && u[1] < 0.4) && (r.0 == Line ==> r.1 == 2)
    ensures style == "mixed" && !(u[0] < 0.4) && !(u[1] < 0.4) ==> r.1 == 3 && (r.0 == Triangle <==> u[2] < 0.5)
  {
    if style == "circles" then (Circle, 0)
    else if style == "mixed" && u[0] < 0.4 then (Circle, 1)
    else
      var used := if style == "mixed" then 1 else 0;
      if style == "lines" then (Line, 0)
      else if style == "mixed" && u[used] < 0.4 then (Line, 2)
      else if style == "polygons" || style == "mixed" then
        var used := if style == "mixed" then 2 else 0;
        (if u[used] < 0.5 then Triangle else Rectangle, used + 1)
      else (NoShape, 0)
  }
}
