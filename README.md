# gen-art-gallery: the integer, string and set rules of six generators

The gallery's generator scripts draw pictures with PIL, networkx and scipy.
Around those library calls each script has small, exact rules. This project
states those rules in Dafny and proves what they promise:

- **pentomino.py**: twelve five-cell shapes are centred in a 3×5 box of
  squares. The outline is drawn side by side. A set of edge keys makes
  sure each shared side is drawn only once. A set of corner points
  receives the round joins.
- **remix.py**: three source photographs are cut into horizontal strips,
  a grid of tiles, random triangles, diagonal bands or a spiral of discs.
  Colour modes, effects and blend modes are chosen by name, and an
  unknown name leaves the image as it is.
- **abstract_crowd.py**: figures are placed by rejection sampling in three
  arrangements (random, grid, spiral). Each arrangement caps the number of
  attempts and the number of figures. The figures are then sorted by y
  into painter's order.
- **network_art.py**:
  - graph parameters are derived from the node count;
  - the generator and layout are chosen by name;
  - node positions are rescaled into the canvas margins;
  - edge and glow colours are parsed from "#rrggbb".
- **internet_collage.py**:
  - per-image seeds;
  - a left fold of blends over the fetched images;
  - a clamped channel shift and a red/blue glitch;
  - translucent palette overlays.
- **triangular_mosaic.py**: random points are triangulated, and each
  triangle is filled with a palette entry plus a two-digit hex alpha. An
  optional outline is translucent black or white.

Every random draw of a script is an input of the model. Where the
script's parameter block or its `random` call fixes a range, that range is
a `requires`. Python's `//` and `%` with a positive divisor are Dafny's
`/` and `%`. `int()` of a float is truncation toward zero (`HexCodec.Trunc`)
over exact reals. Python slicing clips to the string (`HexCodec.Slice`).

Modules:

- `Wrappers` (Option);
- `HexCodec` (hex parse, `02x` format, alpha bytes), shared by the scripts;
- `Pentomino`, `Remix`, `Crowd`, `NetworkArt`, `Collage` and `Mosaic`, one per script.

Loops that build lists or sets in the scripts are methods with loop
invariants. Each is proved against a recursive or comprehension
specification function. The crowd sort works in place on an `array`.

## Model

| member | source | states |
|---|---|---|
| HexCodec.ParseHex | scripts/network_art.py:123-125 | `int(t, 16)` succeeds exactly on a non-empty string of hex digits, and its value is the base-16 value of those digits; it is below 16^len, so at most 255 for two digits |
| HexCodec.ParseColour | scripts/network_art.py:143-145 | the three two-digit slices parse to channels in 0..255; a well-formed "#rrggbb" always parses |
| HexCodec.ColourRoundTrip | scripts/internet_collage.py:143-145 | writing a byte triple as "#rrggbb" gives a well-formed entry, and parsing it gives the triple back |
| HexCodec.ParseFormat2 | scripts/triangular_mosaic.py:67 | two lowercase hex digits read with `int(t, 16)` give a byte, and `f"{n:02x}"` of it writes the same two digits: with Format02xByte, parse and format are inverse on bytes |
| HexCodec.FormatParsedColour | scripts/internet_collage.py:143-145 | a lowercase "#rrggbb" entry parses, and writing the parsed triple back gives the entry again |
| HexCodec.Format02xByte | scripts/triangular_mosaic.py:67 | `f"{n:02x}"` of a byte is exactly two lowercase hex digits, and base-16 parsing gives n back |
| HexCodec.ToHexRoundTrip | scripts/triangular_mosaic.py:67 | the unpadded lowercase hex digits of n read back as n |
| HexCodec.ToHexLength | scripts/triangular_mosaic.py:67 | n has at most two hex digits iff n < 256, and one iff n < 16 |
| HexCodec.LeadingZero | scripts/triangular_mosaic.py:67 | the zero pad does not change the value read back |
| HexCodec.Trunc | scripts/internet_collage.py:95 | `int(x)` truncates toward zero: within one below a non-negative x, within one above a negative x |
| HexCodec.AlphaByte | scripts/network_art.py:114 | `int(f * 255)` is a byte for f in [0, 1] and the integer part of f·255 |
| Pentomino.ShapeWellFormed | scripts/pentomino.py:30-43 | each of the 12 shapes has 5 distinct cells inside the 3×5 box; P has 5 adjacent pairs, the others 4 |
| Pentomino.CentredSquareInside | scripts/pentomino.py:53-60 | with width ≥ 3s and height ≥ 5s, the centred square of every box cell lies inside the canvas |
| Pentomino.PlaceSquares | scripts/pentomino.py:57-60 | one square per cell at (offset_x + col·s, offset_y + row·s), all inside the canvas when the box fits |
| Pentomino.DrawSide | scripts/pentomino.py:76-80 | a side is drawn iff its key is not yet in `drawn_edges`; the key is then added, so no key is drawn twice |
| Pentomino.DrawCellSides | scripts/pentomino.py:76-98 | after a cell's four sides `drawn_edges` has grown by exactly that cell's four keys, each key still drawn once |
| Pentomino.DrawOutline | scripts/pentomino.py:63-98 | after the loop `drawn_edges` is the union of the cells' keys, `corner_points` is the union of their corners, and every segment end is a corner |
| Pentomino.EdgeMembership | scripts/pentomino.py:66-98 | a key is drawn iff it is a side of some cell |
| Pentomino.SharedSides | scripts/pentomino.py:77-95 | a cell's top (bottom, left, right) key is already drawn iff the cell above (below, left, right) came earlier |
| Pentomino.EdgeCount | scripts/pentomino.py:77-98 | with distinct cells the number of drawn sides is 4·cells minus the number of adjacent pairs |
| Pentomino.CornerCount | scripts/pentomino.py:70-74 | there are at most 4·cells corner points |
| Pentomino.EndsAreCorners | scripts/pentomino.py:100-103 | both ends of every drawn side are corner points, so the round joins cover every segment end |
| Pentomino.OutlineSides | scripts/pentomino.py:63-98 | the outline of P has 15 sides, every other shape 16 |
| Pentomino.DrawPentomino | scripts/pentomino.py:46-103 | for any chosen shape: 5 squares inside the canvas when it fits, 15 or 16 distinct sides, at most 20 corners, every end a corner |
| Remix.PicsumId | scripts/remix.py:68 | `image_id % 1000` is in 0..999, congruent to the id, and the id itself when already in range |
| Remix.ModDistinct | scripts/remix.py:82-84 | the three consecutive source ids map to different picsum ids |
| Remix.SourceIds | scripts/remix.py:81-85 | three ids, the i-th being `(base + i) % 1000`, pairwise distinct |
| Remix.StepCount | scripts/remix.py:235 | the number of values `range(0, n, step)` yields: k with (k−1)·step < n ≤ k·step, and 0 for n ≤ 0 |
| Remix.StepCountBelow | scripts/remix.py:217 | the loop guard `y < n` holds at the i-th start iff i is below the step count |
| Remix.UniformSpan | scripts/remix.py:227 | span i starts at i·step, is a full step except the last, and the last ends at n |
| Remix.UniformSpansTile | scripts/remix.py:217-230 | the spans `[i·step, min(i·step + step, n))` are non-empty, contiguous, start at 0 and end at n |
| Remix.TilingOrdered | scripts/remix.py:217-230 | spans of a tiling are ordered and do not overlap |
| Remix.TilingCovers | scripts/remix.py:217-230 | every row of [0, n) lies in some span of a tiling |
| Remix.TilingPartitions | scripts/remix.py:217-230 | a row lies in a span iff it is in [0, n), and then in exactly one |
| Remix.PieceStep | scripts/remix.py:215 | `max(50, p_size)` is at least 50 and at least p_size |
| Remix.Strips | scripts/remix.py:213-230 | one strip per loop turn, strip i cropped to rows `[i·h, min(i·h + h, height))` from a valid source; the strips tile the height |
| Remix.Grid | scripts/remix.py:232-251 | tile (r, c) is cropped to the clipped spans r and c of the grid size, with origin (c·g, r·g), from a valid source |
| Remix.TileOrigins | scripts/remix.py:235-251 | every tile's origin is (c·g, r·g) and its source is one of the three images |
| Remix.GridRow | scripts/remix.py:236-251 | the inner loop produces one tile per column span |
| Remix.ProductPartition | scripts/remix.py:234-251 | a row tiling and a column tiling cover exactly the rectangle, each pixel once |
| Remix.GridPartition | scripts/remix.py:234-251 | a pixel lies in some grid tile iff it is on the canvas |
| Remix.GridTileUnique | scripts/remix.py:234-251 | no pixel lies in two grid tiles |
| Remix.TrianglePoints | scripts/remix.py:272-276 | the base has length `size` on row y1; the apex lies between the base ends and at most `size` below |
| Remix.Triangles | scripts/remix.py:253-279 | one mask per triangle, with the draw's source and the three points above |
| Remix.DiagonalOffset | scripts/remix.py:298 | `(width + height)·i // num_strips` starts at 0 and stays in [0, width + height) |
| Remix.DiagonalOffsetMonotone | scripts/remix.py:298 | the offsets never decrease with i |
| Remix.BandHalfWidth | scripts/remix.py:299 | `max(30, p_size // 2)` is at least 30 |
| Remix.BandCorners | scripts/remix.py:301-306 | the four points form a parallelogram 2·half-width wide, top on row 0, bottom on row `height`, sheared by `height` |
| Remix.Diagonal | scripts/remix.py:281-309 | `num_strips` bands, band i at offset `(width + height)·i // num_strips`; offsets start at 0 and never decrease |
| Remix.SpiralCount | scripts/remix.py:315-317 | the number of turns with radius 10, 12, … below m: k with 10 + 2(k−1) < m ≤ 10 + 2k, and 0 for m ≤ 10 |
| Remix.Spiral | scripts/remix.py:311-339 | disc i has radius 10 + 2i, angle 0.5·i and half size p_size // 2; every radius is below max(width, height) |
| Remix.ColourEffect | scripts/remix.py:92-119 | the image is returned unchanged iff the mode is none of the five known ones |
| Remix.Effect | scripts/remix.py:121-181 | the image is returned unchanged iff the effect is none of the five known ones |
| Remix.Warp | scripts/remix.py:183-190 | the identity iff intensity < 0.1; otherwise the shift is `int(w·intensity·0.3)` |
| Remix.BlendImages | scripts/remix.py:192-201 | the overlay is returned as it is iff the mode is not multiply, screen or overlay |
| Remix.FinalBlend | scripts/remix.py:342-345 | no final blend iff the mode is "normal"; an unknown mode replaces the canvas by the overlay |
| Remix.Quadrants | scripts/remix.py:132-143 | four quadrant origins, each quadrant of size (w//2, h//2) inside the image |
| Remix.QuadrantsCover | scripts/remix.py:132-143 | a pixel is covered by a quadrant iff it is left of 2·(w//2) and above 2·(h//2), so an odd last row or column is never painted |
| Remix.DisplaceSlices | scripts/remix.py:151-164 | slice i covers rows `[i·(h//n), (i+1)·(h//n))` and is never clipped; the slices are contiguous and end at h − h % n |
| Remix.SliceFits | scripts/remix.py:156-159 | every slice ends at or before n·(h//n) = h − h % n |
| Crowd.GetPalette | scripts/abstract_crowd.py:45-54 | always non-empty; `["#000000"]` exactly for an unknown name; the named palettes have 5 or 6 entries |
| Crowd.SomesAppend | scripts/abstract_crowd.py:238-253 | the figures accepted from two runs of candidates are those of the first run followed by those of the second |
| Crowd.SomesFrom | scripts/abstract_crowd.py:249-253 | every accepted figure is one of the candidates |
| Crowd.SomesPrefix | scripts/abstract_crowd.py:238-253 | more attempts only extend the accepted list |
| Crowd.FirstAccepted | scripts/abstract_crowd.py:238 | exactly min(n, accepted) figures, a prefix of all accepted ones, so the first n of them, and all of them when there are no more than n |
| Crowd.StopsAtFirstAccepted | scripts/abstract_crowd.py:238 | stopping at n figures or at the last candidate yields the first n accepted |
| Crowd.FirstAcceptedFrom | scripts/abstract_crowd.py:249-253 | every figure kept is one of the candidates |
| Crowd.Lerp | scripts/abstract_crowd.py:251 | `lo + t·(hi − lo)` lies in [lo, hi] for t in [0, 1] |
| Crowd.RandomScale | scripts/abstract_crowd.py:250-251 | for y between the borders, the scale before jitter lies in [min_scale, max_scale] |
| Crowd.RandomCandidate | scripts/abstract_crowd.py:240-253 | a figure is placed iff the acceptance draw succeeds, at the integer draw point with a palette colour |
| Crowd.RandomArrangement | scripts/abstract_crowd.py:228-253 | at most 5n attempts and n figures; the loop stops at n figures or 5n attempts; the figures are the first n accepted; each is an integer point of the inclusive border box |
| Crowd.HeightScale | scripts/abstract_crowd.py:274-275 | for y on the canvas the scale lies in [min_scale, max_scale] |
| Crowd.InsideCandidate | scripts/abstract_crowd.py:272-276 | a figure is placed iff the draw accepts and the point is strictly inside the border box |
| Crowd.InsideFirstAccepted | scripts/abstract_crowd.py:273 | if every candidate lies strictly inside, so does every figure kept |
| Crowd.GridCols | scripts/abstract_crowd.py:257 | `int(n·1.5 / rows) + 1` is at least 1 and gives more than 1.5·n grid cells |
| Crowd.GridCandidate | scripts/abstract_crowd.py:263-276 | a grid figure lies strictly inside the border box |
| Crowd.GridCandidates | scripts/abstract_crowd.py:261-276 | the candidates of the first k rows, in visiting order, all strictly inside |
| Crowd.GridCandidatesPrefix | scripts/abstract_crowd.py:261-262 | the candidates of fewer rows are a prefix of those of more rows |
| Crowd.GridVisited | scripts/abstract_crowd.py:261-281 | the cells visited up to (r, c) are a prefix of the whole grid, and a finished row ends where row r + 1 begins |
| Crowd.GridRowOutcome | scripts/abstract_crowd.py:278-281 | after row r either n figures are placed and they are the first n of the grid, or the row was finished |
| Crowd.GridRow | scripts/abstract_crowd.py:262-279 | the inner loop adds the accepted cells of row r and stops early only once n figures are placed |
| Crowd.GridRows | scripts/abstract_crowd.py:261-281 | the outer loop yields the first n figures accepted over the whole grid |
| Crowd.GridArrangement | scripts/abstract_crowd.py:255-281 | at most n figures, the first n accepted in row-major order, each strictly inside the border box |
| Crowd.SpiralArrangement | scripts/abstract_crowd.py:283-304 | at most 5n attempts and n figures; the loop stops at n figures or 5n attempts; the figures are the first n accepted; each lies strictly inside |
| Crowd.SortByY | scripts/abstract_crowd.py:306 | the figures end sorted by non-decreasing y and are a permutation of the accepted ones |
| Crowd.InsertDown | scripts/abstract_crowd.py:306 | one insertion step extends the sorted prefix by one element; the new prefix is a permutation of the old one, and everything after it is left as it was |
| Crowd.Swap | scripts/abstract_crowd.py:306 | exchanging two elements keeps the multiset |
| NetworkArt.BarabasiM | scripts/network_art.py:65 | `max(2, n // 20)` is at least 2, below n for n ≥ 3, and n // 20 from 40 nodes on |
| NetworkArt.WattsK | scripts/network_art.py:69 | `max(4, n // 10)` is at least 4, below n for n ≥ 5, and n // 10 from 40 nodes on |
| NetworkArt.PowerlawM | scripts/network_art.py:82 | `max(2, n // 30)` is at least 2, below n for n ≥ 3, and n // 30 from 60 nodes on |
| NetworkArt.ChooseGenerator | scripts/network_art.py:63-84 | the power-law cluster generator is used iff the type is none of the four named ones; its parameters satisfy the bounds above |
| NetworkArt.ChooseLayout | scripts/network_art.py:88-99 | built-in positions iff random_geometric; the random layout iff not random_geometric and the layout is not spring, circular or shell |
| NetworkArt.MinOf | scripts/network_art.py:102-105 | `min` is an element and below every element |
| NetworkArt.MaxOf | scripts/network_art.py:102-105 | `max` is an element and above every element |
| NetworkArt.BoundsOf | scripts/network_art.py:102-105 | every position lies within the bounds, and the x bounds are attained |
| NetworkArt.RescaleEnds | scripts/network_art.py:109-110 | the minimum goes to the margin, the maximum to dim − margin |
| NetworkArt.RescaleRange | scripts/network_art.py:109-110 | every coordinate lands in [margin, dim − margin] |
| NetworkArt.RescaleMonotone | scripts/network_art.py:109-110 | the rescale is strictly increasing |
| NetworkArt.RescaleIdempotent | scripts/network_art.py:109-110 | rescaling already rescaled coordinates again changes nothing |
| NetworkArt.ScaledMapContents | scripts/network_art.py:107-111 | the map has exactly the nodes as keys, each with its rescaled position |
| NetworkArt.ScaleEntries | scripts/network_art.py:107-111 | the loop builds that map entry by entry |
| NetworkArt.SpreadIffVaried | scripts/network_art.py:102-109 | the divisions `max_x - min_x` and `max_y - min_y` are non-zero exactly when some two positions differ in x and some two differ in y |
| NetworkArt.ScalePositions | scripts/network_art.py:101-111 | for positions that vary on both axes the bounds are spread, and `scaled_pos` has exactly the keys of `pos`, each mapped to its rescaled position |
| NetworkArt.NodesOfStep | scripts/network_art.py:108-111 | with distinct nodes each entry adds one new key |
| NetworkArt.ScaledInside | scripts/network_art.py:109-111 | every scaled position lies inside the margins, and the extreme x positions land on them |
| NetworkArt.EdgeAlpha | scripts/network_art.py:114 | `int(edge_alpha·255)` is a byte, and 25..101 for edge_alpha in [0.1, 0.4) |
| NetworkArt.EdgeColour | scripts/network_art.py:119-127 | the colour exists iff the chosen entry parses; its channels are then the entry's parsed channels, bytes, with the edge alpha; a well-formed entry always gives one |
| NetworkArt.EdgeColourOfEntry | scripts/network_art.py:119-127 | an entry written from a byte triple gives an edge colour of exactly that triple with the edge alpha |
| NetworkArt.GlowAlpha | scripts/network_art.py:142 | `int(100 / (i + 1))` is 100, 50, 33 |
| NetworkArt.Glow | scripts/network_art.py:141-152 | three rings with the node's channels, alpha 100/50/33 and radius + 6/4/2: larger than the node, strictly shrinking and fading |
| Collage.Clamp | scripts/internet_collage.py:82-84 | `max(0, min(255, i + shift))` is a byte, the identity inside 0..255, and 0 or 255 outside |
| Collage.ClampMonotone | scripts/internet_collage.py:82-84 | the clamp never reverses the order of two channel values |
| Collage.ClampIdempotent | scripts/internet_collage.py:82-84 | clamping a clamped value again with no shift changes nothing |
| Collage.ChannelOffset | scripts/internet_collage.py:118-120 | with colour_shift in [−30, 30) and jitter in [−20, 20] the offset is in −50..49 |
| Collage.ColourShift | scripts/internet_collage.py:80-85 | each channel goes through its own clamp with its own offset; the result is a valid image of the same size |
| Collage.ColourShiftZero | scripts/internet_collage.py:80-85 | a zero shift leaves a valid image unchanged, and a second zero shift after any shift changes nothing |
| Collage.GlitchOffsets | scripts/internet_collage.py:87-100 | untouched iff intensity < 0.01; otherwise green stays, red moves right by `int(width·intensity·0.05)` and blue left by as much |
| Collage.ImageSeeds | scripts/internet_collage.py:104-108 | image i gets seed + 1000·i; the seeds strictly increase, so they are pairwise distinct |
| Collage.ApplyBlend | scripts/internet_collage.py:66-78 | the half blend is used iff the mode is "overlay" or unknown |
| Collage.FoldBlendFirst | scripts/internet_collage.py:111-115 | the fold over the images is a left fold starting from the first image |
| Collage.BlendAll | scripts/internet_collage.py:110-115 | the result is the left fold of the blend over images[1..] from images[0], after exactly len − 1 blend calls |
| Collage.OverlayAlpha | scripts/internet_collage.py:139 | `int(overlay_alpha·255)` is a byte, and 76..203 for overlay_alpha in [0.3, 0.8) |
| Collage.ShapeColour | scripts/internet_collage.py:141-146 | the fill exists iff the chosen entry parses; its channels are then the entry's parsed channels, bytes, with the overlay alpha |
| Collage.ShapeColourOfEntry | scripts/internet_collage.py:141-146 | an entry written from a byte triple gives a fill of exactly that triple with the overlay alpha |
| Collage.ChooseShape | scripts/internet_collage.py:148-184 | circles and lines draw no number; polygons draws one and gives a triangle iff it is below 0.5; mixed gives a circle iff the first draw is below 0.4 (one draw), else a line iff the second is below 0.4 (two draws), else after a third draw a triangle iff it is below 0.5; no shape iff the style is unknown |
| Mosaic.RandomPoints | scripts/triangular_mosaic.py:49-53 | exactly max(0, num_points) points, in draw order, each in [−0.2w, 1.2w] × [−0.2h, 1.2h] |
| Mosaic.TriangleAlpha | scripts/triangular_mosaic.py:66 | `int(255·triangle_alpha)` is a byte, and 153..229 for triangle_alpha in [0.6, 0.9) |
| Mosaic.WithAlphaSuffix | scripts/triangular_mosaic.py:67 | the palette entry is kept as a prefix and at least two characters are added |
| Mosaic.AlphaSuffixRoundTrip | scripts/triangular_mosaic.py:67 | a "#rrggbb" entry with a byte suffix is a 9-character "#rrggbbaa" with the same channels, and its last two digits parse back to the alpha |
| Mosaic.StrokeColour | scripts/triangular_mosaic.py:74-76 | the outline is "#0000004c" when the draw exceeds 0.5 and "#ffffff4c" otherwise; the stroke alpha is 76 |
| Mosaic.TriangleStyles | scripts/triangular_mosaic.py:59-77 | every fill is the chosen entry plus the same alpha suffix; there is an outline iff the first stroke-width draw is positive, with the second draw as its width |

## Left out

- Graph generation and layout (networkx), the Delaunay triangulation
  (scipy), all PIL drawing, cropping, compositing and enhancement, and the
  HTTP fetches with their fallbacks are library or network calls. The
  model keeps only the arithmetic and choices that feed them.
- The random number generator itself and the `.rvs()` parameter draws are
  not modelled. Draws are inputs, constrained to their documented ranges.
- Floating-point rounding is not modelled. Float expressions are exact
  reals, and `int()` of a float is exact truncation.
- `simple_noise`, the figure and shadow drawing, and the trigonometry of the
  spiral positions are not modelled. Each placement attempt is an
  acceptance flag and a point (the spiral) or a jitter (the grid).
- Crowd.GridArrangement: the row count `int(sqrt(num_people·1.5))` is an
  input. The method requires num_people ≥ 1 and rows ≥ 1. For
  num_people = 0 the script divides by zero.
- Crowd.SortByY: proves sorted order and permutation. It does not prove
  the stability of Python's sort. Ties in y may end in another order.
- NetworkArt.ScalePositions: requires a non-empty layout in which some two
  positions differ in x and some two differ in y. The script divides by
  zero when all positions share an x or a y, for example with a single
  node.
- NetworkArt.ScalePositions: positions are a list of (node, x, y) entries
  with distinct nodes. They stand in for the dictionary `pos`.
- HexCodec.ParseHex: models `int(t, 16)` for plain digit strings. The forms
  Python also accepts (sign, surrounding whitespace, underscores, a `0x`
  prefix) are not modelled. Two-character slices of the palettes never
  contain them.
- Remix.Spiral: the disc centres `int(center + radius·cos/sin(angle))` are
  not modelled. Radius, angle and size are.
- Remix.ColourEffect, Remix.Effect, Remix.Warp: the image operations of the
  known modes are not modelled. The dispatch is. For displace and
  kaleidoscope the slice and quadrant arithmetic is modelled
  (Remix.DisplaceSlices, Remix.Quadrants).
- gallery/script.js is not part of this model: it is the page's browser
  code.
