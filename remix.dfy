/** The remix compositor: three source photographs (chosen by id) are cut
    into horizontal strips, a grid of tiles, diagonal bands or a spiral of
    discs and pasted onto one canvas, each piece after a colour mode, an
    effect and a warp. The model covers the integer arithmetic that decides
    which pieces are cut where, and the dispatch rules that pick a library
    operation for each mode name. */
module Remix {
  import opened HexCodec
  import opened Wrappers

  function Max(a: int, b: int): int { if a >= b then a else b }
  function Min(a: int, b: int): int { if a <= b then a else b }

  // ---------------------------------------------------------------------
  // Source images

  /** `image_id % 1000` (Python's `%` with a positive divisor agrees with
      Dafny's: the remainder is never negative). */
  function PicsumId(imageId: int): (r: int)
    ensures 0 <= r < 1000
    ensures (imageId - r) % 1000 == 0
    ensures 0 <= imageId < 1000 ==> r == imageId
  {
    imageId % 1000
  }

  /** Consecutive ids differ by one or two modulo 1000, so they never meet. */
  lemma ModDistinct(base: int, i: int, j: int)
    requires 0 <= i < j < 3
    ensures PicsumId(base + i) != PicsumId(base + j)
  {
    var q, a := (base + i) / 1000, (base + i) % 1000;
    var d := j - i;
    if a + d < 1000 {
      assert base + j == 1000 * q + (a + d);
      assert PicsumId(base + j) == a + d;
    } else {
      assert base + j == 1000 * (q + 1) + (a + d - 1000);
      assert PicsumId(base + j) == a + d - 1000;
    }
  }

  /** The download loop: the ids of the three source images, one per index a
      `random.randint(0, 2)` draw can produce, all different. */
  method SourceIds(base: int) returns (ids: seq<int>)
    ensures |ids| == 3
    ensures forall i :: 0 <= i < 3 ==> ids[i] == PicsumId(base + i)
    ensures forall i, j :: 0 <= i < j < 3 ==> ids[i] != ids[j]
  {
    ids := [];
    for i := 0 to 3
      invariant |ids| == i
      invariant forall k :: 0 <= k < i ==> ids[k] == PicsumId(base + k)
    {
      ids := ids + [PicsumId(base + i)];
    }
    forall i, j | 0 <= i < j < 3 ensures ids[i] != ids[j] {
      ModDistinct(base, i, j);
    }
  }

  /** A `random.randint(0, 2)` result: an index into the three source images. */
  predicate IsSourcePick(d: int) { 0 <= d <= 2 }

  // ---------------------------------------------------------------------
  // Spans: the half-open pixel ranges [lo, hi) that pieces are cut from

  datatype Span = Span(lo: int, hi: int)

  /** Non-empty spans, each starting where the previous one ends, running
      from 0 to n (no spans at all when n <= 0). */
  predicate Tiling(spans: seq<Span>, n: int) {
    && (forall i :: 0 <= i < |spans| ==> spans[i].lo < spans[i].hi)
    && (forall i :: 0 < i < |spans| ==> spans[i - 1].hi == spans[i].lo)
    && (if spans == [] then n <= 0 else spans[0].lo == 0 && spans[|spans| - 1].hi == n)
  }

  predicate InSpan(y: int, sp: Span) { sp.lo <= y < sp.hi }

  lemma {:induction false} TilingOrdered(spans: seq<Span>, n: int, i: int, j: int)
    requires Tiling(spans, n) && 0 <= i < j < |spans|
    ensures spans[i].hi <= spans[j].lo
  {
    if i < j - 1 {
      TilingOrdered(spans, n, i, j - 1);
    }
  }

  lemma {:induction false} TilingCovers(spans: seq<Span>, n: int, y: int)
    requires Tiling(spans, n) && 0 <= y < n
    ensures exists i :: 0 <= i < |spans| && InSpan(y, spans[i])
  {
    var last := |spans| - 1;
    if y < spans[last].lo {
      var prefix := spans[..last];
      assert Tiling(prefix, spans[last].lo);
      TilingCovers(prefix, spans[last].lo, y);
      var i :| 0 <= i < |prefix| && InSpan(y, prefix[i]);
      assert InSpan(y, spans[i]);
    } else {
      assert InSpan(y, spans[last]);
    }
  }

  /** A tiling partitions [0, n): every pixel row lies in exactly one span. */
  lemma TilingPartitions(spans: seq<Span>, n: int, y: int)
    requires Tiling(spans, n)
    ensures 0 <= y < n <==> exists i :: 0 <= i < |spans| && InSpan(y, spans[i])
    ensures forall i, j :: 0 <= i < |spans| && 0 <= j < |spans| && InSpan(y, spans[i]) && InSpan(y, spans[j]) ==> i == j
  {
    if 0 <= y < n {
      TilingCovers(spans, n, y);
    }
    if exists i :: 0 <= i < |spans| && InSpan(y, spans[i]) {
      var i :| 0 <= i < |spans| && InSpan(y, spans[i]);
      if 0 < i { TilingOrdered(spans, n, 0, i); }
      if i < |spans| - 1 { TilingOrdered(spans, n, i, |spans| - 1); }
    }
    forall i, j | 0 <= i < |spans| && 0 <= j < |spans| && InSpan(y, spans[i]) && InSpan(y, spans[j])
      ensures i == j
    {
      if i < j { TilingOrdered(spans, n, i, j); }
      if j < i { TilingOrdered(spans, n, j, i); }
    }
  }

  /** How many times `pos += step` runs from 0 while `pos < n`: the number of
      values `range(0, n, step)` yields. */
  function StepCount(n: int, step: int): (k: nat)
    requires step > 0
    ensures n <= 0 ==> k == 0
    ensures n > 0 ==> (k - 1) * step < n <= k * step
  {
    if n <= 0 then 0 else
      var k := (n + step - 1) / step;
      assert k * step <= n + step - 1 < k * step + step;
      k
  }

  /** The spans [i*step, min(i*step + step, n)) that a `range(0, n, step)`
      loop cuts, the last one clipped to n. */
  function UniformSpans(n: int, step: int): (spans: seq<Span>)
    requires step > 0
    ensures |spans| == StepCount(n, step)
  {
    seq(StepCount(n, step), i => Span(i * step, Min(i * step + step, n)))
  }

  /** `i * step` stays below n exactly for the indices the loop reaches. */
  lemma StepCountBelow(n: int, step: int, i: int)
    requires step > 0 && 0 <= i <= StepCount(n, step)
    ensures i < StepCount(n, step) <==> i * step < n
  {
    var k := StepCount(n, step);
    if i < k {
      assert i * step <= (k - 1) * step;
    } else {
      assert i * step == k * step;
    }
  }

  /** Span i of a uniform cut: it starts at i * step, is non-empty, and is a
      full step high unless it is the last. */
  lemma UniformSpan(n: int, step: int, i: int)
    requires step > 0 && 0 <= i < StepCount(n, step)
    ensures UniformSpans(n, step)[i].lo == i * step < UniformSpans(n, step)[i].hi
    ensures i < StepCount(n, step) - 1 ==> UniformSpans(n, step)[i].hi == i * step + step
    ensures i == StepCount(n, step) - 1 ==> UniformSpans(n, step)[i].hi == n
  {
    var k := StepCount(n, step);
    StepCountBelow(n, step, i);
    if i < k - 1 {
      StepCountBelow(n, step, i + 1);
      assert (i + 1) * step == i * step + step;
    } else {
      assert i * step + step == k * step;
    }
  }

  /** Cutting with a fixed step tiles [0, n); every span but the last has
      the full step height. */
  lemma UniformSpansTile(n: int, step: int)
    requires step > 0
    ensures Tiling(UniformSpans(n, step), n)
    ensures forall i :: 0 <= i < |UniformSpans(n, step)| - 1 ==> UniformSpans(n, step)[i].hi - UniformSpans(n, step)[i].lo == step
  {
    var spans, k := UniformSpans(n, step), StepCount(n, step);
    forall i | 0 <= i < k
      ensures spans[i].lo == i * step < spans[i].hi
      ensures i < k - 1 ==> spans[i].hi == i * step + step
      ensures i == k - 1 ==> spans[i].hi == n
    {
      UniformSpan(n, step, i);
    }
    forall i | 0 < i < k
      ensures spans[i - 1].hi == spans[i].lo
    {
      assert (i - 1) * step + step == i * step;
    }
  }

  // ---------------------------------------------------------------------
  // Strips

  /** `max(50, p_size)`: the strip height and the grid step. */
  function PieceStep(pSize: int): (h: int)
    ensures h >= 50 && h >= pSize
  {
    Max(50, pSize)
  }

  /** A pasted piece: which source image, and the columns and rows it is cut from. */
  datatype Piece = Piece(source: int, cols: Span, rows: Span)

  /** The strips loop: `y_pos` runs 0, h, 2h, … while below the height, each
      strip taking rows [y_pos, min(y_pos + h, height)) of a random source
      image across the full width. The strips tile the canvas rows. */
  method Strips(width: int, height: int, pSize: int, picks: seq<int>) returns (strips: seq<Piece>)
    requires |picks| >= StepCount(height, PieceStep(pSize))
    requires forall i :: 0 <= i < |picks| ==> IsSourcePick(picks[i])
    ensures |strips| == StepCount(height, PieceStep(pSize))
    ensures forall i :: 0 <= i < |strips| ==>
      strips[i].source == picks[i] && strips[i].cols == Span(0, width) &&
      strips[i].rows == UniformSpans(height, PieceStep(pSize))[i]
    ensures Tiling(seq(|strips|, i requires 0 <= i < |strips| => strips[i].rows), height)
  {
    var h := PieceStep(pSize);
    ghost var rows := UniformSpans(height, h);
    var y := 0;
    strips := [];
    StepCountBelow(height, h, 0);
    while y < height
      invariant 0 <= |strips| <= StepCount(height, h)
      invariant y == |strips| * h
      invariant |strips| < StepCount(height, h) <==> y < height
      invariant forall i :: 0 <= i < |strips| ==>
        strips[i] == Piece(picks[i], Span(0, width), rows[i])
      decreases height - y
    {
      UniformSpan(height, h, |strips|);
      strips := strips + [Piece(picks[|strips|], Span(0, width), Span(y, Min(y + h, height)))];
      y := y + h;
      StepCountBelow(height, h, |strips|);
    }
    UniformSpansTile(height, h);
    assert seq(|strips|, i requires 0 <= i < |strips| => strips[i].rows) == rows;
  }

  // ---------------------------------------------------------------------
  // Grid

  /** The two draws made per grid tile: the source index and whether
      `random.random() > 0.5` asked for a rotation. */
  datatype TileDraw = TileDraw(source: int, rotate: bool)

  /** A grid tile, pasted at (piece.cols.lo, piece.rows.lo). */
  datatype Tile = Tile(piece: Piece, rotated: bool)

  /** One row of tiles: tile c is cut from column span c of the row's span. */
  predicate TileRow(row: seq<Tile>, drawRow: seq<TileDraw>, cols: seq<Span>, rowSpan: Span) {
    && |row| <= |cols|
    && |row| <= |drawRow|
    && forall c :: 0 <= c < |row| ==>
         row[c] == Tile(Piece(drawRow[c].source, cols[c], rowSpan), drawRow[c].rotate)
  }

  /** The nested grid loops: `y` and `x` run over `range(0, height, g)` and
      `range(0, width, g)` with g = max(50, p_size); each tile is clipped to
      the canvas with `min`. */
  method Grid(width: int, height: int, pSize: int, draws: seq<seq<TileDraw>>) returns (tiles: seq<seq<Tile>>)
    requires |draws| >= StepCount(height, PieceStep(pSize))
    requires forall r :: 0 <= r < |draws| ==> |draws[r]| >= StepCount(width, PieceStep(pSize))
    requires forall r, c :: 0 <= r < |draws| && 0 <= c < |draws[r]| ==> IsSourcePick(draws[r][c].source)
    ensures |tiles| == StepCount(height, PieceStep(pSize))
    ensures forall r :: 0 <= r < |tiles| ==>
      |tiles[r]| == StepCount(width, PieceStep(pSize)) &&
      TileRow(tiles[r], draws[r], UniformSpans(width, PieceStep(pSize)), UniformSpans(height, PieceStep(pSize))[r])
    ensures forall r, c :: 0 <= r < |tiles| && 0 <= c < |tiles[r]| ==>
      IsSourcePick(tiles[r][c].piece.source) &&
      tiles[r][c].piece.cols.lo == c * PieceStep(pSize) && tiles[r][c].piece.rows.lo == r * PieceStep(pSize)
  {
    var g := PieceStep(pSize);
    ghost var rows, cols := UniformSpans(height, g), UniformSpans(width, g);
    tiles := [];
    var y := 0;
    StepCountBelow(height, g, 0);
    while y < height
      invariant 0 <= |tiles| <= StepCount(height, g)
      invariant y == |tiles| * g
      invariant |tiles| < StepCount(height, g) <==> y < height
      invariant forall r :: 0 <= r < |tiles| ==>
        |tiles[r]| == StepCount(width, g) && TileRow(tiles[r], draws[r], cols, rows[r])
      decreases height - y
    {
      UniformSpan(height, g, |tiles|);
      var row := GridRow(width, g, Span(y, Min(y + g, height)), draws[|tiles|]);
      tiles := tiles + [row];
      y := y + g;
      StepCountBelow(height, g, |tiles|);
    }
    TileOrigins(tiles, draws, width, height, g);
  }

  /** A tile cut from column span c and row span r of the grid has its
      origin at (c·g, r·g), and its source is one of the three images. */
  lemma TileOrigins(tiles: seq<seq<Tile>>, draws: seq<seq<TileDraw>>, width: int, height: int, g: int)
    requires g > 0 && |tiles| <= StepCount(height, g) && |tiles| <= |draws|
    requires forall r, c :: 0 <= r < |draws| && 0 <= c < |draws[r]| ==> IsSourcePick(draws[r][c].source)
    requires forall r :: 0 <= r < |tiles| ==>
      |tiles[r]| == StepCount(width, g) && TileRow(tiles[r], draws[r], UniformSpans(width, g), UniformSpans(height, g)[r])
    ensures forall r, c :: 0 <= r < |tiles| && 0 <= c < |tiles[r]| ==>
      IsSourcePick(tiles[r][c].piece.source) && tiles[r][c].piece.cols.lo == c * g && tiles[r][c].piece.rows.lo == r * g
  {
    forall r, c | 0 <= r < |tiles| && 0 <= c < |tiles[r]|
      ensures IsSourcePick(tiles[r][c].piece.source) && tiles[r][c].piece.cols.lo == c * g && tiles[r][c].piece.rows.lo == r * g
    {
      UniformSpan(width, g, c);
      UniformSpan(height, g, r);
    }
  }

  /** The inner grid loop: the tiles of one row, `x` running over
      `range(0, width, g)`. */
  method GridRow(width: int, g: int, rowSpan: Span, drawRow: seq<TileDraw>) returns (row: seq<Tile>)
    requires g > 0 && |drawRow| >= StepCount(width, g)
    ensures |row| == StepCount(width, g) && TileRow(row, drawRow, UniformSpans(width, g), rowSpan)
  {
    ghost var cols := UniformSpans(width, g);
    row := [];
    var x := 0;
    StepCountBelow(width, g, 0);
    while x < width
      invariant 0 <= |row| <= StepCount(width, g)
      invariant x == |row| * g
      invariant |row| < StepCount(width, g) <==> x < width
      invariant TileRow(row, drawRow, cols, rowSpan)
      decreases width - x
    {
      UniformSpan(width, g, |row|);
      var d := drawRow[|row|];
      row := row + [Tile(Piece(d.source, Span(x, Min(x + g, width)), rowSpan), d.rotate)];
      x := x + g;
      StepCountBelow(width, g, |row|);
    }
  }

  /** Two tilings, one of the rows and one of the columns, partition the
      rectangle they span: a pixel lies in some cell exactly when it is
      inside, and then in only one. */
  lemma ProductPartition(rows: seq<Span>, cols: seq<Span>, width: int, height: int, px: int, py: int)
    requires Tiling(rows, height) && Tiling(cols, width)
    ensures (0 <= px < width && 0 <= py < height) <==>
      exists r, c :: 0 <= r < |rows| && 0 <= c < |cols| && InSpan(py, rows[r]) && InSpan(px, cols[c])
    ensures forall r, c, r', c' ::
      0 <= r < |rows| && 0 <= c < |cols| && 0 <= r' < |rows| && 0 <= c' < |cols| &&
      InSpan(py, rows[r]) && InSpan(px, cols[c]) && InSpan(py, rows[r']) && InSpan(px, cols[c'])
      ==> r == r' && c == c'
  {
    TilingPartitions(rows, height, py);
    TilingPartitions(cols, width, px);
    if 0 <= px < width && 0 <= py < height {
      var r :| 0 <= r < |rows| && InSpan(py, rows[r]);
      var c :| 0 <= c < |cols| && InSpan(px, cols[c]);
      assert 0 <= r < |rows| && 0 <= c < |cols| && InSpan(py, rows[r]) && InSpan(px, cols[c]);
    }
  }

  /** The grid tiles cover the canvas: a pixel lies in some tile exactly
      when it is on the canvas. */
  lemma GridPartition(width: int, height: int, g: int, px: int, py: int)
    requires g > 0
    ensures (0 <= px < width && 0 <= py < height) <==>
      exists r, c :: 0 <= r < |UniformSpans(height, g)| && 0 <= c < |UniformSpans(width, g)| &&
        InSpan(py, UniformSpans(height, g)[r]) && InSpan(px, UniformSpans(width, g)[c])
  {
    UniformSpansTile(height, g);
    UniformSpansTile(width, g);
    ProductPartition(UniformSpans(height, g), UniformSpans(width, g), width, height, px, py);
  }

  /** No pixel lies in two grid tiles. */
  lemma GridTileUnique(width: int, height: int, g: int, px: int, py: int)
    requires g > 0
    ensures forall r, c, r', c' ::
      0 <= r < |UniformSpans(height, g)| && 0 <= c < |UniformSpans(width, g)| &&
      0 <= r' < |UniformSpans(height, g)| && 0 <= c' < |UniformSpans(width, g)| &&
      InSpan(py, UniformSpans(height, g)[r]) && InSpan(px, UniformSpans(width, g)[c]) &&
      InSpan(py, UniformSpans(height, g)[r']) && InSpan(px, UniformSpans(width, g)[c'])
      ==> r == r' && c == c'
  {
    UniformSpansTile(height, g);
    UniformSpansTile(width, g);
    ProductPartition(UniformSpans(height, g), UniformSpans(width, g), width, height, px, py);
  }

  // ---------------------------------------------------------------------
  // Triangles

  /** An integer point of a mask polygon. */
  datatype Pt = Pt(x: int, y: int)

  /** The draws for one triangle: a source index, the corner and the size. */
  datatype TriangleDraw = TriangleDraw(source: int, x1: int, y1: int, size: int)

  predicate ValidTriangleDraw(d: TriangleDraw, width: int, height: int, pSize: int) {
    IsSourcePick(d.source) && 0 <= d.x1 <= width && 0 <= d.y1 <= height && pSize <= d.size <= 2 * pSize
  }

  /** The triangle mask: a base of length `size` along y1 and an apex
      `int(size * 0.866)` below its midpoint `size // 2`. */
  function TrianglePoints(d: TriangleDraw): (pts: seq<Pt>)
    ensures |pts| == 3 && pts[0].y == pts[1].y == d.y1
    ensures pts[1].x - pts[0].x == d.size
    ensures d.size >= 0 ==> pts[0].x <= pts[2].x <= pts[1].x && d.y1 <= pts[2].y <= d.y1 + d.size
  {
    var h := Trunc(d.size as real * 0.866);
    [Pt(d.x1, d.y1), Pt(d.x1 + d.size, d.y1), Pt(d.x1 + d.size / 2, d.y1 + h)]
  }

  /** The triangles loop: one mask polygon per draw, `num_triangles` of them. */
  method Triangles(width: int, height: int, pSize: int, numTriangles: int, draws: seq<TriangleDraw>)
    returns (masks: seq<(int, seq<Pt>)>)
    requires 20 <= numTriangles <= 50 && |draws| >= numTriangles
    requires forall i :: 0 <= i < |draws| ==> ValidTriangleDraw(draws[i], width, height, pSize)
    ensures |masks| == numTriangles
    ensures forall i :: 0 <= i < |masks| ==> masks[i] == (draws[i].source, TrianglePoints(draws[i]))
    ensures forall i :: 0 <= i < |masks| ==>
      IsSourcePick(masks[i].0) && |masks[i].1| == 3 && 0 <= masks[i].1[0].x <= width && 0 <= masks[i].1[0].y <= height
  {
    masks := [];
    for i := 0 to numTriangles
      invariant |masks| == i
      invariant forall k :: 0 <= k < i ==> masks[k] == (draws[k].source, TrianglePoints(draws[k]))
    {
      masks := masks + [(draws[i].source, TrianglePoints(draws[i]))];
    }
  }

  // ---------------------------------------------------------------------
  // Diagonal bands

  /** `(width + height) * i // num_strips`: where band i starts along the top edge. */
  function DiagonalOffset(width: int, height: int, numStrips: int, i: int): (o: int)
    requires width >= 0 && height >= 0 && numStrips > 0 && 0 <= i < numStrips
    ensures 0 <= o && (width + height > 0 ==> o < width + height)
    ensures i == 0 ==> o == 0
  {
    ScaledIndexBelow(width + height, i, numStrips);
    (width + height) * i / numStrips
  }

  /** Offsets never go backwards. */
  lemma DiagonalOffsetMonotone(width: int, height: int, numStrips: int, i: int, j: int)
    requires width >= 0 && height >= 0 && numStrips > 0 && 0 <= i <= j < numStrips
    ensures DiagonalOffset(width, height, numStrips, i) <= DiagonalOffset(width, height, numStrips, j)
  {
    var total := width + height;
    assert total * i <= total * j;
    DivMonotone(total * i, total * j, numStrips);
  }

  /** Proof helper: n whole slices of height h // n end at h - h % n. */
  lemma WholeSlices(h: int, n: int)
    requires h >= 0 && n > 0
    ensures h / n >= 0 && n * (h / n) == h - h % n
  {
  }

  /** Proof helper: multiplying by a non-negative factor keeps order. */
  lemma MulMonotone(a: int, b: int, c: int)
    requires a <= b && c >= 0
    ensures a * c <= b * c
  {
    assert b * c - a * c == (b - a) * c;
  }

  /** `total * i // n` for an index `i` below `n` lies in [0, total). */
  lemma ScaledIndexBelow(total: int, i: int, n: int)
    requires total >= 0 && n > 0 && 0 <= i < n
    ensures 0 <= total * i / n
    ensures total > 0 ==> total * i / n < total
  {
    var x := total * i;
    MulMonotone(0, i, total);
    if total > 0 {
      var q := x / n;
      WholeSlices(x, n);
      MulMonotone(i + 1, n, total);
      assert (i + 1) * total == x + total;
      assert (total - q) * n == total * n - n * q;
      PositiveFactor(total - q, n);
    }
  }

  /** Proof helper: floor division by a positive divisor keeps order. */
  lemma DivMonotone(a: int, b: int, n: int)
    requires a <= b && n > 0
    ensures a / n <= b / n
  {
    var qa, qb := a / n, b / n;
    assert qa * n <= a && b < qb * n + n;
    assert (qb + 1 - qa) * n == qb * n + n - qa * n;
    PositiveFactor(qb + 1 - qa, n);
  }

  /** Proof helper: a positive product with a positive factor has a positive other factor. */
  lemma PositiveFactor(x: int, n: int)
    requires n > 0 && x * n > 0
    ensures x > 0
  {
  }

  /** `max(30, p_size // 2)`: the half-width of a band. */
  function BandHalfWidth(pSize: int): (w: int)
    ensures w >= 30 && w >= pSize / 2
  {
    Max(30, pSize / 2)
  }

  /** A diagonal band: the source index and the four corners of its mask. */
  datatype Band = Band(source: int, offset: int, corners: seq<Pt>)

  function BandCorners(offset: int, halfWidth: int, height: int): (pts: seq<Pt>)
    ensures |pts| == 4
    ensures pts[0].y == pts[1].y == 0 && pts[2].y == pts[3].y == height
    ensures pts[1].x - pts[0].x == 2 * halfWidth == pts[2].x - pts[3].x
    ensures pts[3].x == pts[0].x - height
  {
    [Pt(offset - halfWidth, 0), Pt(offset + halfWidth, 0),
     Pt(offset - height + halfWidth, height), Pt(offset - height - halfWidth, height)]
  }

  /** The diagonal loop: `num_strips` bands with non-decreasing offsets
      starting at 0, each a parallelogram of top and bottom width
      2 * max(30, p_size // 2) leaning back by the canvas height. */
  method Diagonal(width: int, height: int, pSize: int, numStrips: int, picks: seq<int>) returns (bands: seq<Band>)
    requires width >= 0 && height >= 0
    requires 10 <= numStrips <= 30 && |picks| >= numStrips
    requires forall i :: 0 <= i < |picks| ==> IsSourcePick(picks[i])
    ensures |bands| == numStrips && bands[0].offset == 0
    ensures forall i :: 0 <= i < |bands| ==>
      bands[i].source == picks[i] &&
      bands[i].offset == DiagonalOffset(width, height, numStrips, i) &&
      bands[i].corners == BandCorners(bands[i].offset, BandHalfWidth(pSize), height)
    ensures forall i, j :: 0 <= i <= j < |bands| ==> bands[i].offset <= bands[j].offset
  {
    bands := [];
    for i := 0 to numStrips
      invariant |bands| == i
      invariant forall k :: 0 <= k < i ==>
        bands[k] == Band(picks[k], DiagonalOffset(width, height, numStrips, k),
                         BandCorners(DiagonalOffset(width, height, numStrips, k), BandHalfWidth(pSize), height))
    {
      var offset := (width + height) * i / numStrips;
      var stripWidth := Max(30, pSize / 2);
      bands := bands + [Band(picks[i], offset, BandCorners(offset, stripWidth, height))];
    }
    forall i, j | 0 <= i <= j < |bands| ensures bands[i].offset <= bands[j].offset {
      DiagonalOffsetMonotone(width, height, numStrips, i, j);
    }
  }

  // ---------------------------------------------------------------------
  // Spiral

  /** How many radii 10, 12, 14, … lie below m. */
  function SpiralCount(m: int): (k: nat)
    ensures m <= 10 ==> k == 0
    ensures m > 10 ==> 10 + 2 * (k - 1) < m <= 10 + 2 * k
  {
    if m <= 10 then 0 else (m - 9) / 2
  }

  /** A spiral disc: the source index, the radius and the angle it is placed
      at, and the half-size `p_size // 2` of its circle. */
  datatype Disc = Disc(source: int, radius: int, angle: real, halfSize: int)

  /** The spiral loop: radius 10, 12, 14, … while below max(width, height),
      the angle advancing by 0.5 each time. */
  method Spiral(width: int, height: int, pSize: int, picks: seq<int>) returns (discs: seq<Disc>)
    requires |picks| >= SpiralCount(Max(width, height))
    requires forall i :: 0 <= i < |picks| ==> IsSourcePick(picks[i])
    ensures |discs| == SpiralCount(Max(width, height))
    ensures forall i :: 0 <= i < |discs| ==>
      discs[i] == Disc(picks[i], 10 + 2 * i, 0.5 * i as real, pSize / 2)
    ensures forall i :: 0 <= i < |discs| ==> discs[i].radius < Max(width, height)
  {
    var angle: real := 0.0;
    var radius := 10;
    discs := [];
    var m := Max(width, height);
    while radius < m
      invariant |discs| <= SpiralCount(m)
      invariant radius == 10 + 2 * |discs| && angle == 0.5 * |discs| as real
      invariant radius < m <==> |discs| < SpiralCount(m)
      invariant forall k :: 0 <= k < |discs| ==> discs[k] == Disc(picks[k], 10 + 2 * k, 0.5 * k as real, pSize / 2)
      decreases m - radius
    {
      discs := discs + [Disc(picks[|discs|], radius, angle, pSize / 2)];
      angle := angle + 0.5;
      radius := radius + 2;
    }
  }

  // ---------------------------------------------------------------------
  // Dispatch on mode names

  /** What `apply_colour_effect` does for a mode name. */
  datatype ColourOp = Invert | Solarize | ChannelSwap | ExtremeContrast | Chromatic | ColourUnchanged

  const ColourModes: set<string> := {"invert", "solarize", "channel_swap", "extreme_contrast", "chromatic"}

  function ColourEffect(mode: string): (op: ColourOp)
    ensures op == ColourUnchanged <==> mode !in ColourModes
  {
    if mode == "invert" then Invert
    else if mode == "solarize" then Solarize
    else if mode == "channel_swap" then ChannelSwap
    else if mode == "extreme_contrast" then ExtremeContrast
    else if mode == "chromatic" then Chromatic
    else ColourUnchanged
  }

  /** What `apply_effect` does for an effect name. */
  datatype EffectOp = HeavyGlitch | Kaleidoscope | Mirror | Displace | Liquify | EffectUnchanged

  const Effects: set<string> := {"heavy_glitch", "kaleidoscope", "mirror", "displace", "liquify"}

  function Effect(name: string): (op: EffectOp)
    ensures op == EffectUnchanged <==> name !in Effects
  {
    if name == "heavy_glitch" then HeavyGlitch
    else if name == "kaleidoscope" then Kaleidoscope
    else if name == "mirror" then Mirror
    else if name == "displace" then Displace
    else if name == "liquify" then Liquify
    else EffectUnchanged
  }

  /** What `warp_image` does: nothing below intensity 0.1, otherwise an
      affine map shifting by `int(w * intensity * 0.3)`. */
  datatype WarpOp = WarpIdentity | Affine(shear: real, shift: int, lift: real)

  function Warp(w: int, intensity: real): (op: WarpOp)
    ensures op == WarpIdentity <==> intensity < 0.1
    ensures op.Affine? && w >= 0 ==> 0 <= op.shift && op.shift as real <= w as real * intensity * 0.3 < (op.shift + 1) as real
  {
    if intensity < 0.1 then WarpIdentity
    else Affine(intensity * 0.3, Trunc(w as real * intensity * 0.3), intensity * 0.2)
  }

  /** What `blend_images` does for a mode name. */
  datatype BlendOp = Multiply | Screen | HalfBlend | TakeOverlay

  const BlendModes: set<string> := {"multiply", "screen", "overlay"}

  function BlendImages(mode: string): (op: BlendOp)
    ensures op == TakeOverlay <==> mode !in BlendModes
  {
    if mode == "multiply" then Multiply
    else if mode == "screen" then Screen
    else if mode == "overlay" then HalfBlend
    else TakeOverlay
  }

  /** The final blend runs unless the mode is "normal"; for any other name
      `blend_images` does not know, the canvas is replaced by the overlay. */
  function FinalBlend(mode: string): (op: Option<BlendOp>)
    ensures op.None? <==> mode == "normal"
    ensures op == Some(TakeOverlay) <==> mode != "normal" && mode !in BlendModes
  {
    if mode == "normal" then None else Some(BlendImages(mode))
  }

  // ---------------------------------------------------------------------
  // Effects with their own integer layout

  /** The kaleidoscope pastes four `w // 2` by `h // 2` quadrants at
      (0, 0), (hw, 0), (0, hh) and (hw, hh). */
  function Quadrants(w: int, h: int): (origins: seq<Pt>)
    requires w >= 0 && h >= 0
    ensures |origins| == 4
    ensures forall i :: 0 <= i < 4 ==> 0 <= origins[i].x && origins[i].x + w / 2 <= w && 0 <= origins[i].y && origins[i].y + h / 2 <= h
  {
    var hw, hh := w / 2, h / 2;
    [Pt(0, 0), Pt(hw, 0), Pt(0, hh), Pt(hw, hh)]
  }

  /** The quadrants cover the result exactly when both sides are even; an
      odd width or height leaves the last column or row of the new black
      image uncovered. */
  lemma QuadrantsCover(w: int, h: int, px: int, py: int)
    requires w >= 0 && h >= 0 && 0 <= px < w && 0 <= py < h
    ensures (exists i :: 0 <= i < 4 && Quadrants(w, h)[i].x <= px < Quadrants(w, h)[i].x + w / 2 &&
                                       Quadrants(w, h)[i].y <= py < Quadrants(w, h)[i].y + h / 2)
            <==> (px < 2 * (w / 2) && py < 2 * (h / 2))
  {
    var q, hw, hh := Quadrants(w, h), w / 2, h / 2;
    if px < 2 * hw && py < 2 * hh {
      var i := (if px < hw then 0 else 1) + (if py < hh then 0 else 2);
      assert q[i].x <= px < q[i].x + hw && q[i].y <= py < q[i].y + hh;
    }
  }

  /** One displaced slice: its rows and its horizontal offset draw. */
  datatype RowSlice = RowSlice(rows: Span, offsetX: int)

  /** The "displace" loop: `num_slices` slices of height `h // num_slices`.
      No slice is ever clipped by its `min`, and the slices cover rows
      [0, h - h % num_slices): the bottom `h % num_slices` rows keep their
      original pixels. */
  method DisplaceSlices(h: int, numSlices: int, offsets: seq<int>) returns (slices: seq<RowSlice>)
    requires h >= 0 && 5 <= numSlices <= 15 && |offsets| >= numSlices
    requires forall i :: 0 <= i < |offsets| ==> -100 <= offsets[i] <= 100
    ensures |slices| == numSlices
    ensures forall i :: 0 <= i < numSlices ==>
      slices[i] == RowSlice(Span(i * (h / numSlices), (i + 1) * (h / numSlices)), offsets[i])
    ensures slices[numSlices - 1].rows.hi == h - h % numSlices
    ensures forall i :: 0 < i < numSlices ==> slices[i - 1].rows.hi == slices[i].rows.lo
  {
    var sliceHeight := h / numSlices;
    slices := [];
    for i := 0 to numSlices
      invariant |slices| == i
      invariant forall k :: 0 <= k < i ==>
        slices[k] == RowSlice(Span(k * sliceHeight, (k + 1) * sliceHeight), offsets[k])
    {
      var y := i * sliceHeight;
      SliceFits(h, numSlices, i);
      slices := slices + [RowSlice(Span(y, Min(y + sliceHeight, h)), offsets[i])];
    }
    SliceFits(h, numSlices, numSlices - 1);
  }

  /** Slice i ends at (i + 1) * (h // n), no lower than the last row the
      slices cover. */
  lemma SliceFits(h: int, n: int, i: int)
    requires h >= 0 && n > 0 && 0 <= i < n
    ensures i * (h / n) + h / n == (i + 1) * (h / n) <= n * (h / n) == h - h % n
  {
    var sh := h / n;
    WholeSlices(h, n);
    MulMonotone(i + 1, n, sh);
    assert (i + 1) * sh == i * sh + sh;
  }
}
