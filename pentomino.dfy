/** The pentomino outline renderer: one of twelve five-cell shapes is centred
    in a 3-by-5 box of squares, the squares are filled, and every side of
    every square is stroked once, the side shared by two cells being drawn
    only for the first of them. Sides are identified by canonical grid keys,
    collected in a set, and the square corners are collected in a second set
    on which round caps are drawn. */
module Pentomino {

  /** A unit square of the shape at grid position (row, col). */
  datatype Cell = Cell(row: int, col: int)

  /** Canonical key of a unit side: a horizontal side on grid line `row`
      between columns c0 and c1, or a vertical side on grid line `col`
      between rows r0 and r1 (the tuples ('h', …) and ('v', …) of the script). */
  datatype EdgeKey = H(row: int, c0: int, c1: int) | V(col: int, r0: int, r1: int)

  datatype Point = Point(x: int, y: int)

  /** A stroked line, with the key that caused it to be drawn. */
  datatype Segment = Segment(key: EdgeKey, from: Point, to: Point)

  /** A filled square, as the box [x0, y0, x1, y1] handed to the rectangle call. */
  datatype Square = Square(x0: int, y0: int, x1: int, y1: int)

  /** The twelve pentominoes as (row, col) cells. */
  const SHAPE_F: seq<Cell> := [Cell(0, 1), Cell(1, 0), Cell(1, 1), Cell(1, 2), Cell(2, 2)]
  const SHAPE_I: seq<Cell> := [Cell(0, 0), Cell(1, 0), Cell(2, 0), Cell(3, 0), Cell(4, 0)]
  const SHAPE_L: seq<Cell> := [Cell(0, 0), Cell(1, 0), Cell(2, 0), Cell(3, 0), Cell(3, 1)]
  const SHAPE_N: seq<Cell> := [Cell(0, 1), Cell(1, 1), Cell(2, 0), Cell(2, 1), Cell(3, 0)]
  const SHAPE_P: seq<Cell> := [Cell(0, 0), Cell(0, 1), Cell(1, 0), Cell(1, 1), Cell(2, 0)]
  const SHAPE_T: seq<Cell> := [Cell(0, 0), Cell(0, 1), Cell(0, 2), Cell(1, 1), Cell(2, 1)]
  const SHAPE_U: seq<Cell> := [Cell(0, 0), Cell(0, 2), Cell(1, 0), Cell(1, 1), Cell(1, 2)]
  const SHAPE_V: seq<Cell> := [Cell(0, 0), Cell(1, 0), Cell(2, 0), Cell(2, 1), Cell(2, 2)]
  const SHAPE_W: seq<Cell> := [Cell(0, 0), Cell(1, 0), Cell(1, 1), Cell(2, 1), Cell(2, 2)]
  const SHAPE_X: seq<Cell> := [Cell(0, 1), Cell(1, 0), Cell(1, 1), Cell(1, 2), Cell(2, 1)]
  const SHAPE_Y: seq<Cell> := [Cell(0, 1), Cell(1, 0), Cell(1, 1), Cell(2, 1), Cell(3, 1)]
  const SHAPE_Z: seq<Cell> := [Cell(0, 0), Cell(0, 1), Cell(1, 1), Cell(2, 1), Cell(2, 2)]

  /** The shape table, in the order F I L N P T U V W X Y Z. */
  const Shapes: seq<seq<Cell>> :=
    [SHAPE_F, SHAPE_I, SHAPE_L, SHAPE_N, SHAPE_P, SHAPE_T, SHAPE_U, SHAPE_V, SHAPE_W, SHAPE_X, SHAPE_Y, SHAPE_Z]

  /** Index of the P pentomino, the only one with a 2-by-2 block. */
  const P_INDEX := 4

  /** Cells listed without repetition. */
  predicate NoRepeats(cells: seq<Cell>) {
    cells == [] || (cells[|cells| - 1] !in cells[..|cells| - 1] && NoRepeats(cells[..|cells| - 1]))
  }

  /** Every cell lies in the 3-column, 5-row box the centring assumes. */
  predicate InBox(cells: seq<Cell>) {
    forall i :: 0 <= i < |cells| ==> CellInBox(cells[i])
  }

  predicate CellInBox(c: Cell) {
    0 <= c.row <= 4 && 0 <= c.col <= 2
  }

  // ---------------------------------------------------------------------
  // Centring and filled squares

  /** `(extent - square_size * units) // 2`. */
  function CentreOffset(extent: int, s: int, units: int): int {
    (extent - s * units) / 2
  }

  function SquareOf(c: Cell, ox: int, oy: int, s: int): Square {
    var x := ox + c.col * s;
    var y := oy + c.row * s;
    Square(x, y, x + s, y + s)
  }

  predicate InsideCanvas(q: Square, width: int, height: int) {
    0 <= q.x0 <= q.x1 <= width && 0 <= q.y0 <= q.y1 <= height
  }

  lemma CentredSquareInside(c: Cell, width: int, height: int, s: int)
    requires CellInBox(c)
    requires 0 <= s && 3 * s <= width && 5 * s <= height
    ensures InsideCanvas(SquareOf(c, CentreOffset(width, s, 3), CentreOffset(height, s, 5), s), width, height)
  {
    assert 0 <= c.col * s <= 2 * s;
    assert 0 <= c.row * s <= 4 * s;
  }

  /** The fill loop: one square per cell, at the cell's scaled position; when
      the canvas holds the 3-by-5 box every square lies inside it. */
  method PlaceSquares(shape: seq<Cell>, width: int, height: int, s: int) returns (squares: seq<Square>)
    ensures |squares| == |shape|
    ensures forall i :: 0 <= i < |shape| ==>
      squares[i] == SquareOf(shape[i], CentreOffset(width, s, 3), CentreOffset(height, s, 5), s)
    ensures InBox(shape) && 0 <= s && 3 * s <= width && 5 * s <= height ==>
      forall i :: 0 <= i < |squares| ==> InsideCanvas(squares[i], width, height)
  {
    var ox := CentreOffset(width, s, 3);
    var oy := CentreOffset(height, s, 5);
    squares := [];
    for i := 0 to |shape|
      invariant |squares| == i
      invariant forall j :: 0 <= j < i ==> squares[j] == SquareOf(shape[j], ox, oy, s)
      invariant InBox(shape) && 0 <= s && 3 * s <= width && 5 * s <= height ==>
        forall j :: 0 <= j < i ==> InsideCanvas(squares[j], width, height)
    {
      if InBox(shape) && 0 <= s && 3 * s <= width && 5 * s <= height {
        CentredSquareInside(shape[i], width, height, s);
      }
      squares := squares + [SquareOf(shape[i], ox, oy, s)];
    }
  }

  // ---------------------------------------------------------------------
  // Edge keys and corner points

  function TopKey(c: Cell): EdgeKey { H(c.row, c.col, c.col + 1) }
  function BottomKey(c: Cell): EdgeKey { H(c.row + 1, c.col, c.col + 1) }
  function LeftKey(c: Cell): EdgeKey { V(c.col, c.row, c.row + 1) }
  function RightKey(c: Cell): EdgeKey { V(c.col + 1, c.row, c.row + 1) }

  function CellEdges(c: Cell): set<EdgeKey> {
    {TopKey(c), BottomKey(c), LeftKey(c), RightKey(c)}
  }

  /** The union of the four side keys of every cell. */
  function EdgesOf(cells: seq<Cell>): set<EdgeKey> {
    if cells == [] then {} else EdgesOf(cells[..|cells| - 1]) + CellEdges(cells[|cells| - 1])
  }

  /** Pixel coordinates of a grid-line point. */
  function GridPoint(row: int, col: int, ox: int, oy: int, s: int): Point {
    Point(ox + col * s, oy + row * s)
  }

  function CellCorners(c: Cell, ox: int, oy: int, s: int): set<Point> {
    {GridPoint(c.row, c.col, ox, oy, s), GridPoint(c.row, c.col + 1, ox, oy, s),
     GridPoint(c.row + 1, c.col, ox, oy, s), GridPoint(c.row + 1, c.col + 1, ox, oy, s)}
  }

  /** The union of the four corners of every cell square. */
  function CornersOf(cells: seq<Cell>, ox: int, oy: int, s: int): set<Point> {
    if cells == [] then {}
    else CornersOf(cells[..|cells| - 1], ox, oy, s) + CellCorners(cells[|cells| - 1], ox, oy, s)
  }

  /** The line a key stands for: its two grid-line end points in pixels. */
  function SegmentOf(k: EdgeKey, ox: int, oy: int, s: int): Segment {
    match k
    case H(r, c0, c1) => Segment(k, GridPoint(r, c0, ox, oy, s), GridPoint(r, c1, ox, oy, s))
    case V(c, r0, r1) => Segment(k, GridPoint(r0, c, ox, oy, s), GridPoint(r1, c, ox, oy, s))
  }

  /** The keys of a list of drawn segments. */
  function KeysOf(segments: seq<Segment>): set<EdgeKey> {
    set i | 0 <= i < |segments| :: segments[i].key
  }

  /** Segments drawn with pairwise different keys, which are exactly `drawn`. */
  predicate DrawnOnce(segments: seq<Segment>, drawn: set<EdgeKey>) {
    && (forall i, j :: 0 <= i < j < |segments| ==> segments[i].key != segments[j].key)
    && KeysOf(segments) == drawn
    && |segments| == |drawn|
  }

  /** Every segment sits at the pixel position its key names. */
  predicate AtKeyPositions(segments: seq<Segment>, ox: int, oy: int, s: int) {
    forall i :: 0 <= i < |segments| ==> segments[i] == SegmentOf(segments[i].key, ox, oy, s)
  }

  /** One `if edge not in drawn_edges` step: stroke the side and record its
      key, unless the key is already recorded. */
  method DrawSide(k: EdgeKey, drawn: set<EdgeKey>, segments: seq<Segment>, ox: int, oy: int, s: int)
    returns (drawn': set<EdgeKey>, segments': seq<Segment>)
    requires DrawnOnce(segments, drawn) && AtKeyPositions(segments, ox, oy, s)
    ensures drawn' == drawn + {k}
    ensures k in drawn ==> segments' == segments
    ensures k !in drawn ==> segments' == segments + [SegmentOf(k, ox, oy, s)]
    ensures DrawnOnce(segments', drawn') && AtKeyPositions(segments', ox, oy, s)
  {
    drawn', segments' := drawn, segments;
    if k !in drawn {
      segments' := segments + [SegmentOf(k, ox, oy, s)];
      drawn' := drawn + {k};
      assert KeysOf(segments') == KeysOf(segments) + {k} by {
        forall k' | k' in KeysOf(segments) ensures k' in KeysOf(segments') {
          var i :| 0 <= i < |segments| && segments[i].key == k';
          assert segments'[i].key == k';
        }
        assert segments'[|segments|].key == k;
      }
    }
  }

  /** The four side checks of one cell, top, bottom, left, right. */
  method DrawCellSides(c: Cell, drawn: set<EdgeKey>, segments: seq<Segment>, ox: int, oy: int, s: int)
    returns (drawn': set<EdgeKey>, segments': seq<Segment>)
    requires DrawnOnce(segments, drawn) && AtKeyPositions(segments, ox, oy, s)
    ensures drawn' == drawn + CellEdges(c)
    ensures DrawnOnce(segments', drawn') && AtKeyPositions(segments', ox, oy, s)
  {
    var t, b, l, r := TopKey(c), BottomKey(c), LeftKey(c), RightKey(c);
    var d1, s1 := DrawSide(t, drawn, segments, ox, oy, s);
    var d2, s2 := DrawSide(b, d1, s1, ox, oy, s);
    var d3, s3 := DrawSide(l, d2, s2, ox, oy, s);
    drawn', segments' := DrawSide(r, d3, s3, ox, oy, s);
    UnionOfFour(drawn, t, b, l, r);
  }

  /** Proof helper: adding four keys one by one adds them all. */
  lemma UnionOfFour<T>(a: set<T>, t: T, b: T, l: T, r: T)
    ensures a + {t} + {b} + {l} + {r} == a + {t, b, l, r}
  {
  }

  /** The outline loop. `drawn_edges` ends as the union of all cell sides,
      `corner_points` as the union of all cell corners; every side is stroked
      exactly once, at the pixel position its key names, and both of its ends
      carry a corner cap. */
  method DrawOutline(shape: seq<Cell>, ox: int, oy: int, s: int)
    returns (drawn: set<EdgeKey>, corners: set<Point>, segments: seq<Segment>)
    ensures drawn == EdgesOf(shape)
    ensures corners == CornersOf(shape, ox, oy, s)
    ensures DrawnOnce(segments, drawn)
    ensures AtKeyPositions(segments, ox, oy, s)
    ensures forall i :: 0 <= i < |segments| ==> segments[i].from in corners && segments[i].to in corners
  {
    drawn, corners, segments := {}, {}, [];
    for i := 0 to |shape|
      invariant drawn == EdgesOf(shape[..i])
      invariant corners == CornersOf(shape[..i], ox, oy, s)
      invariant DrawnOnce(segments, drawn) && AtKeyPositions(segments, ox, oy, s)
    {
      var c := shape[i];
      PrefixStep(shape, i, ox, oy, s);
      corners := corners + CellCorners(c, ox, oy, s);
      drawn, segments := DrawCellSides(c, drawn, segments, ox, oy, s);
    }
    assert shape[..|shape|] == shape;
    forall j | 0 <= j < |segments|
      ensures segments[j].from in corners && segments[j].to in corners
    {
      EndsAreCorners(shape, segments[j].key, ox, oy, s);
    }
  }

  lemma PrefixStep(cells: seq<Cell>, i: nat, ox: int, oy: int, s: int)
    requires i < |cells|
    ensures EdgesOf(cells[..i + 1]) == EdgesOf(cells[..i]) + CellEdges(cells[i])
    ensures CornersOf(cells[..i + 1], ox, oy, s) == CornersOf(cells[..i], ox, oy, s) + CellCorners(cells[i], ox, oy, s)
  {
    assert cells[..i + 1][..i] == cells[..i];
  }

  lemma {:induction false} EndsAreCorners(cells: seq<Cell>, k: EdgeKey, ox: int, oy: int, s: int)
    requires k in EdgesOf(cells)
    ensures SegmentOf(k, ox, oy, s).from in CornersOf(cells, ox, oy, s)
    ensures SegmentOf(k, ox, oy, s).to in CornersOf(cells, ox, oy, s)
  {
    var prefix := cells[..|cells| - 1];
    if k in EdgesOf(prefix) {
      EndsAreCorners(prefix, k, ox, oy, s);
    }
  }

  // ---------------------------------------------------------------------
  // Counting

  function Ind(b: bool): nat { if b then 1 else 0 }

  /** How many of the four edge-neighbours of c occur in `earlier`. */
  function EarlierNeighbours(earlier: seq<Cell>, c: Cell): nat {
    Ind(Cell(c.row - 1, c.col) in earlier) + Ind(Cell(c.row + 1, c.col) in earlier) +
    Ind(Cell(c.row, c.col - 1) in earlier) + Ind(Cell(c.row, c.col + 1) in earlier)
  }

  /** The number of unordered pairs of cells that share a side, each pair
      counted at its later cell. */
  function AdjacentPairs(cells: seq<Cell>): nat {
    if cells == [] then 0
    else AdjacentPairs(cells[..|cells| - 1]) + EarlierNeighbours(cells[..|cells| - 1], cells[|cells| - 1])
  }

  lemma {:induction false} EdgeMembership(cells: seq<Cell>, k: EdgeKey)
    ensures k in EdgesOf(cells) <==> exists d :: d in cells && k in CellEdges(d)
  {
    if cells != [] {
      var prefix := cells[..|cells| - 1];
      EdgeMembership(prefix, k);
      assert forall d :: d in cells <==> d in prefix || d == cells[|cells| - 1];
    }
  }

  /** The sides that a new cell shares with earlier cells are exactly those
      facing its earlier neighbours: the bottom key of (r, c) is the top key
      of (r + 1, c), the right key of (r, c) the left key of (r, c + 1). */
  lemma SharedSides(earlier: seq<Cell>, c: Cell)
    requires c !in earlier
    ensures TopKey(c) in EdgesOf(earlier) <==> Cell(c.row - 1, c.col) in earlier
    ensures BottomKey(c) in EdgesOf(earlier) <==> Cell(c.row + 1, c.col) in earlier
    ensures LeftKey(c) in EdgesOf(earlier) <==> Cell(c.row, c.col - 1) in earlier
    ensures RightKey(c) in EdgesOf(earlier) <==> Cell(c.row, c.col + 1) in earlier
  {
    EdgeMembership(earlier, TopKey(c));
    EdgeMembership(earlier, BottomKey(c));
    EdgeMembership(earlier, LeftKey(c));
    EdgeMembership(earlier, RightKey(c));
    assert BottomKey(Cell(c.row - 1, c.col)) == TopKey(c);
    assert TopKey(Cell(c.row + 1, c.col)) == BottomKey(c);
    assert RightKey(Cell(c.row, c.col - 1)) == LeftKey(c);
    assert LeftKey(Cell(c.row, c.col + 1)) == RightKey(c);
  }

  /** Proof helper: adding one element grows a set by one exactly when it was absent. */
  lemma AddOne<T>(a: set<T>, x: T)
    ensures |a + {x}| == |a| + Ind(x !in a)
  {
    if x in a {
      assert a + {x} == a;
    }
  }

  /** Each pair of edge-adjacent cells shares one side, drawn once: the
      outline has 4 sides per cell less one per adjacent pair. */
  lemma {:induction false} EdgeCount(cells: seq<Cell>)
    requires NoRepeats(cells)
    ensures |EdgesOf(cells)| == 4 * |cells| - AdjacentPairs(cells)
  {
    if cells != [] {
      var prefix, c := cells[..|cells| - 1], cells[|cells| - 1];
      EdgeCount(prefix);
      SharedSides(prefix, c);
      AddFour(EdgesOf(prefix), TopKey(c), BottomKey(c), LeftKey(c), RightKey(c));
    }
  }

  /** Proof helper: adding four distinct elements grows a set by those that were absent. */
  lemma AddFour<T>(a: set<T>, t: T, b: T, l: T, r: T)
    requires t != b && t != l && t != r && b != l && b != r && l != r
    ensures |a + {t, b, l, r}| == |a| + 4 - (Ind(t in a) + Ind(b in a) + Ind(l in a) + Ind(r in a))
  {
    assert a + {t, b, l, r} == a + {t} + {b} + {l} + {r};
    AddOne(a, t);
    AddOne(a + {t}, b);
    AddOne(a + {t} + {b}, l);
    AddOne(a + {t} + {b} + {l}, r);
  }

  /** `corner_points` never holds more than four points per cell. */
  lemma {:induction false} CornerCount(cells: seq<Cell>, ox: int, oy: int, s: int)
    ensures |CornersOf(cells, ox, oy, s)| <= 4 * |cells|
  {
    if cells != [] {
      var c := cells[|cells| - 1];
      var a := CornersOf(cells[..|cells| - 1], ox, oy, s);
      CornerCount(cells[..|cells| - 1], ox, oy, s);
      var p00, p01 := GridPoint(c.row, c.col, ox, oy, s), GridPoint(c.row, c.col + 1, ox, oy, s);
      var p10, p11 := GridPoint(c.row + 1, c.col, ox, oy, s), GridPoint(c.row + 1, c.col + 1, ox, oy, s);
      assert a + CellCorners(c, ox, oy, s) == a + {p00} + {p01} + {p10} + {p11};
      AddOne(a, p00);
      AddOne(a + {p00}, p01);
      AddOne(a + {p00} + {p01}, p10);
      AddOne(a + {p00} + {p01} + {p10}, p11);
    }
  }

  /** Proof helper: the prefixes of a five-cell shape, element by element. */
  lemma FivePrefixes(cells: seq<Cell>)
    requires |cells| == 5
    ensures cells[..4] == [cells[0], cells[1], cells[2], cells[3]]
    ensures cells[..4][..3] == [cells[0], cells[1], cells[2]]
    ensures cells[..4][..3][..2] == [cells[0], cells[1]]
    ensures cells[..4][..3][..2][..1] == [cells[0]]
    ensures cells[..4][..3][..2][..1][..0] == []
  {
  }

  lemma FiveDistinct(cells: seq<Cell>)
    requires |cells| == 5
    ensures NoRepeats(cells) <==>
      && cells[0] != cells[1] && cells[0] != cells[2] && cells[0] != cells[3] && cells[0] != cells[4]
      && cells[1] != cells[2] && cells[1] != cells[3] && cells[1] != cells[4]
      && cells[2] != cells[3] && cells[2] != cells[4] && cells[3] != cells[4]
    ensures InBox(cells) <==>
      CellInBox(cells[0]) && CellInBox(cells[1]) && CellInBox(cells[2]) && CellInBox(cells[3]) && CellInBox(cells[4])
  {
    FivePrefixes(cells);
    var s4, s3, s2, s1 := cells[..4], cells[..4][..3], cells[..4][..3][..2], cells[..4][..3][..2][..1];
    assert NoRepeats(s1);
    assert NoRepeats(cells) <==> cells[4] !in s4 && NoRepeats(s4);
    assert NoRepeats(s4) <==> cells[3] !in s3 && NoRepeats(s3);
    assert NoRepeats(s3) <==> cells[2] !in s2 && NoRepeats(s2);
    assert NoRepeats(s2) <==> cells[1] !in s1;
  }

  lemma FiveAdjacent(cells: seq<Cell>)
    requires |cells| == 5
    ensures AdjacentPairs(cells) ==
      EarlierNeighbours([cells[0]], cells[1]) +
      EarlierNeighbours([cells[0], cells[1]], cells[2]) +
      EarlierNeighbours([cells[0], cells[1], cells[2]], cells[3]) +
      EarlierNeighbours([cells[0], cells[1], cells[2], cells[3]], cells[4])
  {
    FivePrefixes(cells);
    var s4, s3, s2, s1 := cells[..4], cells[..4][..3], cells[..4][..3][..2], cells[..4][..3][..2][..1];
    assert AdjacentPairs(s1) == 0;
    assert AdjacentPairs(cells) == AdjacentPairs(s4) + EarlierNeighbours(s4, cells[4]);
    assert AdjacentPairs(s4) == AdjacentPairs(s3) + EarlierNeighbours(s3, cells[3]);
    assert AdjacentPairs(s3) == AdjacentPairs(s2) + EarlierNeighbours(s2, cells[2]);
  }

  /** A five-cell table entry: no cell repeated, every cell inside the box. */
  predicate FiveDistinctInBox(cells: seq<Cell>) {
    |cells| == 5 && NoRepeats(cells) && InBox(cells)
  }

  lemma ShapeFFacts()
    ensures FiveDistinctInBox(SHAPE_F) && AdjacentPairs(SHAPE_F) == 4
  {
    assert FiveDistinctInBox(SHAPE_F) by { FiveDistinct(SHAPE_F); }
    assert AdjacentPairs(SHAPE_F) == 4 by { FiveAdjacent(SHAPE_F); }
  }

  lemma ShapeIFacts()
    ensures FiveDistinctInBox(SHAPE_I) && AdjacentPairs(SHAPE_I) == 4
  {
    assert FiveDistinctInBox(SHAPE_I) by { FiveDistinct(SHAPE_I); }
    assert AdjacentPairs(SHAPE_I) == 4 by { FiveAdjacent(SHAPE_I); }
  }

  lemma ShapeLFacts()
    ensures FiveDistinctInBox(SHAPE_L) && AdjacentPairs(SHAPE_L) == 4
  {
    assert FiveDistinctInBox(SHAPE_L) by { FiveDistinct(SHAPE_L); }
    assert AdjacentPairs(SHAPE_L) == 4 by { FiveAdjacent(SHAPE_L); }
  }

  lemma ShapeNFacts()
    ensures FiveDistinctInBox(SHAPE_N) && AdjacentPairs(SHAPE_N) == 4
  {
    assert FiveDistinctInBox(SHAPE_N) by { FiveDistinct(SHAPE_N); }
    assert AdjacentPairs(SHAPE_N) == 4 by { FiveAdjacent(SHAPE_N); }
  }

  lemma ShapePFacts()
    ensures FiveDistinctInBox(SHAPE_P) && AdjacentPairs(SHAPE_P) == 5
  {
    assert FiveDistinctInBox(SHAPE_P) by { FiveDistinct(SHAPE_P); }
    assert AdjacentPairs(SHAPE_P) == 5 by { FiveAdjacent(SHAPE_P); }
  }

  lemma ShapeTFacts()
    ensures FiveDistinctInBox(SHAPE_T) && AdjacentPairs(SHAPE_T) == 4
  {
    assert FiveDistinctInBox(SHAPE_T) by { FiveDistinct(SHAPE_T); }
    assert AdjacentPairs(SHAPE_T) == 4 by { FiveAdjacent(SHAPE_T); }
  }

  lemma ShapeUFacts()
    ensures FiveDistinctInBox(SHAPE_U) && AdjacentPairs(SHAPE_U) == 4
  {
    assert FiveDistinctInBox(SHAPE_U) by { FiveDistinct(SHAPE_U); }
    assert AdjacentPairs(SHAPE_U) == 4 by { FiveAdjacent(SHAPE_U); }
  }

  lemma ShapeVFacts()
    ensures FiveDistinctInBox(SHAPE_V) && AdjacentPairs(SHAPE_V) == 4
  {
    assert FiveDistinctInBox(SHAPE_V) by { FiveDistinct(SHAPE_V); }
    assert AdjacentPairs(SHAPE_V) == 4 by { FiveAdjacent(SHAPE_V); }
  }

  lemma ShapeWFacts()
    ensures FiveDistinctInBox(SHAPE_W) && AdjacentPairs(SHAPE_W) == 4
  {
    assert FiveDistinctInBox(SHAPE_W) by { FiveDistinct(SHAPE_W); }
    assert AdjacentPairs(SHAPE_W) == 4 by { FiveAdjacent(SHAPE_W); }
  }

  lemma ShapeXFacts()
    ensures FiveDistinctInBox(SHAPE_X) && AdjacentPairs(SHAPE_X) == 4
  {
    assert FiveDistinctInBox(SHAPE_X) by { FiveDistinct(SHAPE_X); }
    assert AdjacentPairs(SHAPE_X) == 4 by { FiveAdjacent(SHAPE_X); }
  }

  lemma ShapeYFacts()
    ensures FiveDistinctInBox(SHAPE_Y) && AdjacentPairs(SHAPE_Y) == 4
  {
    assert FiveDistinctInBox(SHAPE_Y) by { FiveDistinct(SHAPE_Y); }
    assert AdjacentPairs(SHAPE_Y) == 4 by { FiveAdjacent(SHAPE_Y); }
  }

  lemma ShapeZFacts()
    ensures FiveDistinctInBox(SHAPE_Z) && AdjacentPairs(SHAPE_Z) == 4
  {
    assert FiveDistinctInBox(SHAPE_Z) by { FiveDistinct(SHAPE_Z); }
    assert AdjacentPairs(SHAPE_Z) == 4 by { FiveAdjacent(SHAPE_Z); }
  }

  /** One entry of the shape table: five distinct cells inside the 3-by-5
      box; the P pentomino has five edge-adjacent pairs, every other one four. */
  lemma ShapeWellFormed(k: nat)
    requires k < 12
    ensures FiveDistinctInBox(Shapes[k])
    ensures AdjacentPairs(Shapes[k]) == if k == P_INDEX then 5 else 4
  {
    if k == 0 { assert Shapes[k] == SHAPE_F; ShapeFFacts(); }
    else if k == 1 { assert Shapes[k] == SHAPE_I; ShapeIFacts(); }
    else if k == 2 { assert Shapes[k] == SHAPE_L; ShapeLFacts(); }
    else if k == 3 { assert Shapes[k] == SHAPE_N; ShapeNFacts(); }
    else if k == 4 { assert Shapes[k] == SHAPE_P; ShapePFacts(); }
    else if k == 5 { assert Shapes[k] == SHAPE_T; ShapeTFacts(); }
    else if k == 6 { assert Shapes[k] == SHAPE_U; ShapeUFacts(); }
    else if k == 7 { assert Shapes[k] == SHAPE_V; ShapeVFacts(); }
    else if k == 8 { assert Shapes[k] == SHAPE_W; ShapeWFacts(); }
    else if k == 9 { assert Shapes[k] == SHAPE_X; ShapeXFacts(); }
    else if k == 10 { assert Shapes[k] == SHAPE_Y; ShapeYFacts(); }
    else { assert Shapes[k] == SHAPE_Z; ShapeZFacts(); }
  }

  /** The twelve outlines: 15 strokes for P, 16 for every other pentomino. */
  lemma OutlineSides(k: nat)
    requires k < 12
    ensures |EdgesOf(Shapes[k])| == if k == P_INDEX then 15 else 16
  {
    ShapeWellFormed(k);
    EdgeCount(Shapes[k]);
  }

  /** The whole script for one table entry (`random.choice` becomes the index
      `choice`): filled squares, then the stroked sides, then the corner caps.
      On a canvas that holds the 3-by-5 box every square is inside it; the
      outline has 15 strokes for P and 16 for every other pentomino; there
      are at most 20 caps and both ends of every stroke carry one. */
  method DrawPentomino(choice: nat, width: int, height: int, s: int)
    returns (squares: seq<Square>, segments: seq<Segment>, corners: set<Point>)
    requires choice < 12
    ensures |squares| == 5
    ensures 0 <= s && 3 * s <= width && 5 * s <= height ==>
      forall i :: 0 <= i < 5 ==> InsideCanvas(squares[i], width, height)
    ensures |segments| == if choice == P_INDEX then 15 else 16
    ensures forall i, j :: 0 <= i < j < |segments| ==> segments[i].key != segments[j].key
    ensures |corners| <= 20
    ensures forall i :: 0 <= i < |segments| ==> segments[i].from in corners && segments[i].to in corners
  {
    var shape := Shapes[choice];
    ShapeWellFormed(choice);
    squares := PlaceSquares(shape, width, height, s);
    var ox, oy := CentreOffset(width, s, 3), CentreOffset(height, s, 5);
    var drawn;
    drawn, corners, segments := DrawOutline(shape, ox, oy, s);
    OutlineSides(choice);
    CornerCount(shape, ox, oy, s);
  }
}
