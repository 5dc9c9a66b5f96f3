/** The abstract crowd: figures are placed by rejection sampling inside a
    border, in one of three arrangements, and then drawn back to front.
    The model covers the palette lookup, the three placement loops with
    their attempt and capacity caps and border checks, and the sort into
    painter's order. The noise field, the trigonometry of the spiral and
    the figure drawing are not modelled: the noise test arrives as an
    accept/reject draw and the spiral point as a drawn position. */
module Crowd {
  import opened Wrappers
  import opened HexCodec

  function Min(a: int, b: int): int { if a <= b then a else b }

  // ---------------------------------------------------------------------
  // Palettes

  const PaletteNames: set<string> := {"vibrant", "pastel", "earthy", "oceanic"}

  /** `get_palette`: a named palette, or a lone black for any other name. */
  function GetPalette(name: string): (p: seq<string>)
    ensures |p| >= 1
    ensures p == ["#000000"] <==> name !in PaletteNames
    ensures name in PaletteNames ==> 5 <= |p| <= 6
  {
    if name == "vibrant" then ["#FF5733", "#33FF57", "#3357FF", "#F033FF", "#FF33A8", "#33FFF5"]
    else if name == "pastel" then ["#FFB3BA", "#FFDFBA", "#FFFFBA", "#BAFFC9", "#BAE1FF"]
    else if name == "earthy" then ["#8D6E63", "#D7CCC8", "#5D4037", "#795548", "#A1887F"]
    else if name == "oceanic" then ["#0288D1", "#B3E5FC", "#03A9F4", "#0277BD", "#E1F5FE"]
    else ["#000000"]
  }

  // ---------------------------------------------------------------------
  // The scene and its figures

  /** A placed figure, in the tuple order the script sorts on: (y, x, scale, colour). */
  datatype Person = Person(y: real, x: real, scale: real, colour: string)

  /** The fixed parameters every arrangement reads. */
  datatype Scene = Scene(width: int, height: int, border: int, minScale: real, maxScale: real, colors: seq<string>)

  /** A border that leaves room to place figures, and colours to choose from. */
  predicate ValidScene(s: Scene) {
    0 <= s.border && 2 * s.border < s.width && 2 * s.border < s.height && |s.colors| >= 1
  }

  function MinX(s: Scene): int { s.border }
  function MaxX(s: Scene): int { s.width - s.border }
  function MinY(s: Scene): int { s.border }
  function MaxY(s: Scene): int { s.height - s.border }

  /** `min_x < x < max_x and min_y < y < max_y`. */
  predicate StrictlyInside(x: real, y: real, s: Scene) {
    MinX(s) as real < x < MaxX(s) as real && MinY(s) as real < y < MaxY(s) as real
  }

  /** Linear interpolation between the scale bounds by a fraction t. */
  function Lerp(lo: real, hi: real, t: real): (v: real)
    ensures 0.0 <= t <= 1.0 && lo <= hi ==> lo <= v <= hi
  {
    var d := hi - lo;
    assert 0.0 <= t <= 1.0 && 0.0 <= d ==> 0.0 <= t * d <= d by {
      if 0.0 <= t <= 1.0 && 0.0 <= d { ScaleBelow(t, d); }
    }
    lo + t * d
  }

  /** Proof helper: a fraction of a non-negative amount lies between 0 and it. */
  lemma ScaleBelow(t: real, d: real)
    requires 0.0 <= t <= 1.0 && 0.0 <= d
    ensures 0.0 <= t * d <= d
  {
    assert t * d <= 1.0 * d;
  }

  /** a / b lies in [0, 1] when 0 <= a <= b. */
  lemma FractionBounds(a: real, b: real)
    requires b > 0.0
    ensures 0.0 <= a <= b ==> 0.0 <= a / b <= 1.0
  {
    assert a / b * b == a;
  }

  // ---------------------------------------------------------------------
  // Accepted candidates

  /** The figures among a run of candidates, in order. */
  function Somes(cands: seq<Option<Person>>): (people: seq<Person>)
    ensures |people| <= |cands|
  {
    if cands == [] then []
    else
      var last := cands[|cands| - 1];
      Somes(cands[..|cands| - 1]) + (if last.Some? then [last.value] else [])
  }

  lemma {:induction false} SomesAppend(a: seq<Option<Person>>, b: seq<Option<Person>>)
    ensures Somes(a + b) == Somes(a) + Somes(b)
  {
    if b != [] {
      var b' := b[..|b| - 1];
      assert (a + b)[..|a + b| - 1] == a + b';
      SomesAppend(a, b');
    } else {
      assert a + b == a;
    }
  }

  /** Visiting one more candidate of a run adds its figure, if any. */
  lemma SomesStep(done: seq<Option<Person>>, run: seq<Option<Person>>, c: nat)
    requires c < |run|
    ensures Somes(done + run[..c + 1]) == Somes(done + run[..c]) + (if run[c].Some? then [run[c].value] else [])
  {
    assert done + run[..c + 1] == (done + run[..c]) + [run[c]];
    SomesAppend(done + run[..c], [run[c]]);
  }

  /** A figure in `Somes` came from some candidate. */
  lemma {:induction false} SomesFrom(cands: seq<Option<Person>>, p: Person)
    requires p in Somes(cands)
    ensures exists i :: 0 <= i < |cands| && cands[i] == Some(p)
  {
    var init := cands[..|cands| - 1];
    if p in Somes(init) {
      SomesFrom(init, p);
      var i :| 0 <= i < |init| && init[i] == Some(p);
      assert cands[i] == Some(p);
    } else {
      assert cands[|cands| - 1] == Some(p);
    }
  }

  /** Reading more candidates only extends the accepted figures. */
  lemma SomesPrefix(p: seq<Option<Person>>, s: seq<Option<Person>>)
    requires p <= s
    ensures Somes(p) <= Somes(s)
  {
    assert s == p + s[|p|..];
    SomesAppend(p, s[|p|..]);
  }

  /** The first n accepted figures, or all of them if there are fewer. */
  function FirstAccepted(cands: seq<Option<Person>>, n: nat): (people: seq<Person>)
    ensures |people| == Min(n, |Somes(cands)|) && people <= Somes(cands)
    ensures |Somes(cands)| <= n ==> people == Somes(cands)
  {
    var all := Somes(cands);
    all[..Min(n, |all|)]
  }

  /** A loop that reads candidates one at a time and stops once it holds n
      figures or has read them all ends with `FirstAccepted`. */
  lemma StopsAtFirstAccepted(cands: seq<Option<Person>>, p: seq<Option<Person>>, n: nat)
    requires p <= cands && |Somes(p)| <= n
    requires |Somes(p)| == n || p == cands
    ensures Somes(p) == FirstAccepted(cands, n)
  {
    SomesPrefix(p, cands);
  }

  // ---------------------------------------------------------------------
  // Random arrangement

  /** One attempt's draws: `randint` coordinates, whether the noise test
      passed, the `uniform(0.9, 1.1)` factor and the `choice` index. */
  datatype RandomDraw = RandomDraw(x: int, y: int, accept: bool, factor: real, colour: nat)

  predicate ValidRandomDraw(d: RandomDraw, s: Scene) {
    && MinX(s) <= d.x <= MaxX(s) && MinY(s) <= d.y <= MaxY(s)
    && 0.9 <= d.factor <= 1.1 && d.colour < |s.colors|
  }

  /** `min_scale + normalized_y * (max_scale - min_scale)` with y normalised
      over the border box; it lies between the scale bounds. */
  function RandomScale(y: int, s: Scene): (k: real)
    requires ValidScene(s)
    ensures MinY(s) <= y <= MaxY(s) && s.minScale <= s.maxScale ==> s.minScale <= k <= s.maxScale
  {
    var t := (y - MinY(s)) as real / (MaxY(s) - MinY(s)) as real;
    FractionBounds((y - MinY(s)) as real, (MaxY(s) - MinY(s)) as real);
    Lerp(s.minScale, s.maxScale, t)
  }

  function RandomCandidate(d: RandomDraw, s: Scene): (c: Option<Person>)
    requires ValidScene(s) && ValidRandomDraw(d, s)
    ensures c.Some? <==> d.accept
    ensures c.Some? ==> c.value.x == d.x as real && c.value.y == d.y as real && c.value.colour in s.colors
  {
    if d.accept then Some(Person(d.y as real, d.x as real, RandomScale(d.y, s) * d.factor, s.colors[d.colour]))
    else None
  }

  /** The outcome of every attempt, in order. */
  function RandomCandidates(draws: seq<RandomDraw>, s: Scene): seq<Option<Person>>
    requires ValidScene(s) && forall i :: 0 <= i < |draws| ==> ValidRandomDraw(draws[i], s)
  {
    seq(|draws|, i requires 0 <= i < |draws| => RandomCandidate(draws[i], s))
  }

  /** Every figure the random arrangement places sits on integer
      coordinates inside the border box (inclusive, as `randint` is). */
  predicate RandomPlaced(p: Person, s: Scene) {
    && p.x == p.x.Floor as real && p.y == p.y.Floor as real
    && MinX(s) as real <= p.x <= MaxX(s) as real && MinY(s) as real <= p.y <= MaxY(s) as real
    && p.colour in s.colors
  }

  /** The random arrangement loop: at most `num_people * 5` attempts, and it
      stops as soon as `num_people` figures are placed. */
  method RandomArrangement(numPeople: nat, s: Scene, draws: seq<RandomDraw>) returns (people: seq<Person>, attempts: nat)
    requires ValidScene(s) && |draws| >= numPeople * 5
    requires forall i :: 0 <= i < |draws| ==> ValidRandomDraw(draws[i], s)
    ensures attempts <= numPeople * 5 && |people| <= numPeople
    ensures |people| == numPeople || attempts == numPeople * 5
    ensures people == FirstAccepted(RandomCandidates(draws[..numPeople * 5], s), numPeople)
    ensures forall p :: p in people ==> RandomPlaced(p, s)
  {
    var maxAttempts := numPeople * 5;
    ghost var cands := RandomCandidates(draws[..maxAttempts], s);
    people := [];
    attempts := 0;
    while |people| < numPeople && attempts < maxAttempts
      invariant attempts <= maxAttempts && |people| <= numPeople
      invariant people == Somes(cands[..attempts])
    {
      var d := draws[attempts];
      attempts := attempts + 1;
      assert cands[..attempts] == cands[..attempts - 1] + [cands[attempts - 1]];
      SomesAppend(cands[..attempts - 1], [cands[attempts - 1]]);
      var c := RandomCandidate(d, s);
      if c.Some? {
        people := people + [c.value];
      }
    }
    StopsAtFirstAccepted(cands, cands[..attempts], numPeople);
    forall p | p in people ensures RandomPlaced(p, s) {
      FirstAcceptedFrom(cands, numPeople, p);
    }
  }

  // ---------------------------------------------------------------------
  // Candidates checked against the border (grid and spiral)

  /** `min_scale + (y / height) * (max_scale - min_scale)`. */
  function HeightScale(y: real, s: Scene): (k: real)
    requires s.height > 0
    ensures 0.0 <= y <= s.height as real && s.minScale <= s.maxScale ==> s.minScale <= k <= s.maxScale
  {
    FractionBounds(y, s.height as real);
    Lerp(s.minScale, s.maxScale, y / s.height as real)
  }

  /** A figure at (x, y) is kept when the density test passed and the
      point is strictly inside the border box. */
  function InsideCandidate(x: real, y: real, accept: bool, colour: nat, s: Scene): (c: Option<Person>)
    requires ValidScene(s) && colour < |s.colors|
    ensures c.Some? <==> accept && StrictlyInside(x, y, s)
    ensures c.Some? ==> c.value.x == x && c.value.y == y && c.value.colour in s.colors
    ensures c.Some? && s.minScale <= s.maxScale ==> s.minScale <= c.value.scale <= s.maxScale
  {
    if accept && StrictlyInside(x, y, s) then Some(Person(y, x, HeightScale(y, s), s.colors[colour])) else None
  }

  predicate InsidePlaced(p: Person, s: Scene) {
    StrictlyInside(p.x, p.y, s) && p.colour in s.colors &&
    (s.minScale <= s.maxScale ==> s.minScale <= p.scale <= s.maxScale)
  }

  lemma InsideFirstAccepted(cands: seq<Option<Person>>, n: nat, s: Scene)
    requires forall i :: 0 <= i < |cands| && cands[i].Some? ==> InsidePlaced(cands[i].value, s)
    ensures forall p :: p in FirstAccepted(cands, n) ==> InsidePlaced(p, s)
  {
    forall p | p in FirstAccepted(cands, n) ensures InsidePlaced(p, s) {
      FirstAcceptedFrom(cands, n, p);
    }
  }

  /** Every figure placed is one of the candidates. */
  lemma FirstAcceptedFrom(cands: seq<Option<Person>>, n: nat, p: Person)
    requires p in FirstAccepted(cands, n)
    ensures exists i :: 0 <= i < |cands| && cands[i] == Some(p)
  {
    var k :| 0 <= k < |FirstAccepted(cands, n)| && FirstAccepted(cands, n)[k] == p;
    assert Somes(cands)[k] == p;
    SomesFrom(cands, p);
  }

  // ---------------------------------------------------------------------
  // Grid arrangement

  /** `int(num_people * 1.5 / rows) + 1`: enough columns that the grid has
      more cells than 1.5 times the number of figures. */
  function GridCols(numPeople: nat, rows: int): (cols: int)
    requires rows >= 1
    ensures cols >= 1
    ensures cols as real * rows as real > numPeople as real * 1.5
  {
    var q := numPeople as real * 1.5 / rows as real;
    assert q * rows as real == numPeople as real * 1.5;
    var t := Trunc(q);
    assert q < (t + 1) as real;
    assert q * rows as real < (t + 1) as real * rows as real;
    t + 1
  }

  /** One cell's draws: the two `uniform(-jitter, jitter)` offsets, whether
      the density test passed, and the `choice` index. */
  datatype GridDraw = GridDraw(jx: real, jy: real, accept: bool, colour: nat)

  predicate ValidGridDraw(d: GridDraw, jitter: real, s: Scene) {
    -jitter <= d.jx <= jitter && -jitter <= d.jy <= jitter && d.colour < |s.colors|
  }

  /** The candidate of cell (r, c): the point ((c + 1) * x_step, (r + 1) * y_step)
      moved by the jitter draws. */
  function GridCandidate(r: nat, c: nat, cols: int, rows: int, d: GridDraw, s: Scene): (cand: Option<Person>)
    requires ValidScene(s) && d.colour < |s.colors| && cols >= 1 && rows >= 1
    ensures cand.Some? ==> InsidePlaced(cand.value, s)
  {
    var xStep := s.width as real / (cols + 1) as real;
    var yStep := s.height as real / (rows + 1) as real;
    InsideCandidate((c + 1) as real * xStep + d.jx, (r + 1) as real * yStep + d.jy, d.accept, d.colour, s)
  }

  predicate GridDraws(draws: seq<seq<GridDraw>>, rows: int, cols: int, jitter: real, s: Scene) {
    && |draws| >= rows
    && (forall r :: 0 <= r < |draws| ==> |draws[r]| >= cols)
    && (forall r, c :: 0 <= r < |draws| && 0 <= c < |draws[r]| ==> ValidGridDraw(draws[r][c], jitter, s))
  }

  /** The candidates of row r, left to right. */
  function RowCandidates(r: nat, cols: int, rows: int, drawRow: seq<GridDraw>, s: Scene): seq<Option<Person>>
    requires ValidScene(s) && cols >= 1 && rows >= 1 && |drawRow| >= cols
    requires forall c :: 0 <= c < |drawRow| ==> drawRow[c].colour < |s.colors|
  {
    seq(cols, c requires 0 <= c < cols => GridCandidate(r, c, cols, rows, drawRow[c], s))
  }

  /** The candidates of the first k rows in the order the nested loops visit them. */
  function GridCandidates(k: nat, cols: int, rows: int, draws: seq<seq<GridDraw>>, jitter: real, s: Scene): (cands: seq<Option<Person>>)
    requires ValidScene(s) && cols >= 1 && rows >= 1 && k <= |draws| && GridDraws(draws, rows, cols, jitter, s)
    ensures forall i :: 0 <= i < |cands| && cands[i].Some? ==> InsidePlaced(cands[i].value, s)
  {
    if k == 0 then []
    else GridCandidates(k - 1, cols, rows, draws, jitter, s) + RowCandidates(k - 1, cols, rows, draws[k - 1], s)
  }

  lemma {:induction false} GridCandidatesPrefix(k: nat, m: nat, cols: int, rows: int, draws: seq<seq<GridDraw>>, jitter: real, s: Scene)
    requires ValidScene(s) && cols >= 1 && rows >= 1 && k <= m <= |draws| && GridDraws(draws, rows, cols, jitter, s)
    ensures GridCandidates(k, cols, rows, draws, jitter, s) <= GridCandidates(m, cols, rows, draws, jitter, s)
  {
    if k < m {
      GridCandidatesPrefix(k, m - 1, cols, rows, draws, jitter, s);
    }
  }

  /** The cells visited up to cell c of row r come first in the visiting
      order of the whole grid. */
  lemma GridVisited(r: nat, c: int, cols: int, rows: int, draws: seq<seq<GridDraw>>, jitter: real, s: Scene)
    requires ValidScene(s) && cols >= 1 && rows >= 1 && r < rows <= |draws| && GridDraws(draws, rows, cols, jitter, s)
    requires 0 <= c <= cols
    ensures GridCandidates(r, cols, rows, draws, jitter, s) + RowCandidates(r, cols, rows, draws[r], s)[..c]
            <= GridCandidates(rows, cols, rows, draws, jitter, s)
    ensures c == cols ==>
      GridCandidates(r, cols, rows, draws, jitter, s) + RowCandidates(r, cols, rows, draws[r], s)[..c]
      == GridCandidates(r + 1, cols, rows, draws, jitter, s)
  {
    var done, row := GridCandidates(r, cols, rows, draws, jitter, s), RowCandidates(r, cols, rows, draws[r], s);
    assert GridCandidates(r + 1, cols, rows, draws, jitter, s) == done + row;
    GridCandidatesPrefix(r + 1, rows, cols, rows, draws, jitter, s);
    assert done + row[..c] <= done + row;
    if c == cols {
      assert row[..c] == row;
    }
  }

  /** The grid arrangement: `rows` rows (the script takes
      `int(sqrt(num_people * 1.5))`) of `GridCols` cells, visited row by row;
      both loops break once `num_people` figures are placed. Only points
      strictly inside the border are kept. */
  method GridArrangement(numPeople: nat, rows: int, jitter: real, s: Scene, draws: seq<seq<GridDraw>>)
    returns (people: seq<Person>)
    requires ValidScene(s) && numPeople >= 1 && rows >= 1
    requires GridDraws(draws, rows, GridCols(numPeople, rows), jitter, s)
    ensures |people| <= numPeople
    ensures people == FirstAccepted(GridCandidates(rows, GridCols(numPeople, rows), rows, draws, jitter, s), numPeople)
    ensures forall p :: p in people ==> InsidePlaced(p, s)
  {
    var cols := GridCols(numPeople, rows);
    people := GridRows(numPeople, rows, cols, jitter, s, draws);
    InsideFirstAccepted(GridCandidates(rows, cols, rows, draws, jitter, s), numPeople, s);
  }

  /** The outer grid loop over the rows, breaking once `num_people` figures
      are placed. */
  method GridRows(numPeople: nat, rows: int, cols: int, jitter: real, s: Scene, draws: seq<seq<GridDraw>>)
    returns (people: seq<Person>)
    requires ValidScene(s) && numPeople >= 1 && rows >= 1 && cols >= 1
    requires GridDraws(draws, rows, cols, jitter, s)
    ensures |people| <= numPeople
    ensures people == FirstAccepted(GridCandidates(rows, cols, rows, draws, jitter, s), numPeople)
  {
    ghost var all := GridCandidates(rows, cols, rows, draws, jitter, s);
    people := [];
    var r := 0;
    while r < rows
      invariant 0 <= r <= rows && |people| < numPeople
      invariant people == Somes(GridCandidates(r, cols, rows, draws, jitter, s))
    {
      var c;
      people, c := GridRow(numPeople, r, cols, rows, draws[r], s, people, GridCandidates(r, cols, rows, draws, jitter, s));
      GridRowOutcome(numPeople, r, c, cols, rows, draws, jitter, s, people);
      if |people| >= numPeople {
        return;
      }
      r := r + 1;
    }
    StopsAtFirstAccepted(all, all, numPeople);
  }

  /** After the inner loop of row `r`: either `num_people` figures are
      placed and they are the first ones accepted over the whole grid, or
      the row was finished and the figures are those of rows 0 to `r`. */
  lemma GridRowOutcome(numPeople: nat, r: nat, c: int, cols: int, rows: int, draws: seq<seq<GridDraw>>, jitter: real, s: Scene,
                       people: seq<Person>)
    requires ValidScene(s) && cols >= 1 && rows >= 1 && r < rows && GridDraws(draws, rows, cols, jitter, s)
    requires 0 <= c <= cols && |people| <= numPeople && (c < cols ==> |people| == numPeople)
    requires people == Somes(GridCandidates(r, cols, rows, draws, jitter, s) + RowCandidates(r, cols, rows, draws[r], s)[..c])
    ensures |people| >= numPeople ==> people == FirstAccepted(GridCandidates(rows, cols, rows, draws, jitter, s), numPeople)
    ensures |people| < numPeople ==> people == Somes(GridCandidates(r + 1, cols, rows, draws, jitter, s))
  {
    GridVisited(r, c, cols, rows, draws, jitter, s);
    var visited := GridCandidates(r, cols, rows, draws, jitter, s) + RowCandidates(r, cols, rows, draws[r], s)[..c];
    if |people| >= numPeople {
      StopsAtFirstAccepted(GridCandidates(rows, cols, rows, draws, jitter, s), visited, numPeople);
    }
  }

  /** The inner grid loop over the cells of row r: it returns the figures
      so far and how many cells it visited, breaking after the cell that
      brings the count to `num_people`. */
  method GridRow(numPeople: nat, r: nat, cols: int, rows: int, drawRow: seq<GridDraw>, s: Scene,
                 people0: seq<Person>, ghost done: seq<Option<Person>>)
    returns (people: seq<Person>, c: int)
    requires ValidScene(s) && cols >= 1 && rows >= 1 && |drawRow| >= cols
    requires forall c :: 0 <= c < |drawRow| ==> drawRow[c].colour < |s.colors|
    requires people0 == Somes(done) && |people0| < numPeople
    ensures 0 <= c <= cols && |people| <= numPeople
    ensures people == Somes(done + RowCandidates(r, cols, rows, drawRow, s)[..c])
    ensures c < cols ==> |people| == numPeople
  {
    ghost var row := RowCandidates(r, cols, rows, drawRow, s);
    people := people0;
    c := 0;
    assert done + row[..0] == done;
    while c < cols
      invariant 0 <= c <= cols && |people| < numPeople
      invariant people == Somes(done + row[..c])
    {
      var cand := GridCandidate(r, c, cols, rows, drawRow[c], s);
      if cand.Some? {
        people := people + [cand.value];
      }
      SomesStep(done, row, c);
      c := c + 1;
      if |people| >= numPeople {
        return;
      }
    }
  }

  // ---------------------------------------------------------------------
  // Spiral arrangement

  /** One spiral attempt: the point the jittered angle and distance give
      (the trigonometry is not modelled), whether the density test passed,
      and the `choice` index. */
  datatype SpiralDraw = SpiralDraw(x: real, y: real, accept: bool, colour: nat)

  /** The outcome of every attempt, in order. */
  function SpiralCandidates(draws: seq<SpiralDraw>, s: Scene): seq<Option<Person>>
    requires ValidScene(s) && forall i :: 0 <= i < |draws| ==> draws[i].colour < |s.colors|
  {
    seq(|draws|, i requires 0 <= i < |draws| => InsideCandidate(draws[i].x, draws[i].y, draws[i].accept, draws[i].colour, s))
  }

  /** The spiral arrangement loop: at most `num_people * 5` attempts, stopping
      once `num_people` figures are placed, keeping only points strictly
      inside the border. */
  method SpiralArrangement(numPeople: nat, s: Scene, draws: seq<SpiralDraw>) returns (people: seq<Person>, attempts: nat)
    requires ValidScene(s) && |draws| >= numPeople * 5
    requires forall i :: 0 <= i < |draws| ==> draws[i].colour < |s.colors|
    ensures attempts <= numPeople * 5 && |people| <= numPeople
    ensures |people| == numPeople || attempts == numPeople * 5
    ensures people == FirstAccepted(SpiralCandidates(draws[..numPeople * 5], s), numPeople)
    ensures forall p :: p in people ==> InsidePlaced(p, s)
  {
    var maxAttempts := numPeople * 5;
    ghost var cands := SpiralCandidates(draws[..maxAttempts], s);
    people := [];
    attempts := 0;
    while |people| < numPeople && attempts < maxAttempts
      invariant attempts <= maxAttempts && |people| <= numPeople
      invariant people == Somes(cands[..attempts])
    {
      var d := draws[attempts];
      attempts := attempts + 1;
      assert cands[..attempts] == cands[..attempts - 1] + [cands[attempts - 1]];
      SomesAppend(cands[..attempts - 1], [cands[attempts - 1]]);
      var c := InsideCandidate(d.x, d.y, d.accept, d.colour, s);
      if c.Some? {
        people := people + [c.value];
      }
    }
    StopsAtFirstAccepted(cands, cands[..attempts], numPeople);
    InsideFirstAccepted(cands, numPeople, s);
  }

  // ---------------------------------------------------------------------
  // Painter's order

  predicate SortedByY(ps: seq<Person>) {
    forall i, j :: 0 <= i < j < |ps| ==> ps[i].y <= ps[j].y
  }

  /** `people.sort(key=lambda p: p[0])`: in place, into non-decreasing y, so
      figures lower on the canvas (nearer) are drawn later. */
  method SortByY(a: array<Person>)
    modifies a
    ensures SortedByY(a[..])
    ensures multiset(a[..]) == multiset(old(a[..]))
  {
    for i := 0 to a.Length
      invariant SortedByY(a[..i])
      invariant multiset(a[..]) == multiset(old(a[..]))
    {
      InsertDown(a, i);
    }
    assert a[..a.Length] == a[..];
  }

  /** One insertion step: a[i] sinks into the sorted prefix a[..i]; the
      prefix a[..i + 1] is rearranged and the rest is left alone. */
  method InsertDown(a: array<Person>, i: int)
    requires 0 <= i < a.Length && SortedByY(a[..i])
    modifies a
    ensures SortedByY(a[..i + 1])
    ensures multiset(a[..i + 1]) == multiset(old(a[..i + 1]))
    ensures a[i + 1..] == old(a[i + 1..])
    ensures multiset(a[..]) == multiset(old(a[..]))
  {
    ghost var start := a[..];
    ghost var cur := start;
    var j := i;
    SinkStart(start, i);
    while j > 0 && a[j - 1].y > a[j].y
      invariant a[..] == cur && Inserting(cur, start, j, i)
    {
      Swap(a, j - 1, j);
      InsertStep(cur, a[..], start, j, i);
      cur := a[..];
      j := j - 1;
    }
    InsertDone(cur, start, j, i);
  }

  /** While a[i] sinks to position j: the prefix up to i without position
      j is sorted, and the sinking element is no larger than what follows
      it. */
  predicate Sinking(s: seq<Person>, j: int, i: int) {
    && 0 <= j <= i < |s|
    && (forall k, l :: 0 <= k < l <= i && k != j && l != j ==> s[k].y <= s[l].y)
    && (forall l :: j < l <= i ==> s[j].y <= s[l].y)
  }

  /** The state of the insertion step against the arrangement `o` it
      started from: a[i] sinks at position j, the elements are the same,
      and nothing after position i has moved. */
  predicate Inserting(s: seq<Person>, o: seq<Person>, j: int, i: int) {
    Sinking(s, j, i) && |s| == |o| && multiset(s) == multiset(o) && s[i + 1..] == o[i + 1..]
  }

  lemma SinkStart(s: seq<Person>, i: int)
    requires 0 <= i < |s| && SortedByY(s[..i])
    ensures Inserting(s, s, i, i)
  {
    assert forall k :: 0 <= k < i ==> s[k] == s[..i][k];
  }

  lemma InsertStep(s: seq<Person>, t: seq<Person>, o: seq<Person>, j: int, i: int)
    requires 0 < j && Inserting(s, o, j, i) && s[j - 1].y > s[j].y
    requires t == s[j - 1 := s[j]][j := s[j - 1]] && multiset(t) == multiset(s)
    ensures Inserting(t, o, j - 1, i)
  {
    assert t[i + 1..] == s[i + 1..];
  }

  lemma InsertDone(s: seq<Person>, o: seq<Person>, j: int, i: int)
    requires Inserting(s, o, j, i) && (j == 0 || s[j - 1].y <= s[j].y)
    ensures SortedByY(s[..i + 1])
    ensures s[i + 1..] == o[i + 1..] && multiset(s[..i + 1]) == multiset(o[..i + 1])
  {
    SameSuffix(s, o, i + 1);
  }

  /** Two arrangements of the same elements that agree from n on hold the
      same elements before n. */
  lemma SameSuffix(s: seq<Person>, t: seq<Person>, n: int)
    requires 0 <= n <= |s| == |t| && multiset(s) == multiset(t) && s[n..] == t[n..]
    ensures multiset(s[..n]) == multiset(t[..n])
  {
    assert s == s[..n] + s[n..] && t == t[..n] + t[n..];
    assert multiset(s) == multiset(s[..n]) + multiset(s[n..]);
    assert multiset(t) == multiset(t[..n]) + multiset(t[n..]);
    forall x ensures multiset(s[..n])[x] == multiset(t[..n])[x] {
      assert multiset(s)[x] == multiset(s[..n])[x] + multiset(s[n..])[x];
      assert multiset(t)[x] == multiset(t[..n])[x] + multiset(t[n..])[x];
    }
  }

  method Swap(a: array<Person>, i: int, j: int)
    requires 0 <= i < j < a.Length
    modifies a
    ensures a[..] == old(a[..])[i := old(a[j])][j := old(a[i])]
    ensures multiset(a[..]) == multiset(old(a[..]))
  {
    a[i], a[j] := a[j], a[i];
  }
}
