/** The network picture: a random graph is laid out, its positions are
    rescaled onto the canvas inside a margin, and edges and glowing nodes
    are drawn in palette colours. The graph generators and layouts are
    library calls and are not modelled; the model covers the parameters
    derived for them, the choice of generator and layout, the rescale, the
    colour parsing and the glow schedule. */
module NetworkArt {
  import opened Wrappers
  import opened HexCodec

  function Max(a: int, b: int): int { if a >= b then a else b }

  // ---------------------------------------------------------------------
  // Generator parameters

  /** `max(2, num_nodes // 20)`: the attachment count of the scale-free
      generator, which needs 1 <= m < n. */
  function BarabasiM(n: int): (m: int)
    ensures m >= 2 && m >= n / 20
    ensures n >= 3 ==> m < n
    ensures n >= 40 ==> m == n / 20
  {
    Max(2, n / 20)
  }

  /** `max(4, num_nodes // 10)`: the ring degree of the small-world generator. */
  function WattsK(n: int): (k: int)
    ensures k >= 4 && k >= n / 10
    ensures n >= 5 ==> k < n
    ensures n >= 40 ==> k == n / 10
  {
    Max(4, n / 10)
  }

  /** `max(2, num_nodes // 30)`: the attachment count of the power-law generator. */
  function PowerlawM(n: int): (m: int)
    ensures m >= 2 && m >= n / 30
    ensures n >= 3 ==> m < n
    ensures n >= 60 ==> m == n / 30
  {
    Max(2, n / 30)
  }

  /** The generator the script calls, with the arguments it derives; `p`
      and `radius` are the `random.uniform` draws of each branch. */
  datatype Generator =
    | BarabasiAlbert(m: int)
    | WattsStrogatz(k: int, p: real)
    | RandomGeometric(radius: real)
    | ErdosRenyi(p: real)
    | PowerlawCluster(m: int, p: real)

  const NetworkTypes: set<string> := {"barabasi_albert", "watts_strogatz", "random_geometric", "erdos_renyi"}

  /** Any name other than the four tested falls to the power-law branch. */
  function ChooseGenerator(networkType: string, n: int, draw: real): (g: Generator)
    ensures g.PowerlawCluster? <==> networkType !in NetworkTypes
    ensures g.BarabasiAlbert? || g.PowerlawCluster? ==> 2 <= g.m && (n >= 3 ==> g.m < n)
    ensures g.WattsStrogatz? ==> 4 <= g.k && (n >= 5 ==> g.k < n)
  {
    if networkType == "barabasi_albert" then BarabasiAlbert(BarabasiM(n))
    else if networkType == "watts_strogatz" then WattsStrogatz(WattsK(n), draw)
    else if networkType == "random_geometric" then RandomGeometric(draw)
    else if networkType == "erdos_renyi" then ErdosRenyi(draw)
    else PowerlawCluster(PowerlawM(n), draw)
  }

  /** Where node positions come from. */
  datatype Layout = Spring | Circular | Shell | RandomLayout | BuiltInPositions

  const LayoutTypes: set<string> := {"spring", "circular", "shell"}

  /** The layout named, random for any other name, and the geometric
      graph's own positions whenever that generator was used. */
  function ChooseLayout(networkType: string, layoutType: string): (l: Layout)
    ensures l == BuiltInPositions <==> networkType == "random_geometric"
    ensures l == RandomLayout <==> networkType != "random_geometric" && layoutType !in LayoutTypes
  {
    if networkType == "random_geometric" then BuiltInPositions
    else if layoutType == "spring" then Spring
    else if layoutType == "circular" then Circular
    else if layoutType == "shell" then Shell
    else RandomLayout
  }

  // ---------------------------------------------------------------------
  // Rescaling onto the canvas

  /** One item of the position dictionary. */
  datatype Entry = Entry(node: int, x: real, y: real)

  /** Dictionary items have distinct keys. */
  predicate DistinctNodes(pos: seq<Entry>) {
    forall i, j :: 0 <= i < j < |pos| ==> pos[i].node != pos[j].node
  }

  function Xs(pos: seq<Entry>): (xs: seq<real>)
    ensures |xs| == |pos| && forall i :: 0 <= i < |pos| ==> xs[i] == pos[i].x
  {
    seq(|pos|, i requires 0 <= i < |pos| => pos[i].x)
  }

  function Ys(pos: seq<Entry>): (ys: seq<real>)
    ensures |ys| == |pos| && forall i :: 0 <= i < |pos| ==> ys[i] == pos[i].y
  {
    seq(|pos|, i requires 0 <= i < |pos| => pos[i].y)
  }

  /** Python's `min` over a non-empty sequence. */
  function MinOf(s: seq<real>): (m: real)
    requires |s| > 0
    ensures m in s && forall i :: 0 <= i < |s| ==> m <= s[i]
  {
    if |s| == 1 then s[0]
    else
      var rest := MinOf(s[1..]);
      if s[0] <= rest then s[0] else rest
  }

  /** Python's `max` over a non-empty sequence. */
  function MaxOf(s: seq<real>): (m: real)
    requires |s| > 0
    ensures m in s && forall i :: 0 <= i < |s| ==> s[i] <= m
  {
    if |s| == 1 then s[0]
    else
      var rest := MaxOf(s[1..]);
      if s[0] >= rest then s[0] else rest
  }

  /** `margin + (v - lo) / (hi - lo) * (dim - 2 * margin)`. */
  function Rescale(v: real, lo: real, hi: real, margin: int, dim: int): real
    requires lo < hi
  {
    margin as real + (v - lo) / (hi - lo) * (dim - 2 * margin) as real
  }

  /** The smallest coordinate lands on the margin, the largest on the far margin. */
  lemma RescaleEnds(lo: real, hi: real, margin: int, dim: int)
    requires lo < hi
    ensures Rescale(lo, lo, hi, margin, dim) == margin as real
    ensures Rescale(hi, lo, hi, margin, dim) == (dim - margin) as real
  {
    assert (hi - lo) / (hi - lo) == 1.0;
  }

  /** A part of a positive whole, divided by it, lies in [0, 1]. */
  lemma UnitFraction(a: real, d: real)
    requires 0.0 <= a <= d && d > 0.0
    ensures 0.0 <= a / d <= 1.0
  {
    var t := a / d;
    assert t * d == a;
    assert (1.0 - t) * d == d - a;
    NonNegativeFactor(t, d);
    NonNegativeFactor(1.0 - t, d);
  }

  /** Proof helper: a product with a positive factor keeps the sign of the other. */
  lemma NonNegativeFactor(x: real, d: real)
    requires d > 0.0 && x * d >= 0.0
    ensures x >= 0.0
  {
  }

  /** Proof helper: the product of two non-negative reals is non-negative. */
  lemma NonNegativeProduct(x: real, y: real)
    requires x >= 0.0 && y >= 0.0
    ensures x * y >= 0.0
  {
  }

  /** Every coordinate in [lo, hi] lands in [margin, dim - margin]. */
  lemma RescaleRange(v: real, lo: real, hi: real, margin: int, dim: int)
    requires lo <= v <= hi && lo < hi && 2 * margin <= dim
    ensures margin as real <= Rescale(v, lo, hi, margin, dim) <= (dim - margin) as real
  {
    var t, w := (v - lo) / (hi - lo), (dim - 2 * margin) as real;
    UnitFraction(v - lo, hi - lo);
    NonNegativeProduct(t, w);
    NonNegativeProduct(1.0 - t, w);
    assert w - t * w == (1.0 - t) * w;
  }

  /** The rescale keeps the order of coordinates strictly. */
  lemma RescaleMonotone(v1: real, v2: real, lo: real, hi: real, margin: int, dim: int)
    requires lo < hi && v1 < v2 && 2 * margin < dim
    ensures Rescale(v1, lo, hi, margin, dim) < Rescale(v2, lo, hi, margin, dim)
  {
    var d, w := hi - lo, (dim - 2 * margin) as real;
    var t1, t2 := (v1 - lo) / d, (v2 - lo) / d;
    assert t1 * d == v1 - lo && t2 * d == v2 - lo;
    assert t1 < t2;
    assert t1 * w < t2 * w;
  }

  /** Rescaling again what is already spread over [margin, dim - margin]
      changes nothing. */
  lemma RescaleIdempotent(v: real, lo: real, hi: real, margin: int, dim: int)
    requires lo < hi && 2 * margin < dim
    ensures Rescale(Rescale(v, lo, hi, margin, dim), margin as real, (dim - margin) as real, margin, dim)
            == Rescale(v, lo, hi, margin, dim)
  {
    var w := (dim - 2 * margin) as real;
    var s := Rescale(v, lo, hi, margin, dim);
    assert (dim - margin) as real - margin as real == w;
    assert (s - margin as real) / w * w == s - margin as real;
  }

  /** A canvas position. */
  datatype Pos = Pos(x: real, y: real)

  function NodesOf(pos: seq<Entry>): set<int> {
    set i | 0 <= i < |pos| :: pos[i].node
  }

  /** `min_x`, `max_x`, `min_y`, `max_y` over the position dictionary. */
  datatype Bounds = Bounds(minX: real, maxX: real, minY: real, maxY: real)

  function BoundsOf(pos: seq<Entry>): (b: Bounds)
    requires |pos| > 0
    ensures forall i :: 0 <= i < |pos| ==> b.minX <= pos[i].x <= b.maxX && b.minY <= pos[i].y <= b.maxY
    ensures exists i :: 0 <= i < |pos| && pos[i].x == b.minX
    ensures exists i :: 0 <= i < |pos| && pos[i].x == b.maxX
  {
    Bounds(MinOf(Xs(pos)), MaxOf(Xs(pos)), MinOf(Ys(pos)), MaxOf(Ys(pos)))
  }

  /** Both axes have a non-zero spread, so the rescale divides by non-zero. */
  predicate Spread(b: Bounds) {
    b.minX < b.maxX && b.minY < b.maxY
  }

  /** Some two positions differ in x and some two differ in y. */
  predicate Varied(pos: seq<Entry>) {
    (exists i, j :: 0 <= i < |pos| && 0 <= j < |pos| && pos[i].x < pos[j].x) &&
    (exists i, j :: 0 <= i < |pos| && 0 <= j < |pos| && pos[i].y < pos[j].y)
  }

  /** On one axis: the minimum lies strictly below the maximum exactly when
      some two values differ. */
  lemma AxisSpread(s: seq<real>)
    requires |s| > 0
    ensures MinOf(s) < MaxOf(s) <==> exists i, j :: 0 <= i < |s| && 0 <= j < |s| && s[i] < s[j]
  {
    var lo, hi := MinOf(s), MaxOf(s);
    if lo < hi {
      var i :| 0 <= i < |s| && s[i] == lo;
      var j :| 0 <= j < |s| && s[j] == hi;
      assert s[i] < s[j];
    }
  }

  /** The x bounds are apart exactly when some two positions differ in x. */
  lemma SpreadX(pos: seq<Entry>)
    requires |pos| > 0
    ensures BoundsOf(pos).minX < BoundsOf(pos).maxX <==>
            exists i, j :: 0 <= i < |pos| && 0 <= j < |pos| && pos[i].x < pos[j].x
  {
    var xs := Xs(pos);
    AxisSpread(xs);
    if exists i, j :: 0 <= i < |xs| && 0 <= j < |xs| && xs[i] < xs[j] {
      var i, j :| 0 <= i < |xs| && 0 <= j < |xs| && xs[i] < xs[j];
      assert pos[i].x < pos[j].x;
    }
    if exists i, j :: 0 <= i < |pos| && 0 <= j < |pos| && pos[i].x < pos[j].x {
      var i, j :| 0 <= i < |pos| && 0 <= j < |pos| && pos[i].x < pos[j].x;
      assert xs[i] < xs[j];
    }
  }

  /** The y bounds are apart exactly when some two positions differ in y. */
  lemma SpreadY(pos: seq<Entry>)
    requires |pos| > 0
    ensures BoundsOf(pos).minY < BoundsOf(pos).maxY <==>
            exists i, j :: 0 <= i < |pos| && 0 <= j < |pos| && pos[i].y < pos[j].y
  {
    var ys := Ys(pos);
    AxisSpread(ys);
    if exists i, j :: 0 <= i < |ys| && 0 <= j < |ys| && ys[i] < ys[j] {
      var i, j :| 0 <= i < |ys| && 0 <= j < |ys| && ys[i] < ys[j];
      assert pos[i].y < pos[j].y;
    }
    if exists i, j :: 0 <= i < |pos| && 0 <= j < |pos| && pos[i].y < pos[j].y {
      var i, j :| 0 <= i < |pos| && 0 <= j < |pos| && pos[i].y < pos[j].y;
      assert ys[i] < ys[j];
    }
  }

  /** The bounds are spread on both axes exactly when the positions are
      not all equal in x and not all equal in y. */
  lemma SpreadIffVaried(pos: seq<Entry>)
    requires |pos| > 0
    ensures Spread(BoundsOf(pos)) <==> Varied(pos)
  {
    SpreadX(pos);
    SpreadY(pos);
  }

  /** The rescaled position of one item. */
  function Scaled(e: Entry, b: Bounds, width: int, height: int, margin: int): Pos
    requires Spread(b)
  {
    Pos(Rescale(e.x, b.minX, b.maxX, margin, width), Rescale(e.y, b.minY, b.maxY, margin, height))
  }

  /** The dictionary the rescale loop builds from the first items, later
      items overwriting earlier ones with the same key. */
  function ScaledMap(pos: seq<Entry>, b: Bounds, width: int, height: int, margin: int): map<int, Pos>
    requires Spread(b)
  {
    if pos == [] then map[]
    else
      var e := pos[|pos| - 1];
      ScaledMap(pos[..|pos| - 1], b, width, height, margin)[e.node := Scaled(e, b, width, height, margin)]
  }

  /** With distinct keys, the dictionary has exactly the items' keys and
      every key maps to its own item's rescaled position. */
  lemma {:induction false} ScaledMapContents(pos: seq<Entry>, b: Bounds, width: int, height: int, margin: int)
    requires Spread(b) && DistinctNodes(pos)
    ensures ScaledMap(pos, b, width, height, margin).Keys == NodesOf(pos)
    ensures forall i :: 0 <= i < |pos| ==>
      ScaledMap(pos, b, width, height, margin)[pos[i].node] == Scaled(pos[i], b, width, height, margin)
  {
    if pos != [] {
      var n := |pos| - 1;
      var init := pos[..n];
      assert DistinctNodes(init);
      ScaledMapContents(init, b, width, height, margin);
      NodesOfStep(pos, n);
      assert pos[..n + 1] == pos;
      forall i | 0 <= i < |pos|
        ensures ScaledMap(pos, b, width, height, margin)[pos[i].node] == Scaled(pos[i], b, width, height, margin)
      {
        if i < n {
          assert init[i] == pos[i];
        }
      }
    }
  }

  /** The rescale loop: `scaled_pos` gets exactly the keys of `pos`, each
      with its rescaled position. The script divides by max - min without a
      guard, so both spreads must be non-zero. */
  method ScalePositions(pos: seq<Entry>, width: int, height: int, margin: int) returns (scaled: map<int, Pos>)
    requires |pos| > 0 && DistinctNodes(pos) && Varied(pos)
    ensures Spread(BoundsOf(pos))
    ensures scaled.Keys == NodesOf(pos)
    ensures forall i :: 0 <= i < |pos| ==> scaled[pos[i].node] == Scaled(pos[i], BoundsOf(pos), width, height, margin)
  {
    SpreadIffVaried(pos);
    var b := BoundsOf(pos);
    scaled := ScaleEntries(pos, b, width, height, margin);
    ScaledMapContents(pos, b, width, height, margin);
  }

  /** The loop of the layout step, for bounds already computed: entry by
      entry, the node is mapped to its rescaled position. */
  method ScaleEntries(pos: seq<Entry>, b: Bounds, width: int, height: int, margin: int) returns (scaled: map<int, Pos>)
    requires Spread(b)
    ensures scaled == ScaledMap(pos, b, width, height, margin)
  {
    scaled := map[];
    for i := 0 to |pos|
      invariant scaled == ScaledMap(pos[..i], b, width, height, margin)
    {
      var e := pos[i];
      var sx := Rescale(e.x, b.minX, b.maxX, margin, width);
      var sy := Rescale(e.y, b.minY, b.maxY, margin, height);
      scaled := scaled[e.node := Pos(sx, sy)];
      assert pos[..i + 1][..i] == pos[..i];
    }
    assert pos[..|pos|] == pos;
  }

  /** One more item adds its key; the earlier keys differ from it. */
  lemma NodesOfStep(pos: seq<Entry>, i: int)
    requires DistinctNodes(pos) && 0 <= i < |pos|
    ensures NodesOf(pos[..i + 1]) == NodesOf(pos[..i]) + {pos[i].node}
    ensures forall k :: 0 <= k < i ==> pos[k].node != pos[i].node
  {
    assert forall k :: 0 <= k < i ==> pos[..i + 1][k] == pos[..i][k];
    assert pos[..i + 1][i] == pos[i];
  }

  /** Every rescaled node lies on the canvas inside the margin, the
      extreme nodes touch it, and the order along each axis is kept. */
  lemma ScaledInside(pos: seq<Entry>, width: int, height: int, margin: int, i: int)
    requires |pos| > 0 && Spread(BoundsOf(pos)) && 2 * margin <= width && 2 * margin <= height && 0 <= i < |pos|
    ensures margin as real <= Scaled(pos[i], BoundsOf(pos), width, height, margin).x <= (width - margin) as real
    ensures margin as real <= Scaled(pos[i], BoundsOf(pos), width, height, margin).y <= (height - margin) as real
    ensures pos[i].x == BoundsOf(pos).minX ==> Scaled(pos[i], BoundsOf(pos), width, height, margin).x == margin as real
    ensures pos[i].x == BoundsOf(pos).maxX ==> Scaled(pos[i], BoundsOf(pos), width, height, margin).x == (width - margin) as real
  {
    var b := BoundsOf(pos);
    RescaleRange(pos[i].x, b.minX, b.maxX, margin, width);
    RescaleRange(pos[i].y, b.minY, b.maxY, margin, height);
    RescaleEnds(b.minX, b.maxX, margin, width);
  }

  // ---------------------------------------------------------------------
  // Colours

  /** `edge_alpha_int = int(edge_alpha * 255)`; over the declared range
      [0.1, 0.4) it is between 25 and 101. */
  function EdgeAlpha(edgeAlpha: real): (a: int)
    ensures 0.0 <= edgeAlpha <= 1.0 ==> 0 <= a <= 255
    ensures 0.1 <= edgeAlpha < 0.4 ==> 25 <= a <= 101
  {
    AlphaByte(edgeAlpha)
  }

  /** The colour of an edge: the palette entry at a `randint(0, len - 1)`
      index, parsed as "#rrggbb", with the edge alpha. */
  function EdgeColour(palette: seq<string>, idx: int, edgeAlpha: real): (c: Option<Rgba>)
    requires 0 <= idx <= |palette| - 1
    ensures c.Some? <==> ParseColour(palette[idx]).Some?
    ensures WellFormedColour(palette[idx]) ==> c.Some?
    ensures c.Some? ==> ParseColour(palette[idx]) == Some(Rgb(c.value.r, c.value.g, c.value.b))
    ensures c.Some? ==> 0 <= c.value.r <= 255 && 0 <= c.value.g <= 255 && 0 <= c.value.b <= 255
    ensures c.Some? ==> c.value.a == EdgeAlpha(edgeAlpha)
  {
    WithAlpha(ParseColour(palette[idx]), EdgeAlpha(edgeAlpha))
  }

  /** An entry written from a byte triple gives an edge drawn in exactly
      that triple, with the edge alpha. */
  lemma EdgeColourOfEntry(palette: seq<string>, idx: int, rgb: Rgb, edgeAlpha: real)
    requires 0 <= idx <= |palette| - 1 && palette[idx] == FormatColour(rgb)
    requires 0 <= rgb.r <= 255 && 0 <= rgb.g <= 255 && 0 <= rgb.b <= 255
    ensures EdgeColour(palette, idx, edgeAlpha) == Some(Rgba(rgb.r, rgb.g, rgb.b, EdgeAlpha(edgeAlpha)))
  {
    ColourRoundTrip(rgb);
  }

  // ---------------------------------------------------------------------
  // Glow

  /** One glow disc: its colour (alpha included) and radius. */
  datatype Ring = Ring(colour: Option<Rgba>, radius: real)

  /** `int(100 / (i + 1))`. */
  function GlowAlpha(i: nat): (a: int)
    ensures i == 0 ==> a == 100
    ensures i == 1 ==> a == 50
    ensures i == 2 ==> a == 33
  {
    var q := 100.0 / (i + 1) as real;
    assert i == 2 ==> 33.0 <= q < 34.0;
    Trunc(q)
  }

  /** The glow loop: three discs behind each node, alphas 100, 50, 33 and
      radii radius + 6, + 4, + 2, each fainter and smaller than the one
      before and all larger than the node drawn over them. */
  method Glow(nodeColour: string, radius: real) returns (rings: seq<Ring>)
    ensures |rings| == 3
    ensures forall i :: 0 <= i < 3 ==>
      rings[i] == Ring(WithAlpha(ParseColour(nodeColour), GlowAlpha(i)), radius + (6 - 2 * i) as real)
    ensures forall i :: 0 <= i < 3 ==> rings[i].radius > radius
    ensures forall i :: 0 < i < 3 ==> rings[i].radius < rings[i - 1].radius && GlowAlpha(i) < GlowAlpha(i - 1)
  {
    rings := [];
    for i := 0 to 3
      invariant |rings| == i
      invariant forall k :: 0 <= k < i ==>
        rings[k] == Ring(WithAlpha(ParseColour(nodeColour), GlowAlpha(k)), radius + (6 - 2 * k) as real)
    {
      var alpha := Trunc(100.0 / (i + 1) as real);
      var rgb := ParseColour(nodeColour);
      var glowRadius := radius + ((3 - i) * 2) as real;
      rings := rings + [Ring(WithAlpha(rgb, alpha), glowRadius)];
    }
  }
}
