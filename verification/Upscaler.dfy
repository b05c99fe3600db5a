/**
 Tiled upscaling: every tile is padded by mirroring, predicted, faded toward its neighbours and
 accumulated; the sums are then divided and alpha is resampled on its own. Numbers are reals.
 */
module Upscaler {
  import opened Words
  import opened Wrappers
  import opened Tiling

  /** A predicted tile by colour, row and column; None is a value that is not finite. */
  type Output = (nat, nat, nat) -> Option<real>

  function Quotient(p: nat, n: nat): nat requires n > 0 { p / n }
  function Modulus(p: nat, n: nat): (m: nat) requires n > 0 ensures m < n { p % n }

  /** Image and model sizes; tile and overlap are in source pixels. */
  datatype Geometry = Geometry(w: nat, h: nat, scale: nat, size: nat) {
    predicate Valid() { w > 0 && h > 0 && (scale == 2 || scale == 4) && 64 <= size <= 1024 }
    function TileSide(): (n: nat) requires Valid() ensures 54 <= n < size { size - 10 }
    function Overlap(): (n: nat) requires Valid() ensures 0 < n < TileSide() { Min(32, TileSide() / 2) }
    function Width(): (n: nat) requires Valid() ensures n > 0 { w * scale }
    function Height(): (n: nat) requires Valid() ensures n > 0 { h * scale }
    function Pixels(): nat requires Valid() { Width() * Height() }
    function First(row: nat): nat requires Valid() { row * Width() }
    function Row(p: nat): nat requires Valid() { Quotient(p, Width()) }
    function Column(p: nat): (n: nat) requires Valid() ensures n < Width() { Modulus(p, Width()) }
  }

  datatype Tile = Tile(x: nat, y: nat) {
    predicate Fits(g: Geometry) { g.Valid() && x < g.w && y < g.h }
    function Columns(g: Geometry): (n: nat) requires Fits(g) ensures 0 < n <= g.TileSide() && x + n <= g.w {
      Min(g.TileSide(), g.w - x)
    }
    function Rows(g: Geometry): (n: nat) requires Fits(g) ensures 0 < n <= g.TileSide() && y + n <= g.h {
      Min(g.TileSide(), g.h - y)
    }
  }

  // ---------- the input of one tile ----------

  function Cell(n: nat, c: nat, row: nat, column: nat): nat { c * n * n + row * n + column }

  lemma CellInjective(n: nat, c: nat, row: nat, column: nat, c': nat, row': nat, column': nat)
    requires row < n && column < n && row' < n && column' < n
    requires Cell(n, c, row, column) == Cell(n, c', row', column')
    ensures c == c' && row == row' && column == column'
  {
    assert Cell(n, c, row, column) == (c * n + row) * n + column;
    assert Cell(n, c', row', column') == (c' * n + row') * n + column';
    UniqueMod(Cell(n, c, row, column), c * n + row, column, n);
    UniqueMod(Cell(n, c, row, column), c' * n + row', column', n);
    UniqueMod(c * n + row, c, row, n);
    UniqueMod(c * n + row, c', row', n);
  }

  lemma PixelInRange(w: nat, h: nat, row: nat, column: nat)
    requires row < h && column < w
    ensures row * w + column < w * h
  {
    assert row * w <= (h - 1) * w;
  }

  lemma CellInRange(n: nat, c: nat, row: nat, column: nat)
    requires c < 3 && row < n && column < n
    ensures Cell(n, c, row, column) < 3 * n * n
  {
    var line := if c == 0 then row else if c == 1 then n + row else 2 * n + row;
    assert line == c * n + row;
    PixelInRange(n, 3 * n, line, column);
    assert Cell(n, c, row, column) == line * n + column by { assert line * n == (c * n) * n + row * n; }
  }

  function SourceRow(g: Geometry, t: Tile, row: nat): (r: nat)
    requires t.Fits(g)
    ensures t.y <= r < t.y + t.Rows(g)
  {
    ReflectInRange(row, t.Rows(g));
    t.y + Reflect(row, t.Rows(g))
  }

  function SourceColumn(g: Geometry, t: Tile, column: nat): (r: nat)
    requires t.Fits(g)
    ensures t.x <= r < t.x + t.Columns(g)
  {
    ReflectInRange(column, t.Columns(g));
    t.x + Reflect(column, t.Columns(g))
  }

  /** The mirrored source pixel stays inside the image. */
  function SourcePixel(g: Geometry, t: Tile, row: nat, column: nat): (i: nat)
    requires t.Fits(g)
    ensures i < g.w * g.h
  {
    hide SourceRow, SourceColumn;
    PixelInRange(g.w, g.h, SourceRow(g, t, row), SourceColumn(g, t, column));
    SourceRow(g, t, row) * g.w + SourceColumn(g, t, column)
  }

  /** Colour with the premultiplied alpha divided out. */
  function Straight(rgba: seq<byte>, i: nat, c: nat): real
    requires c < 3 && 4 * i + 3 < |rgba|
  {
    if rgba[4 * i + 3] > 0 then rgba[4 * i + c] as real / rgba[4 * i + 3] as real else 0.0
  }

  predicate Matches(g: Geometry, rgba: seq<byte>) { |rgba| == 4 * (g.w * g.h) }

  function InputAt(g: Geometry, rgba: seq<byte>, t: Tile, c: nat, row: nat, column: nat): real
    requires t.Fits(g) && Matches(g, rgba) && c < 3
  {
    hide SourcePixel;
    Straight(rgba, SourcePixel(g, t, row, column), c)
  }

  ghost predicate IsInput(g: Geometry, rgba: seq<byte>, t: Tile, input: seq<real>)
    requires t.Fits(g) && Matches(g, rgba)
  {
    && |input| == 3 * g.size * g.size
    && forall c: nat, row: nat, column: nat :: c < 3 && row < g.size && column < g.size ==>
         Cell(g.size, c, row, column) < |input|
         && input[Cell(g.size, c, row, column)] == InputAt(g, rgba, t, c, row, column)
  }

  /** The three colours of one input position. */
  method FillPixel(g: Geometry, rgba: seq<byte>, t: Tile, input: array<real>, row: nat, column: nat)
    requires t.Fits(g) && Matches(g, rgba) && input.Length == 3 * g.size * g.size
    requires row < g.size && column < g.size
    modifies input
    ensures forall c: nat :: c < 3 ==>
              Cell(g.size, c, row, column) < input.Length
              && input[Cell(g.size, c, row, column)] == InputAt(g, rgba, t, c, row, column)
    ensures forall c: nat, a: nat, b: nat :: c < 3 && a < g.size && b < g.size && (a != row || b != column) ==>
              Cell(g.size, c, a, b) < input.Length
              && input[Cell(g.size, c, a, b)] == old(input[Cell(g.size, c, a, b)])
  {
    hide InputAt, Cell;
    forall c: nat, a: nat, b: nat | c < 3 && a < g.size && b < g.size
      ensures Cell(g.size, c, a, b) < input.Length
    {
      CellInRange(g.size, c, a, b);
    }
    var c := 0;
    while c < 3
      invariant c <= 3
      invariant forall d: nat :: d < c ==> input[Cell(g.size, d, row, column)] == InputAt(g, rgba, t, d, row, column)
      invariant forall d: nat, a: nat, b: nat :: d < 3 && a < g.size && b < g.size && (a != row || b != column) ==>
                  input[Cell(g.size, d, a, b)] == old(input[Cell(g.size, d, a, b)])
    {
      forall d: nat, a: nat, b: nat
        | d < 3 && a < g.size && b < g.size && Cell(g.size, d, a, b) == Cell(g.size, c, row, column)
        ensures d == c && a == row && b == column
      {
        CellInjective(g.size, d, a, b, c, row, column);
      }
      input[Cell(g.size, c, row, column)] := InputAt(g, rgba, t, c, row, column);
      c := c + 1;
    }
  }

  method FillInput(g: Geometry, rgba: seq<byte>, t: Tile) returns (input: array<real>)
    requires t.Fits(g) && Matches(g, rgba)
    ensures fresh(input) && IsInput(g, rgba, t, input[..])
  {
    hide InputAt, Cell, Matches;
    var n := g.size;
    input := new real[3 * n * n];
    forall c: nat, a: nat, b: nat | c < 3 && a < n && b < n
      ensures Cell(n, c, a, b) < input.Length
    {
      CellInRange(n, c, a, b);
    }
    for row := 0 to n
      invariant forall c: nat, a: nat, b: nat :: c < 3 && a < row && b < n ==>
                  input[Cell(n, c, a, b)] == InputAt(g, rgba, t, c, a, b)
    {
      for column := 0 to n
        invariant forall c: nat, a: nat, b: nat :: c < 3 && a < row && b < n ==>
                    input[Cell(n, c, a, b)] == InputAt(g, rgba, t, c, a, b)
        invariant forall c: nat, b: nat :: c < 3 && b < column ==>
                    input[Cell(n, c, row, b)] == InputAt(g, rgba, t, c, row, b)
      {
        FillPixel(g, rgba, t, input, row, column);
      }
    }
  }

  // ---------- weights ----------

  /** One edge of a tile that has a neighbour fades in over the overlap. */
  function Fade(applies: bool, position: nat, ramp: real): (r: real)
    requires position >= 1 && ramp > 0.0
    ensures 0.0 < r <= 1.0
  {
    if applies && position as real < ramp then Share(position as real, ramp) else 1.0
  }

  function Share(a: real, b: real): (r: real)
    requires 0.0 < a < b
    ensures 0.0 < r < 1.0
  {
    var r := a / b;
    assert r * b == a && (r >= 1.0 ==> r * b >= b);
    r
  }

  function Times(a: real, b: real): real { a * b }

  lemma Product(a: real, b: real)
    requires 0.0 < a <= 1.0 && 0.0 < b <= 1.0
    ensures 0.0 < Times(a, b) <= 1.0
  {
    assert a * b <= a * 1.0;
  }

  function Ramp(g: Geometry): (r: real)
    requires g.Valid()
    ensures r > 0.0
  {
    (g.Overlap() * g.scale) as real
  }

  /** The weight of one predicted pixel; it never vanishes. */
  function Weight(g: Geometry, t: Tile, row: nat, column: nat): (r: real)
    requires t.Fits(g) && row < t.Rows(g) * g.scale && column < t.Columns(g) * g.scale
    ensures 0.0 < r <= 1.0
  {
    var left := Fade(t.x > 0, column + 1, Ramp(g));
    var top := Fade(t.y > 0, row + 1, Ramp(g));
    var right := Fade(t.x + t.Columns(g) < g.w, t.Columns(g) * g.scale - column, Ramp(g));
    var bottom := Fade(t.y + t.Rows(g) < g.h, t.Rows(g) * g.scale - row, Ramp(g));
    Product(left, top);
    Product(Times(left, top), right);
    Product(Times(Times(left, top), right), bottom);
    Times(Times(Times(left, top), right), bottom)
  }

  function Clamp(v: real): (r: real)
    ensures 0.0 <= r <= 1.0 && (0.0 <= v <= 1.0 ==> r == v)
  {
    if v < 0.0 then 0.0 else if v > 1.0 then 1.0 else v
  }

  // ---------- what a tile adds to one output pixel ----------

  predicate CoversAt(g: Geometry, t: Tile, row: nat, column: nat)
    requires t.Fits(g)
  {
    && t.y * g.scale <= row < (t.y + t.Rows(g)) * g.scale
    && t.x * g.scale <= column < (t.x + t.Columns(g)) * g.scale
  }

  predicate Covers(g: Geometry, t: Tile, p: nat)
    requires t.Fits(g)
  {
    CoversAt(g, t, g.Row(p), g.Column(p))
  }

  function WeightAt(g: Geometry, t: Tile, p: nat): (r: real)
    requires t.Fits(g)
    ensures 0.0 <= r && (Covers(g, t, p) <==> r > 0.0)
  {
    if Covers(g, t, p) then Weight(g, t, g.Row(p) - t.y * g.scale, g.Column(p) - t.x * g.scale) else 0.0
  }

  ghost predicate Finite(g: Geometry, t: Tile, output: Output, rows: nat)
    requires t.Fits(g)
  {
    forall c: nat, row: nat, column: nat :: c < 3 && row < rows && column < t.Columns(g) * g.scale ==>
      output(c, row, column).Some?
  }

  function Weighted(v: Option<real>, weight: real): real {
    if v.Some? then Times(Clamp(v.value), weight) else 0.0
  }

  /** k counts the colours of all pixels. */
  function ColourAt(g: Geometry, t: Tile, output: Output, k: nat): real
    requires t.Fits(g)
  {
    var p := k / 3;
    if Covers(g, t, p)
    then Weighted(output(k % 3, g.Row(p) - t.y * g.scale, g.Column(p) - t.x * g.scale), WeightAt(g, t, p))
    else 0.0
  }

  // ---------- accumulating ----------

  ghost predicate Buffers(g: Geometry, weights: array<real>, rgb: array<real>) {
    && g.Valid() && weights.Length == g.Pixels() && rgb.Length == 3 * weights.Length && weights != rgb
  }

  /** Three colours and the weight of one pixel. */
  method AddPixel(p: nat, weight: real, values: seq<Option<real>>, weights: array<real>, rgb: array<real>)
    returns (ok: bool)
    requires |values| == 3 && p < weights.Length && rgb.Length == 3 * weights.Length && weights != rgb
    modifies weights, rgb
    ensures ok == (values[0].Some? && values[1].Some? && values[2].Some?)
    ensures weights[p] == old(weights[p]) + weight
    ensures forall q :: 0 <= q < weights.Length && q != p ==> weights[q] == old(weights[q])
    ensures ok ==> forall k :: 3 * p <= k < 3 * p + 3 ==> rgb[k] == old(rgb[k]) + Weighted(values[k - 3 * p], weight)
    ensures forall k :: 0 <= k < rgb.Length && k / 3 != p ==> rgb[k] == old(rgb[k])
  {
    weights[p] := weights[p] + weight;
    var c := 0;
    while c < 3
      modifies rgb
      invariant c <= 3
      invariant forall k :: 0 <= k < c ==> values[k].Some?
      invariant forall k :: 3 * p <= k < 3 * p + c ==> rgb[k] == old(rgb[k]) + Weighted(values[k - 3 * p], weight)
      invariant forall k :: 0 <= k < rgb.Length && !(3 * p <= k < 3 * p + c) ==> rgb[k] == old(rgb[k])
    {
      if values[c].None? { return false; }
      rgb[p * 3 + c] := rgb[p * 3 + c] + Clamp(values[c].value) * weight;
      c := c + 1;
    }
    return true;
  }

  /** The output pixel at a row and column of a tile. */
  function OutputPixel(g: Geometry, t: Tile, row: nat, column: nat): (p: nat)
    requires t.Fits(g) && row < t.Rows(g) * g.scale && column < t.Columns(g) * g.scale
    ensures p < g.Pixels()
    ensures g.Row(p) == t.y * g.scale + row && g.Column(p) == t.x * g.scale + column
    ensures Covers(g, t, p)
  {
    Scaled(g.scale, t.y, t.Rows(g), g.h);
    Scaled(g.scale, t.x, t.Columns(g), g.w);
    hide Tile.Rows, Tile.Columns;
    PixelInRange(g.Width(), g.Height(), t.y * g.scale + row, t.x * g.scale + column);
    var p := (t.y * g.scale + row) * g.Width() + t.x * g.scale + column;
    UniqueMod(p, t.y * g.scale + row, t.x * g.scale + column, g.Width());
    p
  }

  lemma Scaled(s: nat, start: nat, count: nat, limit: nat)
    requires (s == 2 || s == 4) && start + count <= limit
    ensures (start + count) * s == start * s + count * s <= limit * s
  {
  }

  /** The pixels of some rows of a tile. */
  predicate InRows(g: Geometry, t: Tile, lo: nat, hi: nat, p: nat)
    requires t.Fits(g)
  {
    Covers(g, t, p) && lo <= g.Row(p) - t.y * g.scale < hi
  }

  lemma Stretch(ow: nat, r: nat, c: nat, n: nat, p: nat)
    requires c + n <= ow && ow > 0
    ensures p / ow == r && c <= p % ow < c + n <==> r * ow + c <= p < r * ow + c + n
  {
    assert p == (p / ow) * ow + p % ow;
    if r * ow + c <= p < r * ow + c + n { UniqueMod(p, r, p - r * ow, ow); }
  }

  predicate Between(p: nat, first: nat, count: nat) { first <= p < first + count }

  /** One row of a tile is one stretch of the buffers. */
  lemma RowIsStretch(g: Geometry, t: Tile, row: nat, p: nat)
    requires t.Fits(g) && row < t.Rows(g) * g.scale
    ensures InRows(g, t, row, row + 1, p) <==> Between(p, OutputPixel(g, t, row, 0), t.Columns(g) * g.scale)
  {
    Scaled(g.scale, t.x, t.Columns(g), g.w);
    Scaled(g.scale, t.y, t.Rows(g), g.h);
    hide Tile.Rows, Tile.Columns;
    Stretch(g.Width(), t.y * g.scale + row, t.x * g.scale, t.Columns(g) * g.scale, p);
  }

  lemma AtOutputPixel(g: Geometry, t: Tile, output: Output, row: nat, column: nat)
    requires t.Fits(g) && row < t.Rows(g) * g.scale && column < t.Columns(g) * g.scale
    ensures var p := OutputPixel(g, t, row, column);
            && p == OutputPixel(g, t, row, 0) + column
            && WeightAt(g, t, p) == Weight(g, t, row, column)
            && forall k: nat :: k / 3 == p ==>
                 ColourAt(g, t, output, k) == Weighted(output(k - 3 * p, row, column), WeightAt(g, t, p))
  {
    hide Weight, Tile.Rows, Tile.Columns;
  }

  function Added(applies: bool, amount: real): real { if applies then amount else 0.0 }

  method AddSample(g: Geometry, t: Tile, output: Output, row: nat, column: nat,
                   weights: array<real>, rgb: array<real>)
    returns (ok: bool)
    requires t.Fits(g) && Buffers(g, weights, rgb)
    requires row < t.Rows(g) * g.scale && column < t.Columns(g) * g.scale
    modifies weights, rgb
    ensures ok <==> forall c: nat :: c < 3 ==> output(c, row, column).Some?
    ensures ok ==> forall p: nat :: p < weights.Length ==>
                     weights[p] == old(weights[p]) + Added(p == OutputPixel(g, t, row, column), WeightAt(g, t, p))
    ensures ok ==> forall k: nat :: k < rgb.Length ==>
                     rgb[k] == old(rgb[k]) + Added(k / 3 == OutputPixel(g, t, row, column), ColourAt(g, t, output, k))
  {
    var p := OutputPixel(g, t, row, column);
    AtOutputPixel(g, t, output, row, column);
    hide Weight, Weighted, Tile.Rows, Tile.Columns, Geometry.Pixels, WeightAt, ColourAt, OutputPixel;
    var values := [output(0, row, column), output(1, row, column), output(2, row, column)];
    assert forall c: nat :: c < 3 ==> values[c] == output(c, row, column);
    ok := AddPixel(p, Weight(g, t, row, column), values, weights, rgb);
  }

  method AddRow(g: Geometry, t: Tile, output: Output, row: nat, weights: array<real>, rgb: array<real>)
    returns (ok: bool)
    requires t.Fits(g) && row < t.Rows(g) * g.scale && Buffers(g, weights, rgb)
    modifies weights, rgb
    ensures ok <==> forall c: nat, column: nat :: c < 3 && column < t.Columns(g) * g.scale ==> output(c, row, column).Some?
    ensures ok ==> forall p: nat :: p < weights.Length ==>
                     weights[p] == old(weights[p]) + Added(InRows(g, t, row, row + 1, p), WeightAt(g, t, p))
    ensures ok ==> forall k: nat :: k < rgb.Length ==>
                     rgb[k] == old(rgb[k]) + Added(InRows(g, t, row, row + 1, k / 3), ColourAt(g, t, output, k))
  {
    var first := OutputPixel(g, t, row, 0);
    var columns := t.Columns(g) * g.scale;
    hide Weight, Tile.Rows, Tile.Columns, Geometry.Pixels, InRows, WeightAt, ColourAt, OutputPixel;
    for column := 0 to columns
      invariant forall c: nat, d: nat :: c < 3 && d < column ==> output(c, row, d).Some?
      invariant forall p: nat :: p < weights.Length ==>
                  weights[p] == old(weights[p]) + Added(Between(p, first, column), WeightAt(g, t, p))
      invariant forall k: nat :: k < rgb.Length ==>
                  rgb[k] == old(rgb[k]) + Added(Between(k / 3, first, column), ColourAt(g, t, output, k))
    {
      AtOutputPixel(g, t, output, row, column);
      ok := AddSample(g, t, output, row, column, weights, rgb);
      if !ok { return; }
    }
    forall p: nat
      ensures InRows(g, t, row, row + 1, p) <==> Between(p, first, columns)
    {
      RowIsStretch(g, t, row, p);
    }
    return true;
  }

  /** Every covered pixel is in some row. */
  lemma AllRows(g: Geometry, t: Tile, output: Output, k: nat)
    requires t.Fits(g)
    ensures Added(InRows(g, t, 0, t.Rows(g) * g.scale, k), WeightAt(g, t, k)) == WeightAt(g, t, k)
    ensures Added(InRows(g, t, 0, t.Rows(g) * g.scale, k / 3), ColourAt(g, t, output, k)) == ColourAt(g, t, output, k)
  {
    hide Weight, Weighted;
  }

  /** A whole tile: nothing outside it changes. */
  method AddTile(g: Geometry, t: Tile, output: Output, weights: array<real>, rgb: array<real>) returns (ok: bool)
    requires t.Fits(g) && Buffers(g, weights, rgb)
    modifies weights, rgb
    ensures ok <==> Finite(g, t, output, t.Rows(g) * g.scale)
    ensures ok ==> forall p: nat :: p < weights.Length ==> weights[p] == old(weights[p]) + WeightAt(g, t, p)
    ensures ok ==> forall k: nat :: k < rgb.Length ==> rgb[k] == old(rgb[k]) + ColourAt(g, t, output, k)
  {
    hide Weight, Weighted, Tile.Rows, Tile.Columns, Geometry.Pixels, Covers, WeightAt, ColourAt;
    for row := 0 to t.Rows(g) * g.scale
      invariant Finite(g, t, output, row)
      invariant forall p: nat :: p < weights.Length ==>
                  weights[p] == old(weights[p]) + Added(InRows(g, t, 0, row, p), WeightAt(g, t, p))
      invariant forall k: nat :: k < rgb.Length ==>
                  rgb[k] == old(rgb[k]) + Added(InRows(g, t, 0, row, k / 3), ColourAt(g, t, output, k))
    {
      ok := AddRow(g, t, output, row, weights, rgb);
      if !ok { return; }
    }
    forall k: nat
      ensures Added(InRows(g, t, 0, t.Rows(g) * g.scale, k), WeightAt(g, t, k)) == WeightAt(g, t, k)
      ensures Added(InRows(g, t, 0, t.Rows(g) * g.scale, k / 3), ColourAt(g, t, output, k)) == ColourAt(g, t, output, k)
    {
      AllRows(g, t, output, k);
    }
    return true;
  }

  // ---------- all tiles ----------

  type Predictor = seq<real> -> Output

  /** A tile that was predicted, with the input it was given. */
  datatype Laid = Laid(tile: Tile, input: seq<real>)

  ghost predicate AllFit(g: Geometry, laid: seq<Laid>) {
    forall i :: 0 <= i < |laid| ==> laid[i].tile.Fits(g)
  }

  function WeightSum(g: Geometry, laid: seq<Laid>, p: nat): (r: real)
    requires AllFit(g, laid)
    ensures r >= 0.0
  {
    if laid == [] then 0.0
    else WeightSum(g, laid[..|laid| - 1], p) + WeightAt(g, laid[|laid| - 1].tile, p)
  }

  function ColourSum(g: Geometry, predict: Predictor, laid: seq<Laid>, k: nat): real
    requires AllFit(g, laid)
  {
    if laid == [] then 0.0
    else
      var last := laid[|laid| - 1];
      ColourSum(g, predict, laid[..|laid| - 1], k) + ColourAt(g, last.tile, predict(last.input), k)
  }

  predicate Naturals(s: seq<int>) { forall i :: 0 <= i < |s| ==> s[i] >= 0 }

  function Line(xs: seq<int>, y: nat): (line: seq<Tile>)
    requires Naturals(xs)
    ensures |line| == |xs| && forall j :: 0 <= j < |xs| ==> line[j] == Tile(xs[j], y)
  {
    seq(|xs|, j requires 0 <= j < |xs| => Tile(xs[j], y))
  }

  /** The tiles line by line. */
  function Grid(xs: seq<int>, ys: seq<int>): seq<Tile>
    requires Naturals(xs) && Naturals(ys)
  {
    if ys == [] then [] else Grid(xs, ys[..|ys| - 1]) + Line(xs, ys[|ys| - 1])
  }

  lemma {:induction false} InGrid(xs: seq<int>, ys: seq<int>, j: nat, i: nat)
    requires Naturals(xs) && Naturals(ys) && j < |xs| && i < |ys|
    ensures Tile(xs[j], ys[i]) in Grid(xs, ys)
  {
    if i < |ys| - 1 {
      InGrid(xs, ys[..|ys| - 1], j, i);
    } else {
      assert Line(xs, ys[i])[j] == Tile(xs[j], ys[i]);
    }
  }

  /** The tiles of an image: those at the starts of both directions. */
  function GridOf(g: Geometry): seq<Tile>
    requires g.Valid()
  {
    StartsAreNaturals(g.w, g.TileSide(), g.Overlap());
    StartsAreNaturals(g.h, g.TileSide(), g.Overlap());
    Grid(StartsOf(g.w, g.TileSide(), g.Overlap()), StartsOf(g.h, g.TileSide(), g.Overlap()))
  }

  lemma StartsAreNaturals(length: nat, tile: nat, overlap: nat)
    requires overlap < tile && length > 0
    ensures Naturals(StartsOf(length, tile, overlap))
  {
    StartsOfIsTiling(length, tile, overlap);
    var s := StartsOf(length, tile, overlap);
    forall k: nat | k < |s| ensures s[k] >= 0 { TilingShape(s, length, tile, overlap, k); }
  }

  /** The tiles are those of the grid, each with its padded input. */
  ghost predicate Laying(g: Geometry, rgba: seq<byte>, tiles: seq<Tile>, laid: seq<Laid>) {
    && g.Valid() && Matches(g, rgba) && |laid| == |tiles|
    && forall i :: 0 <= i < |laid| ==>
         laid[i].tile == tiles[i] && laid[i].tile.Fits(g) && IsInput(g, rgba, laid[i].tile, laid[i].input)
  }

  ghost predicate Accumulated(g: Geometry, predict: Predictor, laid: seq<Laid>, weights: array<real>, rgb: array<real>)
    requires AllFit(g, laid)
    reads weights, rgb
  {
    && (forall p: nat :: p < weights.Length ==> weights[p] == WeightSum(g, laid, p))
    && (forall k: nat :: k < rgb.Length ==> rgb[k] == ColourSum(g, predict, laid, k))
  }

  /** Some tile of the image is predicted with a value that is not finite. */
  ghost predicate Unusable(g: Geometry, rgba: seq<byte>, predict: Predictor)
    requires g.Valid() && Matches(g, rgba)
  {
    exists t: Tile, input: seq<real> ::
      t in GridOf(g) && t.Fits(g) && IsInput(g, rgba, t, input) && !Finite(g, t, predict(input), t.Rows(g) * g.scale)
  }

  ghost predicate AllFinite(g: Geometry, predict: Predictor, laid: seq<Laid>)
    requires AllFit(g, laid)
  {
    forall i :: 0 <= i < |laid| ==> Finite(g, laid[i].tile, predict(laid[i].input), laid[i].tile.Rows(g) * g.scale)
  }

  lemma Divide(k: nat, n: nat, m: nat) returns (q: nat, rest: nat)
    requires n > 0 && k < m * n
    ensures q < m && rest < n && k == q * n + rest
  {
    q, rest := k / n, k % n;
    assert q >= m ==> q * n >= m * n;
  }

  lemma CellOfParts(n: nat, q: nat, c: nat, row: nat, column: nat)
    requires q == c * n + row
    ensures q * n + column == Cell(n, c, row, column)
  {
    assert (c * n + row) * n == (c * n) * n + row * n;
  }

  lemma CellOf(n: nat, k: nat) returns (c: nat, row: nat, column: nat)
    requires n > 0 && k < 3 * n * n
    ensures c < 3 && row < n && column < n && k == Cell(n, c, row, column)
  {
    hide Cell;
    var q;
    q, column := Divide(k, n, 3 * n);
    c, row := Divide(q, n, 3);
    CellOfParts(n, q, c, row, column);
  }

  /** A tile has one input. */
  lemma InputIsUnique(g: Geometry, rgba: seq<byte>, t: Tile, a: seq<real>, b: seq<real>)
    requires t.Fits(g) && Matches(g, rgba) && IsInput(g, rgba, t, a) && IsInput(g, rgba, t, b)
    ensures a == b
  {
    forall k | 0 <= k < |a| ensures |a| == |b| && a[k] == b[k] {
      var c, row, column := CellOf(g.size, k);
      SameCell(g, rgba, t, a, b, c, row, column);
    }
  }

  lemma SameCell(g: Geometry, rgba: seq<byte>, t: Tile, a: seq<real>, b: seq<real>, c: nat, row: nat, column: nat)
    requires t.Fits(g) && Matches(g, rgba) && IsInput(g, rgba, t, a) && IsInput(g, rgba, t, b)
    requires c < 3 && row < g.size && column < g.size
    ensures Cell(g.size, c, row, column) < |a| == |b| && a[Cell(g.size, c, row, column)] == b[Cell(g.size, c, row, column)]
  {
    hide InputAt, Cell, Matches, Tile.Fits;
  }

  method LayTile(g: Geometry, rgba: seq<byte>, predict: Predictor, t: Tile, weights: array<real>, rgb: array<real>,
                 ghost laid: seq<Laid>)
    returns (ok: bool, ghost laid': seq<Laid>)
    requires t.Fits(g) && t in GridOf(g) && Matches(g, rgba) && Buffers(g, weights, rgb) && AllFit(g, laid)
    requires Accumulated(g, predict, laid, weights, rgb) && AllFinite(g, predict, laid)
    modifies weights, rgb
    ensures ok ==> AllFit(g, laid') && Accumulated(g, predict, laid', weights, rgb) && AllFinite(g, predict, laid')
    ensures ok ==> |laid'| == |laid| + 1 && laid'[..|laid|] == laid
                   && laid'[|laid|].tile == t && IsInput(g, rgba, t, laid'[|laid|].input)
    ensures !ok ==> Unusable(g, rgba, predict)
  {
    var input := FillInput(g, rgba, t);
    laid' := laid + [Laid(t, input[..])];
    assert laid'[..|laid'| - 1] == laid;
    assert AllFit(g, laid');
    hide IsInput, WeightAt, ColourAt, Finite, Matches, GridOf;
    ok := AddTile(g, t, predict(input[..]), weights, rgb);
  }

  /** These tiles have been laid, and nothing else is in the buffers. */
  ghost predicate Blended(g: Geometry, rgba: seq<byte>, predict: Predictor, tiles: seq<Tile>, laid: seq<Laid>,
                          weights: array<real>, rgb: array<real>)
    reads weights, rgb
  {
    && Laying(g, rgba, tiles, laid) && AllFit(g, laid)
    && Accumulated(g, predict, laid, weights, rgb) && AllFinite(g, predict, laid)
  }

  method LayLine(g: Geometry, rgba: seq<byte>, predict: Predictor, xs: seq<int>, y: nat,
                 weights: array<real>, rgb: array<real>, ghost tiles: seq<Tile>, ghost laid: seq<Laid>)
    returns (ok: bool, ghost laid': seq<Laid>)
    requires g.Valid() && Matches(g, rgba) && Naturals(xs) && Buffers(g, weights, rgb)
    requires forall t :: t in Line(xs, y) ==> t.Fits(g) && t in GridOf(g)
    requires Blended(g, rgba, predict, tiles, laid, weights, rgb)
    modifies weights, rgb
    ensures ok ==> Blended(g, rgba, predict, tiles + Line(xs, y), laid', weights, rgb)
    ensures !ok ==> Unusable(g, rgba, predict)
  {
    hide Accumulated, IsInput, Matches, Buffers, Unusable, GridOf, AllFinite;
    laid' := laid;
    ghost var line := Line(xs, y);
    assert tiles + line[..0] == tiles;
    for j := 0 to |xs|
      invariant Blended(g, rgba, predict, tiles + line[..j], laid', weights, rgb)
    {
      assert line[j] in line && line[j] == Tile(xs[j], y);
      ghost var before := laid';
      ok, laid' := LayTile(g, rgba, predict, Tile(xs[j], y), weights, rgb, before);
      if !ok { return; }
      LayingExtends(g, rgba, tiles + line[..j], before, laid', line[j]);
      assert tiles + line[..j + 1] == tiles + line[..j] + [line[j]];
    }
    assert line[..|xs|] == line;
    ok := true;
  }

  method LayLines(g: Geometry, rgba: seq<byte>, predict: Predictor, columns: seq<int>, rows: seq<int>,
                  weights: array<real>, rgb: array<real>)
    returns (ok: bool, ghost laid: seq<Laid>)
    requires g.Valid() && Matches(g, rgba) && Naturals(columns) && Naturals(rows) && Buffers(g, weights, rgb)
    requires forall i, t :: 0 <= i < |rows| && t in Line(columns, rows[i]) ==> t.Fits(g) && t in GridOf(g)
    requires Accumulated(g, predict, [], weights, rgb)
    modifies weights, rgb
    ensures ok ==> Blended(g, rgba, predict, Grid(columns, rows), laid, weights, rgb)
    ensures !ok ==> Unusable(g, rgba, predict)
  {
    hide *;
    laid := [];
    NothingBlended(g, rgba, predict, weights, rgb);
    NoRows(columns, rows);
    for i := 0 to |rows|
      invariant Naturals(rows[..i]) && Blended(g, rgba, predict, Grid(columns, rows[..i]), laid, weights, rgb)
    {
      NextRow(columns, rows, i);
      ok, laid := LayLine(g, rgba, predict, columns, rows[i], weights, rgb, Grid(columns, rows[..i]), laid);
      if !ok { return; }
    }
    assert rows[..|rows|] == rows;
    ok := true;
  }

  /** All tiles line by line. */
  method Blend(g: Geometry, rgba: seq<byte>, predict: Predictor, weights: array<real>, rgb: array<real>)
    returns (ok: bool, ghost laid: seq<Laid>)
    requires g.Valid() && Matches(g, rgba) && Buffers(g, weights, rgb)
    requires Accumulated(g, predict, [], weights, rgb)
    modifies weights, rgb
    ensures ok ==> Blended(g, rgba, predict, GridOf(g), laid, weights, rgb)
    ensures !ok ==> Unusable(g, rgba, predict)
  {
    var columns := Starts(g.w, g.TileSide(), g.Overlap());
    var rows := Starts(g.h, g.TileSide(), g.Overlap());
    hide *;
    GridFits(g, columns, rows);
    ok, laid := LayLines(g, rgba, predict, columns, rows, weights, rgb);
  }

  /** Every tile of the grid fits. */
  lemma GridFits(g: Geometry, columns: seq<int>, rows: seq<int>)
    requires g.Valid() && columns == StartsOf(g.w, g.TileSide(), g.Overlap()) && rows == StartsOf(g.h, g.TileSide(), g.Overlap())
    ensures Naturals(columns) && Naturals(rows) && Grid(columns, rows) == GridOf(g)
    ensures forall i, t :: 0 <= i < |rows| && t in Line(columns, rows[i]) ==> t.Fits(g) && t in GridOf(g)
  {
    StartsAreNaturals(g.w, g.TileSide(), g.Overlap());
    StartsAreNaturals(g.h, g.TileSide(), g.Overlap());
    StartsOfIsTiling(g.w, g.TileSide(), g.Overlap());
    StartsOfIsTiling(g.h, g.TileSide(), g.Overlap());
    hide StartsOf, Grid, IsTiling;
    forall i, t | 0 <= i < |rows| && t in Line(columns, rows[i]) ensures t.Fits(g) && t in GridOf(g) {
      var j :| 0 <= j < |columns| && Line(columns, rows[i])[j] == t;
      TilingShape(columns, g.w, g.TileSide(), g.Overlap(), j);
      TilingShape(rows, g.h, g.TileSide(), g.Overlap(), i);
      InGrid(columns, rows, j, i);
    }
  }

  lemma NothingBlended(g: Geometry, rgba: seq<byte>, predict: Predictor, weights: array<real>, rgb: array<real>)
    requires g.Valid() && Matches(g, rgba) && Accumulated(g, predict, [], weights, rgb)
    ensures Blended(g, rgba, predict, [], [], weights, rgb)
  {
    hide Accumulated;
  }

  lemma NoRows(columns: seq<int>, rows: seq<int>)
    requires Naturals(columns)
    ensures Naturals(rows[..0]) && Grid(columns, rows[..0]) == []
  {
  }

  lemma NextRow(columns: seq<int>, rows: seq<int>, i: nat)
    requires i < |rows| && Naturals(columns) && Naturals(rows)
    ensures rows[i] >= 0 && Naturals(rows[..i]) && Naturals(rows[..i + 1])
    ensures Grid(columns, rows[..i + 1]) == Grid(columns, rows[..i]) + Line(columns, rows[i])
  {
    assert rows[..i + 1][..i] == rows[..i];
  }

  lemma LayingExtends(g: Geometry, rgba: seq<byte>, tiles: seq<Tile>, laid: seq<Laid>, laid': seq<Laid>, t: Tile)
    requires Laying(g, rgba, tiles, laid) && t.Fits(g)
    requires |laid'| == |laid| + 1 && laid'[..|laid|] == laid
    requires laid'[|laid|].tile == t && IsInput(g, rgba, t, laid'[|laid|].input)
    ensures Laying(g, rgba, tiles + [t], laid')
  {
    hide IsInput, Matches;
    forall i | 0 <= i < |laid| ensures laid'[i] == laid[i] { assert laid'[i] == laid'[..|laid|][i]; }
  }
}
