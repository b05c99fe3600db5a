/**
 From accumulated sums to bytes: every pixel is covered, the weighted mean of agreeing tiles is the
 image they agree on, and colour never exceeds the separately resampled alpha.
 */
module Compositing {
  import opened Words
  import opened Wrappers
  import opened Tiling
  import opened Upscaler

  // ---------- every pixel is covered ----------

  lemma ScaledBack(s: nat, n: nat, x: nat, count: nat)
    requires (s == 2 || s == 4) && x <= n / s < x + count
    ensures x * s <= n < (x + count) * s
  {
  }

  lemma SourceOf(s: nat, n: nat, limit: nat)
    requires (s == 2 || s == 4) && n < limit * s
    ensures n / s < limit
  {
  }

  lemma RowOf(w: nat, h: nat, p: nat)
    requires p < w * h
    ensures w > 0 && p / w < h && p % w < w
  {
    assert w == 0 ==> w * h == 0;
    var q := p / w;
    assert p == q * w + p % w;
    assert q >= h ==> q * w >= h * w;
  }

  /** Some tile covers an output position along one axis. */
  lemma AxisIsCovered(starts: seq<int>, length: nat, tile: nat, overlap: nat, scale: nat, position: nat)
    returns (j: nat)
    requires IsTiling(starts, length, tile, overlap) && 0 < overlap < tile
    requires (scale == 2 || scale == 4) && position < length * scale
    ensures j < |starts| && 0 <= starts[j] < length
    ensures starts[j] * scale <= position < (starts[j] + Min(tile, length - starts[j])) * scale
  {
    SourceOf(scale, position, length);
    j := Covered(starts, length, tile, overlap, position / scale, 0);
    TilingShape(starts, length, tile, overlap, j);
    ScaledBack(scale, position, starts[j], Min(tile, length - starts[j]));
  }

  lemma EveryPositionIsCovered(g: Geometry, xs: seq<int>, ys: seq<int>, row: nat, column: nat) returns (t: Tile)
    requires g.Valid() && row < g.Height() && column < g.Width() && Naturals(xs) && Naturals(ys)
    requires IsTiling(xs, g.w, g.TileSide(), g.Overlap()) && IsTiling(ys, g.h, g.TileSide(), g.Overlap())
    ensures t.Fits(g) && CoversAt(g, t, row, column) && t in Grid(xs, ys)
  {
    hide IsTiling, Geometry.TileSide, Geometry.Overlap;
    var j := AxisIsCovered(xs, g.w, g.TileSide(), g.Overlap(), g.scale, column);
    var i := AxisIsCovered(ys, g.h, g.TileSide(), g.Overlap(), g.scale, row);
    t := Tile(xs[j], ys[i]);
    InGrid(xs, ys, j, i);
  }

  lemma EveryPixelIsCovered(g: Geometry, p: nat) returns (t: Tile)
    requires g.Valid() && p < g.Pixels()
    ensures t.Fits(g) && Covers(g, t, p) && t in GridOf(g)
  {
    var xs, ys := StartsOf(g.w, g.TileSide(), g.Overlap()), StartsOf(g.h, g.TileSide(), g.Overlap());
    StartsOfIsTiling(g.w, g.TileSide(), g.Overlap());
    StartsOfIsTiling(g.h, g.TileSide(), g.Overlap());
    GridFits(g, xs, ys);
    hide *;
    RowInRange(g, p);
    t := EveryPositionIsCovered(g, xs, ys, g.Row(p), g.Column(p));
    CoveredAt(g, t, p);
  }

  lemma RowInRange(g: Geometry, p: nat)
    requires g.Valid() && p < g.Pixels()
    ensures g.Row(p) < g.Height()
  {
    RowOf(g.Width(), g.Height(), p);
    hide Geometry.Width, Geometry.Height;
  }

  lemma CoveredAt(g: Geometry, t: Tile, p: nat)
    requires t.Fits(g) && CoversAt(g, t, g.Row(p), g.Column(p))
    ensures Covers(g, t, p)
  {
    hide CoversAt, Geometry.Row, Geometry.Column;
  }

  lemma {:induction false} CoveredWeighs(g: Geometry, laid: seq<Laid>, p: nat, i: nat)
    requires AllFit(g, laid) && i < |laid| && Covers(g, laid[i].tile, p)
    ensures WeightSum(g, laid, p) > 0.0
  {
    hide Covers, WeightAt;
    if i < |laid| - 1 { CoveredWeighs(g, laid[..|laid| - 1], p, i); }
  }

  /** No output pixel is divided by zero. */
  lemma EveryWeightIsPositive(g: Geometry, rgba: seq<byte>, laid: seq<Laid>, p: nat)
    requires g.Valid() && Laying(g, rgba, GridOf(g), laid) && p < g.Pixels()
    ensures AllFit(g, laid) && WeightSum(g, laid, p) > 0.0
  {
    var t := EveryPixelIsCovered(g, p);
    hide GridOf, IsInput, Covers, WeightSum;
    var i :| 0 <= i < |laid| && GridOf(g)[i] == t;
    CoveredWeighs(g, laid, p, i);
  }

  // ---------- the weighted mean ----------

  lemma PartOf(v: real, weight: real)
    requires 0.0 <= v <= 1.0 && weight >= 0.0
    ensures 0.0 <= Times(v, weight) <= weight
  {
    NonNegative(v, weight);
    NonNegative(1.0 - v, weight);
    assert Times(v, weight) == weight - (1.0 - v) * weight;
  }

  /** Whatever is predicted, the sums are those of colours between 0 and 1. */
  lemma {:induction false} MeanWithin(g: Geometry, predict: Predictor, laid: seq<Laid>, k: nat)
    requires AllFit(g, laid)
    ensures 0.0 <= ColourSum(g, predict, laid, k) <= WeightSum(g, laid, k / 3)
  {
    if laid != [] {
      MeanWithin(g, predict, laid[..|laid| - 1], k);
      var last := laid[|laid| - 1];
      TileWithin(g, last.tile, predict(last.input), k);
      hide ColourAt, WeightAt;
    }
  }

  lemma WeightedWithin(v: Option<real>, weight: real)
    requires weight >= 0.0
    ensures 0.0 <= Weighted(v, weight) <= weight
  {
    if v.Some? { PartOf(Clamp(v.value), weight); }
  }

  lemma TileWithin(g: Geometry, t: Tile, output: Output, k: nat)
    requires t.Fits(g)
    ensures 0.0 <= ColourAt(g, t, output, k) <= WeightAt(g, t, k / 3)
  {
    forall v: Option<real> ensures 0.0 <= Weighted(v, WeightAt(g, t, k / 3)) <= WeightAt(g, t, k / 3) {
      WeightedWithin(v, WeightAt(g, t, k / 3));
    }
    hide Weighted, WeightAt, Tile.Rows, Tile.Columns;
  }

  /** An image by colour, row and column. */
  type Image = (nat, nat, nat) -> real

  /** For every tile of the grid the prediction is the matching crop. */
  ghost predicate PredictsCrops(g: Geometry, rgba: seq<byte>, predict: Predictor, image: Image)
    requires g.Valid() && Matches(g, rgba)
  {
    forall t: Tile, input: seq<real> :: t in GridOf(g) && t.Fits(g) && IsInput(g, rgba, t, input) ==>
      IsCrop(g, t, predict(input), image)
  }

  ghost predicate IsCrop(g: Geometry, t: Tile, output: Output, image: Image)
    requires t.Fits(g)
  {
    forall c: nat, row: nat, column: nat :: c < 3 && row < t.Rows(g) * g.scale && column < t.Columns(g) * g.scale ==>
      output(c, row, column) == Some(image(c, t.y * g.scale + row, t.x * g.scale + column))
  }

  function PixelColour(g: Geometry, image: Image, k: nat): real
    requires g.Valid()
  {
    image(k % 3, g.Row(k / 3), g.Column(k / 3))
  }

  lemma CropAt(g: Geometry, t: Tile, output: Output, image: Image, k: nat)
    requires t.Fits(g) && IsCrop(g, t, output, image)
    ensures ColourAt(g, t, output, k) == Times(Clamp(PixelColour(g, image, k)), WeightAt(g, t, k / 3))
  {
    var p := k / 3;
    var row, column := g.Row(p) - t.y * g.scale, g.Column(p) - t.x * g.scale;
    Distribute(Clamp(PixelColour(g, image, k)), 0.0, 0.0);
    hide Tile.Rows, Tile.Columns, Geometry.Row, Geometry.Column, Times, Clamp, Weight;
    if Covers(g, t, p) {
      Scaled(g.scale, t.y, t.Rows(g), g.h);
      Scaled(g.scale, t.x, t.Columns(g), g.w);
      assert output(k % 3, row, column) == Some(image(k % 3, t.y * g.scale + row, t.x * g.scale + column));
    } else {
      assert WeightAt(g, t, p) == 0.0;
    }
  }

  /** Tiles that agree on an image add up to that image, however their edges fade. */
  lemma {:induction false} MeanOfCrops(g: Geometry, rgba: seq<byte>, predict: Predictor, image: Image,
                                       tiles: seq<Tile>, laid: seq<Laid>, k: nat)
    requires Laying(g, rgba, tiles, laid) && PredictsCrops(g, rgba, predict, image)
    requires forall i :: 0 <= i < |tiles| ==> tiles[i] in GridOf(g)
    ensures AllFit(g, laid)
    ensures ColourSum(g, predict, laid, k) == Times(Clamp(PixelColour(g, image, k)), WeightSum(g, laid, k / 3))
    decreases |laid|
  {
    if laid == [] {
      Distribute(Clamp(PixelColour(g, image, k)), 0.0, 0.0);
    } else {
      LayingPrefix(g, rgba, tiles, laid);
      assert tiles[|laid| - 1] in GridOf(g);
      assert IsCrop(g, laid[|laid| - 1].tile, predict(laid[|laid| - 1].input), image);
      hide *;
      MeanOfCrops(g, rgba, predict, image, tiles[..|laid| - 1], laid[..|laid| - 1], k);
      MeanOfOneMore(g, predict, image, laid, k);
    }
  }

  lemma MeanOfOneMore(g: Geometry, predict: Predictor, image: Image, laid: seq<Laid>, k: nat)
    requires laid != [] && AllFit(g, laid) && g.Valid()
    requires IsCrop(g, laid[|laid| - 1].tile, predict(laid[|laid| - 1].input), image)
    requires ColourSum(g, predict, laid[..|laid| - 1], k)
          == Times(Clamp(PixelColour(g, image, k)), WeightSum(g, laid[..|laid| - 1], k / 3))
    ensures ColourSum(g, predict, laid, k) == Times(Clamp(PixelColour(g, image, k)), WeightSum(g, laid, k / 3))
  {
    hide *;
    var last := laid[|laid| - 1];
    LastFits(g, laid);
    CropAt(g, last.tile, predict(last.input), image, k);
    SumsGrow(g, predict, laid, k);
    Distribute(Clamp(PixelColour(g, image, k)), WeightSum(g, laid[..|laid| - 1], k / 3), WeightAt(g, last.tile, k / 3));
  }

  lemma LastFits(g: Geometry, laid: seq<Laid>)
    requires laid != [] && AllFit(g, laid)
    ensures laid[|laid| - 1].tile.Fits(g) && AllFit(g, laid[..|laid| - 1])
  {
  }

  lemma SumsGrow(g: Geometry, predict: Predictor, laid: seq<Laid>, k: nat)
    requires AllFit(g, laid) && laid != []
    ensures var n := |laid| - 1;
            && ColourSum(g, predict, laid, k)
               == ColourSum(g, predict, laid[..n], k) + ColourAt(g, laid[n].tile, predict(laid[n].input), k)
            && WeightSum(g, laid, k / 3) == WeightSum(g, laid[..n], k / 3) + WeightAt(g, laid[n].tile, k / 3)
  {
    hide ColourAt, WeightAt;
  }

  lemma LayingPrefix(g: Geometry, rgba: seq<byte>, tiles: seq<Tile>, laid: seq<Laid>)
    requires Laying(g, rgba, tiles, laid) && laid != []
    ensures Laying(g, rgba, tiles[..|laid| - 1], laid[..|laid| - 1])
  {
    hide IsInput, Matches;
  }

  lemma Distribute(a: real, b: real, c: real)
    ensures Times(a, b + c) == Times(a, b) + Times(a, c)
    ensures Times(a, 0.0) == 0.0
  {
  }

  // ---------- neighbouring tiles ----------

  /** The part of a weight that depends on the row only. */
  function RowWeight(g: Geometry, t: Tile, row: nat): real
    requires t.Fits(g) && row < t.Rows(g) * g.scale
  {
    Times(Fade(t.y > 0, row + 1, Ramp(g)), Fade(t.y + t.Rows(g) < g.h, t.Rows(g) * g.scale - row, Ramp(g)))
  }

  /** Two tiles side by side at the regular distance. */
  predicate Neighbours(g: Geometry, left: Tile, right: Tile) {
    && left.Fits(g) && right.Fits(g) && left.y == right.y
    && right.x == left.x + g.TileSide() - g.Overlap() && right.x + g.TileSide() <= g.w
  }

  /** Across the overlap of neighbours one fades out as the other fades in: at every position their
      weights add up to the same total. */
  lemma NeighboursCrossfade(g: Geometry, left: Tile, right: Tile, row: nat, column: nat)
    requires Neighbours(g, left, right) && row < left.Rows(g) * g.scale && column < g.Overlap() * g.scale
    ensures (g.TileSide() - g.Overlap()) * g.scale + column < left.Columns(g) * g.scale
    ensures column < right.Columns(g) * g.scale
    ensures Weight(g, left, row, (g.TileSide() - g.Overlap()) * g.scale + column) + Weight(g, right, row, column)
         == Times(RowWeight(g, left, row), 1.0 + 1.0 / Ramp(g))
  {
    var tile, overlap, s, ramp := g.TileSide(), g.Overlap(), g.scale, Ramp(g);
    NeighbourSizes(g, left, right, column);
    var far := (tile - overlap) * s + column;
    hide Geometry.TileSide, Geometry.Overlap, Tile.Rows, Tile.Columns;
    var top := Fade(left.y > 0, row + 1, ramp);
    var bottom := Fade(left.y + left.Rows(g) < g.h, left.Rows(g) * s - row, ramp);
    var out := Fade(true, tile * s - far, ramp);
    var in_ := Fade(true, column + 1, ramp);
    assert Fade(left.x > 0, far + 1, ramp) == 1.0;
    assert Fade(right.x + tile < g.w, tile * s - column, ramp) == 1.0;
    assert ramp == (overlap * s) as real;
    Complementary(overlap * s, column);
    hide *;
    SameRows(g, left, right, row);
    FourFactors(top, out, bottom);
    FourFactorsIn(in_, top, bottom);
    Distribute(Times(top, bottom), out, in_);
    WeightOf(g, left, row, far);
    WeightOf(g, right, row, column);
  }

  function ColumnWeight(g: Geometry, t: Tile, column: nat): real
    requires t.Fits(g) && column < t.Columns(g) * g.scale
  {
    Times(Fade(t.x > 0, column + 1, Ramp(g)), Fade(t.x + t.Columns(g) < g.w, t.Columns(g) * g.scale - column, Ramp(g)))
  }

  /** Two tiles one below the other at the regular distance. */
  predicate Stacked(g: Geometry, upper: Tile, lower: Tile) {
    && upper.Fits(g) && lower.Fits(g) && upper.x == lower.x
    && lower.y == upper.y + g.TileSide() - g.Overlap() && lower.y + g.TileSide() <= g.h
  }

  /** The same holds for tiles one below the other. */
  lemma StackedCrossfade(g: Geometry, upper: Tile, lower: Tile, row: nat, column: nat)
    requires Stacked(g, upper, lower) && column < upper.Columns(g) * g.scale && row < g.Overlap() * g.scale
    ensures (g.TileSide() - g.Overlap()) * g.scale + row < upper.Rows(g) * g.scale
    ensures row < lower.Rows(g) * g.scale && column < lower.Columns(g) * g.scale
    ensures Weight(g, upper, (g.TileSide() - g.Overlap()) * g.scale + row, column) + Weight(g, lower, row, column)
         == Times(ColumnWeight(g, upper, column), 1.0 + 1.0 / Ramp(g))
  {
    var tile, overlap, s, ramp := g.TileSide(), g.Overlap(), g.scale, Ramp(g);
    StackedSizes(g, upper, lower, row);
    var far := (tile - overlap) * s + row;
    hide Geometry.TileSide, Geometry.Overlap, Tile.Rows, Tile.Columns;
    var left := Fade(upper.x > 0, column + 1, ramp);
    var right := Fade(upper.x + upper.Columns(g) < g.w, upper.Columns(g) * s - column, ramp);
    var out := Fade(true, tile * s - far, ramp);
    var in_ := Fade(true, row + 1, ramp);
    assert Fade(upper.y > 0, far + 1, ramp) == 1.0;
    assert Fade(lower.y + tile < g.h, tile * s - row, ramp) == 1.0;
    assert ramp == (overlap * s) as real;
    Complementary(overlap * s, row);
    assert ColumnWeight(g, upper, column) == Times(left, right);
    hide *;
    LastFactor(left, right, out);
    SecondFactor(left, in_, right);
    Distribute(Times(left, right), out, in_);
    WeightOf(g, upper, far, column);
    WeightOf(g, lower, row, column);
  }

  lemma LastFactor(left: real, right: real, bottom: real)
    ensures Times(Times(Times(left, 1.0), right), bottom) == Times(Times(left, right), bottom)
  {
  }

  lemma SecondFactor(left: real, top: real, right: real)
    ensures Times(Times(Times(left, top), right), 1.0) == Times(Times(left, right), top)
  {
  }

  lemma StackedSizes(g: Geometry, upper: Tile, lower: Tile, row: nat)
    requires Stacked(g, upper, lower) && row < g.Overlap() * g.scale
    ensures upper.Rows(g) == g.TileSide() && lower.Rows(g) == g.TileSide()
    ensures upper.Columns(g) == lower.Columns(g) && upper.y + g.TileSide() < g.h && lower.y > 0
    ensures var far := (g.TileSide() - g.Overlap()) * g.scale + row;
            && g.TileSide() * g.scale - far == g.Overlap() * g.scale - row > 0
            && far + 1 > g.Overlap() * g.scale && g.TileSide() * g.scale - row > g.Overlap() * g.scale
    ensures Ramp(g) == (g.Overlap() * g.scale) as real
  {
    assert 2 * g.Overlap() <= g.TileSide();
  }

  lemma SameRows(g: Geometry, left: Tile, right: Tile, row: nat)
    requires left.Fits(g) && right.Fits(g) && left.y == right.y && row < left.Rows(g) * g.scale
    ensures right.Rows(g) == left.Rows(g) && RowWeight(g, left, row) == RowWeight(g, right, row)
    ensures RowWeight(g, left, row) == Times(Fade(left.y > 0, row + 1, Ramp(g)),
                                             Fade(left.y + left.Rows(g) < g.h, left.Rows(g) * g.scale - row, Ramp(g)))
  {
    hide Fade, Times, Ramp;
  }

  lemma WeightOf(g: Geometry, t: Tile, row: nat, column: nat)
    requires t.Fits(g) && row < t.Rows(g) * g.scale && column < t.Columns(g) * g.scale
    ensures Weight(g, t, row, column) ==
              Times(Times(Times(Fade(t.x > 0, column + 1, Ramp(g)), Fade(t.y > 0, row + 1, Ramp(g))),
                          Fade(t.x + t.Columns(g) < g.w, t.Columns(g) * g.scale - column, Ramp(g))),
                    Fade(t.y + t.Rows(g) < g.h, t.Rows(g) * g.scale - row, Ramp(g)))
  {
    hide Fade, Times, Ramp, Tile.Rows, Tile.Columns;
  }

  lemma NeighbourSizes(g: Geometry, left: Tile, right: Tile, column: nat)
    requires Neighbours(g, left, right) && column < g.Overlap() * g.scale
    ensures left.Columns(g) == g.TileSide() && right.Columns(g) == g.TileSide()
    ensures left.Rows(g) == right.Rows(g) && left.x + g.TileSide() < g.w && right.x > 0
    ensures var far := (g.TileSide() - g.Overlap()) * g.scale + column;
            && g.TileSide() * g.scale - far == g.Overlap() * g.scale - column > 0
            && far + 1 > g.Overlap() * g.scale && g.TileSide() * g.scale - column > g.Overlap() * g.scale
    ensures Ramp(g) == (g.Overlap() * g.scale) as real
  {
    assert 2 * g.Overlap() <= g.TileSide();
  }

  lemma Complementary(n: nat, k: nat)
    requires k < n
    ensures Fade(true, n - k, n as real) + Fade(true, k + 1, n as real) == 1.0 + 1.0 / n as real
  {
    var ramp := n as real;
    assert (n - k) as real / ramp + (k + 1) as real / ramp == ((n - k) as real + (k + 1) as real) / ramp;
    assert ramp / ramp == 1.0;
  }

  lemma FourFactors(top: real, right: real, bottom: real)
    ensures Times(Times(Times(1.0, top), right), bottom) == Times(Times(top, bottom), right)
  {
  }

  lemma FourFactorsIn(left: real, top: real, bottom: real)
    ensures Times(Times(Times(left, top), 1.0), bottom) == Times(Times(top, bottom), left)
  {
  }

  // ---------- alpha ----------

  /** The source position of an output row or column, held inside the image. */
  function Position(n: nat, scale: nat, length: nat): (r: real)
    requires scale > 0 && length > 0
    ensures 0.0 <= r <= (length - 1) as real
  {
    var centre := (n as real + 0.5) / scale as real - 0.5;
    var upper := (length - 1) as real;
    var capped := if centre < upper then centre else upper;
    if capped < 0.0 then 0.0 else capped
  }

  function Mix(a: real, b: real, f: real): real { a * (1.0 - f) + b * f }

  lemma MixWithin(a: real, b: real, f: real, lo: real, hi: real)
    requires 0.0 <= f <= 1.0 && lo <= a <= hi && lo <= b <= hi
    ensures lo <= Mix(a, b, f) <= hi
  {
    var e := 1.0 - f;
    assert Mix(a, b, f) - lo == (a - lo) * e + (b - lo) * f;
    assert hi - Mix(a, b, f) == (hi - a) * e + (hi - b) * f;
    NonNegative(a - lo, e);
    NonNegative(b - lo, f);
    NonNegative(hi - a, e);
    NonNegative(hi - b, f);
  }

  lemma NonNegative(a: real, b: real)
    requires a >= 0.0 && b >= 0.0
    ensures a * b >= 0.0
  {
  }

  function SourceAlpha(g: Geometry, rgba: seq<byte>, column: nat, row: nat): real
    requires Matches(g, rgba) && column < g.w && row < g.h
  {
    PixelInRange(g.w, g.h, row, column);
    rgba[4 * (row * g.w + column) + 3] as real
  }

  /** Bilinear between the four nearest source pixels. */
  function Alpha(g: Geometry, rgba: seq<byte>, row: nat, column: nat): real
    requires g.Valid() && Matches(g, rgba)
  {
    var sy, sx := Position(row, g.scale, g.h), Position(column, g.scale, g.w);
    var y0, x0 := sy.Floor, sx.Floor;
    var fy, fx := sy - y0 as real, sx - x0 as real;
    var x1, y1 := Min(g.w - 1, x0 + 1), Min(g.h - 1, y0 + 1);
    Mix(Mix(SourceAlpha(g, rgba, x0, y0), SourceAlpha(g, rgba, x1, y0), fx),
        Mix(SourceAlpha(g, rgba, x0, y1), SourceAlpha(g, rgba, x1, y1), fx), fy)
  }

  /** Resampled alpha stays within the range of the source: opaque images stay opaque. */
  lemma AlphaWithin(g: Geometry, rgba: seq<byte>, row: nat, column: nat, lo: real, hi: real)
    requires g.Valid() && Matches(g, rgba)
    requires forall x: nat, y: nat :: x < g.w && y < g.h ==> lo <= SourceAlpha(g, rgba, x, y) <= hi
    ensures lo <= Alpha(g, rgba, row, column) <= hi
  {
    var sy, sx := Position(row, g.scale, g.h), Position(column, g.scale, g.w);
    var y0, x0 := sy.Floor, sx.Floor;
    var fy, fx := sy - y0 as real, sx - x0 as real;
    var x1, y1 := Min(g.w - 1, x0 + 1), Min(g.h - 1, y0 + 1);
    hide SourceAlpha, Mix, Position;
    MixWithin(SourceAlpha(g, rgba, x0, y0), SourceAlpha(g, rgba, x1, y0), fx, lo, hi);
    MixWithin(SourceAlpha(g, rgba, x0, y1), SourceAlpha(g, rgba, x1, y1), fx, lo, hi);
    MixWithin(Mix(SourceAlpha(g, rgba, x0, y0), SourceAlpha(g, rgba, x1, y0), fx),
              Mix(SourceAlpha(g, rgba, x0, y1), SourceAlpha(g, rgba, x1, y1), fx), fy, lo, hi);
  }

  /** Between the centres of the source pixels alpha is interpolated linearly in both directions: a
      plane is reproduced. */
  lemma AlphaReproducesPlanes(g: Geometry, rgba: seq<byte>, row: nat, column: nat, a: real, b: real, c: real)
    requires g.Valid() && Matches(g, rgba)
    requires forall x: nat, y: nat :: x < g.w && y < g.h ==> SourceAlpha(g, rgba, x, y) == Plane(a, b, c, x as real, y as real)
    ensures Alpha(g, rgba, row, column) == Plane(a, b, c, Position(column, g.scale, g.w), Position(row, g.scale, g.h))
  {
    var sy, sx := Position(row, g.scale, g.h), Position(column, g.scale, g.w);
    var y0, x0 := sy.Floor, sx.Floor;
    var fy, fx := sy - y0 as real, sx - x0 as real;
    var x1, y1 := Min(g.w - 1, x0 + 1), Min(g.h - 1, y0 + 1);
    assert x1 == x0 + 1 || fx == 0.0;
    assert y1 == y0 + 1 || fy == 0.0;
    hide SourceAlpha, Position, Matches;
    MixAlongX(a, b, c, x0 as real, x1 as real, y0 as real, fx);
    MixAlongX(a, b, c, x0 as real, x1 as real, y1 as real, fx);
    MixAlongY(a, b, c, sx, y0 as real, y1 as real, fy);
    hide Plane, Mix;
  }

  function Plane(a: real, b: real, c: real, x: real, y: real): real { a + b * x + c * y }

  lemma MixAlongX(a: real, b: real, c: real, x0: real, x1: real, y: real, f: real)
    requires x1 == x0 + 1.0 || f == 0.0
    ensures Mix(Plane(a, b, c, x0, y), Plane(a, b, c, x1, y), f) == Plane(a, b, c, x0 + f, y)
  {
    if x1 == x0 + 1.0 {
      assert b * x1 == b * x0 + b;
      assert b * (x0 + f) == b * x0 + b * f;
    }
  }

  lemma MixAlongY(a: real, b: real, c: real, x: real, y0: real, y1: real, f: real)
    requires y1 == y0 + 1.0 || f == 0.0
    ensures Mix(Plane(a, b, c, x, y0), Plane(a, b, c, x, y1), f) == Plane(a, b, c, x, y0 + f)
  {
    if y1 == y0 + 1.0 {
      assert c * y1 == c * y0 + c;
      assert c * (y0 + f) == c * y0 + c * f;
    }
  }

  lemma AlphaIsByte(g: Geometry, rgba: seq<byte>, row: nat, column: nat)
    requires g.Valid() && Matches(g, rgba)
    ensures 0.0 <= Alpha(g, rgba, row, column) <= 255.0
  {
    forall x: nat, y: nat | x < g.w && y < g.h ensures 0.0 <= SourceAlpha(g, rgba, x, y) <= 255.0 {
      PixelInRange(g.w, g.h, y, x);
    }
    AlphaWithin(g, rgba, row, column, 0.0, 255.0);
  }

  // ---------- bytes ----------

  /** Nearest integer, halves away from zero. */
  function Round(v: real): int { if v >= 0.0 then (v + 0.5).Floor else -((0.5 - v).Floor) }

  lemma RoundMonotone(a: real, b: real)
    requires 0.0 <= a <= b <= 255.0
    ensures 0 <= Round(a) <= Round(b) <= 255
  {
  }

  function ColourByte(mean: real, alpha: real): (b: int)
    ensures 0 <= b <= 255
  {
    var v := Round(Times(mean, alpha));
    if v < 0 then 0 else if v > 255 then 255 else v
  }

  /** Colour at most alpha, as premultiplied pixels require. */
  lemma ColourAtMostAlpha(mean: real, alpha: real)
    requires 0.0 <= mean <= 1.0 && 0.0 <= alpha <= 255.0
    ensures ColourByte(mean, alpha) == Round(Times(mean, alpha)) <= Round(alpha) <= 255
  {
    PartOf(mean, alpha);
    RoundMonotone(Times(mean, alpha), alpha);
  }

  lemma Quotient(v: real, weight: real)
    requires weight > 0.0
    ensures Times(v, weight) / weight == v
  {
  }

  lemma MeanQuotient(sum: real, weight: real)
    requires 0.0 <= sum <= weight && weight > 0.0
    ensures 0.0 <= sum / weight <= 1.0
  {
  }

  /** What byte k of the result must be. */
  function ByteAt(g: Geometry, rgba: seq<byte>, weight: real, colour: real, k: nat): int
    requires g.Valid() && Matches(g, rgba) && weight > 0.0
  {
    hide Alpha, ColourByte, Round, Matches, Geometry.Width;
    var p := k / 4;
    var alpha := Alpha(g, rgba, g.Row(p), g.Column(p));
    if k % 4 == 3 then Round(alpha) else ColourByte(colour / weight, alpha)
  }

  function ColourIndex(k: nat): nat { 3 * (k / 4) + if k % 4 < 3 then k % 4 else 0 }

  /** The first bytes of the result are done. */
  ghost predicate Composed(g: Geometry, rgba: seq<byte>, weights: array<real>, rgb: array<real>, result: array<byte>,
                           count: nat)
    requires g.Valid() && Matches(g, rgba) && Buffers(g, weights, rgb)
    requires count <= result.Length == 4 * weights.Length
    reads weights, rgb, result
  {
    forall k: nat :: k < count ==>
      weights[k / 4] > 0.0 && result[k] == ByteAt(g, rgba, weights[k / 4], rgb[ColourIndex(k)], k)
  }

  lemma BytesOfPixel(g: Geometry, rgba: seq<byte>, weight: real, colour: real, i: nat, c: nat)
    requires g.Valid() && Matches(g, rgba) && weight > 0.0 && c < 4
    ensures (4 * i + c) / 4 == i && (c < 3 ==> ColourIndex(4 * i + c) == 3 * i + c) && (c == 3 ==> ColourIndex(4 * i + c) == 3 * i)
    ensures ByteAt(g, rgba, weight, colour, 4 * i + c)
         == if c == 3 then Round(Alpha(g, rgba, g.Row(i), g.Column(i)))
            else ColourByte(colour / weight, Alpha(g, rgba, g.Row(i), g.Column(i)))
  {
    hide Alpha, Round, ColourByte, Matches, Geometry.Row, Geometry.Column;
  }

  /** Four bytes of one pixel. */
  method ComposePixel(g: Geometry, rgba: seq<byte>, row: nat, column: nat, i: nat,
                      weights: array<real>, rgb: array<real>, result: array<byte>)
    requires g.Valid() && Matches(g, rgba) && Buffers(g, weights, rgb)
    requires i < weights.Length && row == g.Row(i) && column == g.Column(i) && weights[i] > 0.0
    requires result.Length == 4 * weights.Length && Composed(g, rgba, weights, rgb, result, 4 * i)
    modifies result
    ensures Composed(g, rgba, weights, rgb, result, 4 * (i + 1))
  {
    hide Alpha, ColourByte, Round, Matches, Geometry.Row, Geometry.Column, Geometry.Pixels, ByteAt, ColourIndex, Times,
      Geometry.Width, Geometry.Height, Geometry.Valid;
    var alpha := Alpha(g, rgba, row, column);
    AlphaIsByte(g, rgba, row, column);
    RoundMonotone(alpha, alpha);
    var c := 0;
    while c < 3
      invariant c <= 3
      invariant Composed(g, rgba, weights, rgb, result, 4 * i + c)
    {
      BytesOfPixel(g, rgba, weights[i], rgb[i * 3 + c], i, c);
      result[i * 4 + c] := ColourByte(rgb[i * 3 + c] / weights[i], alpha);
      c := c + 1;
    }
    BytesOfPixel(g, rgba, weights[i], rgb[i * 3], i, 3);
    result[i * 4 + 3] := Round(alpha);
  }

  method Compose(g: Geometry, rgba: seq<byte>, weights: array<real>, rgb: array<real>) returns (result: array<byte>)
    requires g.Valid() && Matches(g, rgba) && Buffers(g, weights, rgb)
    requires forall p: nat :: p < weights.Length ==> weights[p] > 0.0
    ensures fresh(result) && result.Length == 4 * weights.Length
    ensures Composed(g, rgba, weights, rgb, result, result.Length)
  {
    result := new byte[4 * weights.Length](_ => 0);
    RowsMeet(g, 0, 0);
    for y := 0 to g.Height()
      invariant g.First(y) <= weights.Length
      invariant Composed(g, rgba, weights, rgb, result, 4 * g.First(y))
    {
      for x := 0 to g.Width()
        invariant g.First(y) + x <= weights.Length
        invariant Composed(g, rgba, weights, rgb, result, 4 * (g.First(y) + x))
      {
        RowsMeet(g, y, x);
        hide *;
        ComposePixel(g, rgba, y, x, g.First(y) + x, weights, rgb, result);
      }
      RowsMeet(g, y, 0);
    }
  }

  /** Rows follow each other without a gap. */
  lemma RowsMeet(g: Geometry, y: nat, x: nat)
    requires g.Valid() && y < g.Height() && x < g.Width()
    ensures g.First(0) == 0 && g.First(g.Height()) == g.Pixels()
    ensures g.First(y) + g.Width() == g.First(y + 1) <= g.Pixels()
    ensures g.Row(g.First(y) + x) == y && g.Column(g.First(y) + x) == x
  {
    RowFits(g.Width(), g.Height(), y);
    UniqueMod(g.First(y) + x, y, x, g.Width());
  }

  lemma RowFits(w: nat, h: nat, y: nat)
    requires y < h
    ensures y * w + w == (y + 1) * w <= w * h
  {
  }

  // ---------- the whole rendering ----------

  /** The byte that the image itself gives, with the resampled alpha. */
  function UntiledByte(g: Geometry, rgba: seq<byte>, image: Image, k: nat): int
    requires g.Valid() && Matches(g, rgba)
  {
    var p := k / 4;
    var alpha := Alpha(g, rgba, g.Row(p), g.Column(p));
    if k % 4 == 3 then Round(alpha)
    else Round(Times(Clamp(image(k % 4, g.Row(p), g.Column(p))), alpha))
  }

  /** Colour never exceeds alpha. */
  lemma ByteWithin(g: Geometry, rgba: seq<byte>, weight: real, colour: real, k: nat)
    requires g.Valid() && Matches(g, rgba) && 0.0 <= colour <= weight && weight > 0.0
    ensures 0 <= ByteAt(g, rgba, weight, colour, k)
              <= Round(Alpha(g, rgba, g.Row(k / 4), g.Column(k / 4))) <= 255
  {
    var p := k / 4;
    var alpha := Alpha(g, rgba, g.Row(p), g.Column(p));
    AlphaIsByte(g, rgba, g.Row(p), g.Column(p));
    MeanQuotient(colour, weight);
    ColourAtMostAlpha(colour / weight, alpha);
    RoundMonotone(alpha, alpha);
    hide Alpha, Round, ColourByte, Matches;
  }

  lemma AlphaByte(g: Geometry, rgba: seq<byte>, weight: real, colour: real, k: nat)
    requires g.Valid() && Matches(g, rgba) && weight > 0.0 && k % 4 == 3
    ensures ByteAt(g, rgba, weight, colour, k) == Round(Alpha(g, rgba, g.Row(k / 4), g.Column(k / 4)))
  {
    hide Alpha, Round;
  }

  /** When the sums are a multiple of the image, the byte is that of the image. */
  lemma ByteOfMean(g: Geometry, rgba: seq<byte>, image: Image, weight: real, k: nat)
    requires g.Valid() && Matches(g, rgba) && weight > 0.0
    ensures ByteAt(g, rgba, weight, Times(Clamp(PixelColour(g, image, ColourIndex(k))), weight), k)
         == UntiledByte(g, rgba, image, k)
  {
    var p := k / 4;
    var alpha := Alpha(g, rgba, g.Row(p), g.Column(p));
    var v := Clamp(PixelColour(g, image, ColourIndex(k)));
    AlphaIsByte(g, rgba, g.Row(p), g.Column(p));
    Quotient(v, weight);
    ColourAtMostAlpha(v, alpha);
    assert ColourIndex(k) / 3 == p && (k % 4 < 3 ==> ColourIndex(k) % 3 == k % 4);
    hide Alpha, Round, ColourByte, Matches, Times, Clamp, ColourIndex;
  }

  /** What was blended is all that could have been predicted. */
  lemma BlendedIsUsable(g: Geometry, rgba: seq<byte>, predict: Predictor, laid: seq<Laid>)
    requires g.Valid() && Laying(g, rgba, GridOf(g), laid) && AllFit(g, laid) && AllFinite(g, predict, laid)
    ensures !Unusable(g, rgba, predict)
  {
    hide IsInput, Finite, GridOf, Matches;
    forall t: Tile, input: seq<real> | t in GridOf(g) && t.Fits(g) && IsInput(g, rgba, t, input)
      ensures Finite(g, t, predict(input), t.Rows(g) * g.scale)
    {
      var i :| 0 <= i < |GridOf(g)| && GridOf(g)[i] == t;
      InputIsUnique(g, rgba, t, input, laid[i].input);
    }
  }

  lemma CropsAreUsable(g: Geometry, rgba: seq<byte>, predict: Predictor, image: Image)
    requires g.Valid() && Matches(g, rgba) && PredictsCrops(g, rgba, predict, image)
    ensures !Unusable(g, rgba, predict)
  {
    hide IsInput, Matches, Tile.Rows, Tile.Columns, GridOf;
    forall t: Tile, input: seq<real> | t in GridOf(g) && t.Fits(g) && IsInput(g, rgba, t, input)
      ensures Finite(g, t, predict(input), t.Rows(g) * g.scale)
    {
      assert IsCrop(g, t, predict(input), image);
    }
  }

  /** A byte of a premultiplied image; that of the image itself if the tiles are crops of it. */
  ghost predicate RightByte(g: Geometry, rgba: seq<byte>, predict: Predictor, image: Image, b: int, k: nat)
    requires g.Valid() && Matches(g, rgba)
  {
    var alpha := Round(Alpha(g, rgba, g.Row(k / 4), g.Column(k / 4)));
    && 0 <= b <= alpha <= 255
    && (k % 4 == 3 ==> b == alpha)
    && (PredictsCrops(g, rgba, predict, image) ==> b == UntiledByte(g, rgba, image, k))
  }

  lemma BlendedBytes(g: Geometry, rgba: seq<byte>, predict: Predictor, image: Image, laid: seq<Laid>, k: nat)
    requires g.Valid() && Laying(g, rgba, GridOf(g), laid) && k < 4 * g.Pixels()
    ensures AllFit(g, laid) && WeightSum(g, laid, k / 4) > 0.0
    ensures RightByte(g, rgba, predict, image,
                      ByteAt(g, rgba, WeightSum(g, laid, k / 4), ColourSum(g, predict, laid, ColourIndex(k)), k), k)
  {
    assert ColourIndex(k) / 3 == k / 4;
    EveryWeightIsPositive(g, rgba, laid, k / 4);
    MeanWithin(g, predict, laid, ColourIndex(k));
    if PredictsCrops(g, rgba, predict, image) {
      MeanOfCrops(g, rgba, predict, image, GridOf(g), laid, ColourIndex(k));
    }
    if k % 4 == 3 { AlphaByte(g, rgba, WeightSum(g, laid, k / 4), ColourSum(g, predict, laid, ColourIndex(k)), k); }
    hide Alpha, Round, ByteAt, WeightSum, ColourSum, Laying, GridOf, PredictsCrops, UntiledByte, ColourIndex,
      Geometry.Row, Geometry.Column, Geometry.Pixels, Matches, Clamp, PixelColour, Times;
    ByteWithin(g, rgba, WeightSum(g, laid, k / 4), ColourSum(g, predict, laid, ColourIndex(k)), k);
    ByteOfMean(g, rgba, image, WeightSum(g, laid, k / 4), k);
  }

  const MAX_PIXELS := 64 * 1024 * 1024

  /** Images and models that are not refused at once. */
  predicate Allowed(g: Geometry) {
    g.Valid() && g.w <= 8192 && g.h <= 8192 && g.w * g.h <= MAX_PIXELS / (g.scale * g.scale)
  }

  /** Tiled rendering. The result always is a premultiplied image of bytes; and if the tiles are
      predicted as crops of one image, it is that image, whatever the tiling. */
  method Render(g: Geometry, rgba: seq<byte>, predict: Predictor, ghost image: Image)
    returns (ok: bool, result: array<byte>)
    requires Matches(g, rgba)
    ensures ok <==> Allowed(g) && !Unusable(g, rgba, predict)
    ensures ok ==> result.Length == 4 * g.Pixels()
    ensures Allowed(g) && PredictsCrops(g, rgba, predict, image) ==> ok
    ensures ok ==> forall k: nat :: k < result.Length ==> RightByte(g, rgba, predict, image, result[k], k)
  {
    if !Allowed(g) {
      ok, result := false, new byte[0];
      return;
    }
    hide RightByte, ByteAt, Geometry.Pixels, Matches, Laying, PredictsCrops, Unusable, GridOf, Alpha, AllFinite;
    if PredictsCrops(g, rgba, predict, image) { CropsAreUsable(g, rgba, predict, image); }
    var weights := new real[g.Pixels()](_ => 0.0);
    var rgb := new real[3 * g.Pixels()](_ => 0.0);
    ghost var laid;
    ok, laid := Blend(g, rgba, predict, weights, rgb);
    if !ok {
      result := new byte[0];
      return;
    }
    BlendedIsUsable(g, rgba, predict, laid);
    BuffersAreRight(g, rgba, predict, image, laid, weights, rgb);
    hide Blended, Composed, Buffers, ColourIndex;
    result := Compose(g, rgba, weights, rgb);
    ResultIsRight(g, rgba, predict, image, weights, rgb, result);
  }

  /** Every byte that the buffers give is right. */
  ghost predicate RightBuffers(g: Geometry, rgba: seq<byte>, predict: Predictor, image: Image,
                               weights: array<real>, rgb: array<real>)
    requires g.Valid() && Matches(g, rgba) && Buffers(g, weights, rgb)
    reads weights, rgb
  {
    && (forall p: nat :: p < weights.Length ==> weights[p] > 0.0)
    && (forall k: nat :: k < 4 * weights.Length ==>
          RightByte(g, rgba, predict, image, ByteAt(g, rgba, weights[k / 4], rgb[ColourIndex(k)], k), k))
  }

  lemma BuffersAreRight(g: Geometry, rgba: seq<byte>, predict: Predictor, image: Image, laid: seq<Laid>,
                        weights: array<real>, rgb: array<real>)
    requires g.Valid() && Matches(g, rgba) && Buffers(g, weights, rgb)
    requires Blended(g, rgba, predict, GridOf(g), laid, weights, rgb)
    ensures RightBuffers(g, rgba, predict, image, weights, rgb)
  {
    hide RightByte, ByteAt, Geometry.Pixels, Matches, Laying, GridOf, AllFinite, WeightSum, ColourSum;
    forall k: nat | k < 4 * weights.Length
      ensures weights[k / 4] > 0.0
      ensures RightByte(g, rgba, predict, image, ByteAt(g, rgba, weights[k / 4], rgb[ColourIndex(k)], k), k)
    {
      BlendedBytes(g, rgba, predict, image, laid, k);
    }
    forall p: nat | p < weights.Length ensures weights[p] > 0.0 { assert weights[(4 * p) / 4] > 0.0; }
  }

  lemma ResultIsRight(g: Geometry, rgba: seq<byte>, predict: Predictor, image: Image,
                      weights: array<real>, rgb: array<real>, result: array<byte>)
    requires g.Valid() && Matches(g, rgba) && Buffers(g, weights, rgb) && RightBuffers(g, rgba, predict, image, weights, rgb)
    requires result.Length == 4 * weights.Length && Composed(g, rgba, weights, rgb, result, result.Length)
    ensures forall k: nat :: k < result.Length ==> RightByte(g, rgba, predict, image, result[k], k)
  {
    hide RightByte, ByteAt, Matches;
  }

  // ---------- a model that works pixel by pixel ----------

  /** Every output colour is a function of the input colour at its place. */
  ghost predicate IsLocal(g: Geometry, predict: Predictor, f: real -> real)
    requires g.Valid()
  {
    forall input: seq<real>, c: nat, row: nat, column: nat ::
      c < 3 && row < g.size * g.scale && column < g.size * g.scale && |input| == 3 * g.size * g.size ==>
        Cell(g.size, c, row / g.scale, column / g.scale) < |input|
        && predict(input)(c, row, column) == Some(f(input[Cell(g.size, c, row / g.scale, column / g.scale)]))
  }

  /** The same model applied to the whole image at once. */
  function Untiled(g: Geometry, rgba: seq<byte>, f: real -> real): Image
    requires g.Valid() && Matches(g, rgba)
  {
    (c: nat, row: nat, column: nat) =>
      if c < 3 && row / g.scale < g.h && column / g.scale < g.w
      then f(At(g, rgba, c, row / g.scale, column / g.scale)) else 0.0
  }

  function At(g: Geometry, rgba: seq<byte>, c: nat, row: nat, column: nat): real
    requires Matches(g, rgba) && c < 3 && row < g.h && column < g.w
  {
    PixelInRange(g.w, g.h, row, column);
    Straight(rgba, row * g.w + column, c)
  }

  /** Inside a tile the padded input is the image itself. */
  lemma InputIsImage(g: Geometry, rgba: seq<byte>, t: Tile, c: nat, row: nat, column: nat)
    requires t.Fits(g) && Matches(g, rgba) && c < 3 && row < t.Rows(g) && column < t.Columns(g)
    ensures InputAt(g, rgba, t, c, row, column) == At(g, rgba, c, t.y + row, t.x + column)
  {
    if t.Rows(g) > 1 { ReflectLaws(row, 0, t.Rows(g)); }
    if t.Columns(g) > 1 { ReflectLaws(column, 0, t.Columns(g)); }
    hide Reflect, Straight, Tile.Rows, Tile.Columns;
  }

  lemma Split(s: nat, start: nat, n: nat, limit: nat)
    requires (s == 2 || s == 4) && n < limit * s
    ensures (start * s + n) / s == start + n / s && n / s < limit
  {
  }

  /** Tiling such a model changes nothing. */
  lemma LocalModelPredictsCrops(g: Geometry, rgba: seq<byte>, predict: Predictor, f: real -> real)
    requires g.Valid() && Matches(g, rgba) && IsLocal(g, predict, f)
    ensures PredictsCrops(g, rgba, predict, Untiled(g, rgba, f))
  {
    hide GridOf;
    forall t: Tile, input: seq<real> | t in GridOf(g) && t.Fits(g) && IsInput(g, rgba, t, input)
      ensures IsCrop(g, t, predict(input), Untiled(g, rgba, f))
    {
      forall c: nat, row: nat, column: nat
        | c < 3 && row < t.Rows(g) * g.scale && column < t.Columns(g) * g.scale
        ensures predict(input)(c, row, column)
             == Some(Untiled(g, rgba, f)(c, t.y * g.scale + row, t.x * g.scale + column))
      {
        LocalCrop(g, rgba, predict, f, t, input, c, row, column);
      }
    }
  }

  lemma LocalCrop(g: Geometry, rgba: seq<byte>, predict: Predictor, f: real -> real, t: Tile, input: seq<real>,
                  c: nat, row: nat, column: nat)
    requires g.Valid() && Matches(g, rgba) && IsLocal(g, predict, f) && t.Fits(g) && IsInput(g, rgba, t, input)
    requires c < 3 && row < t.Rows(g) * g.scale && column < t.Columns(g) * g.scale
    ensures predict(input)(c, row, column)
         == Some(Untiled(g, rgba, f)(c, t.y * g.scale + row, t.x * g.scale + column))
  {
    hide InputAt, At, Matches, Cell, Tile.Rows, Tile.Columns, Geometry.TileSide, Geometry.Overlap;
    Split(g.scale, t.y, row, t.Rows(g));
    Split(g.scale, t.x, column, t.Columns(g));
    InputIsImage(g, rgba, t, c, row / g.scale, column / g.scale);
    Scaled(g.scale, 0, t.Rows(g), g.size);
    Scaled(g.scale, 0, t.Columns(g), g.size);
    assert predict(input)(c, row, column) == Some(f(input[Cell(g.size, c, row / g.scale, column / g.scale)]));
  }

  /** Such a model for every function of one colour. */
  function Pixelwise(g: Geometry, f: real -> real): Predictor
    requires g.Valid()
  {
    (input: seq<real>) => (c: nat, row: nat, column: nat) =>
      var k := Cell(g.size, c, row / g.scale, column / g.scale);
      if k < |input| then Some(f(input[k])) else None
  }

  lemma PixelwiseIsLocal(g: Geometry, f: real -> real)
    requires g.Valid()
    ensures IsLocal(g, Pixelwise(g, f), f)
  {
    forall c: nat, row: nat, column: nat | c < 3 && row < g.size * g.scale && column < g.size * g.scale
      ensures Cell(g.size, c, row / g.scale, column / g.scale) < 3 * g.size * g.size
    {
      SourceOf(g.scale, row, g.size);
      SourceOf(g.scale, column, g.size);
      CellInRange(g.size, c, row / g.scale, column / g.scale);
    }
    hide Cell;
  }
}
