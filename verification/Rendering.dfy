/**
 Rendering from end to end, stated on the bytes of the source and of the result, for models that
 work pixel by pixel.
 */
module Rendering {
  import opened Words
  import opened Wrappers
  import opened Tiling
  import opened Upscaler
  import opened Compositing

  /** The source pixel under an output pixel. */
  function SourceUnder(g: Geometry, row: nat, column: nat): (i: nat)
    requires g.Valid() && row < g.h * g.scale && column < g.w * g.scale
    ensures i < g.w * g.h
  {
    SourceOf(g.scale, row, g.h);
    SourceOf(g.scale, column, g.w);
    PixelInRange(g.w, g.h, row / g.scale, column / g.scale);
    row / g.scale * g.w + column / g.scale
  }

  function OutputUnder(g: Geometry, row: nat, column: nat): (p: nat)
    requires g.Valid() && row < g.h * g.scale && column < g.w * g.scale
    ensures p < (g.w * g.scale) * (g.h * g.scale)
  {
    PixelInRange(g.w * g.scale, g.h * g.scale, row, column);
    row * (g.w * g.scale) + column
  }

  /** Colour c of a source pixel, on the scale of the model: straight, that is without its alpha. */
  function ModelColour(rgba: seq<byte>, i: nat, c: nat): real
    requires c < 3 && 4 * i + 3 < |rgba|
  {
    var colour, alpha := rgba[4 * i + c] as real, rgba[4 * i + 3] as real;
    if alpha == 0.0 then 0.0 else colour / alpha
  }

  lemma RowAndColumn(g: Geometry, row: nat, column: nat)
    requires g.Valid() && row < g.h * g.scale && column < g.w * g.scale
    ensures g.Row(OutputUnder(g, row, column)) == row && g.Column(OutputUnder(g, row, column)) == column
    ensures row / g.scale < g.h && column / g.scale < g.w
  {
    UniqueMod(OutputUnder(g, row, column), row, column, g.Width());
    SourceOf(g.scale, row, g.h);
    SourceOf(g.scale, column, g.w);
  }

  lemma UntiledPixel(g: Geometry, rgba: seq<byte>, f: real -> real, row: nat, column: nat, c: nat)
    requires g.Valid() && Matches(g, rgba) && row < g.h * g.scale && column < g.w * g.scale && c < 4
    ensures UntiledByte(g, rgba, Untiled(g, rgba, f), 4 * OutputUnder(g, row, column) + c)
         == if c == 3 then Round(Alpha(g, rgba, row, column))
            else Round(Times(Clamp(f(ModelColour(rgba, SourceUnder(g, row, column), c))), Alpha(g, rgba, row, column)))
  {
    RowAndColumn(g, row, column);
    var p := OutputUnder(g, row, column);
    hide Alpha, Round, Times, Clamp, Geometry.Row, Geometry.Column, OutputUnder;
    assert (4 * p + c) / 4 == p && (4 * p + c) % 4 == c;
    if c < 3 {
      assert At(g, rgba, c, row / g.scale, column / g.scale) == ModelColour(rgba, SourceUnder(g, row, column), c);
    }
  }

  /** One pixel of the result: each colour is the model's function of the colour of the source pixel
      below, times the resampled alpha. */
  predicate IsPixel(g: Geometry, rgba: seq<byte>, f: real -> real, result: seq<byte>, row: nat, column: nat)
    requires g.Valid() && |rgba| == 4 * (g.w * g.h) && row < g.h * g.scale && column < g.w * g.scale
    requires |result| == 4 * ((g.w * g.scale) * (g.h * g.scale))
  {
    var k, alpha := 4 * OutputUnder(g, row, column), Alpha(g, rgba, row, column);
    && (forall c: nat :: c < 3 ==>
          result[k + c] as int == Round(Times(Clamp(f(ModelColour(rgba, SourceUnder(g, row, column), c))), alpha)))
    && result[k + 3] as int == Round(alpha)
  }

  function ByteOf(g: Geometry, rgba: seq<byte>, f: real -> real, row: nat, column: nat, c: nat): int
    requires g.Valid() && |rgba| == 4 * (g.w * g.h) && row < g.h * g.scale && column < g.w * g.scale && c < 4
  {
    if c == 3 then Round(Alpha(g, rgba, row, column))
    else Round(Times(Clamp(f(ModelColour(rgba, SourceUnder(g, row, column), c))), Alpha(g, rgba, row, column)))
  }

  lemma ByteIsRendered(g: Geometry, rgba: seq<byte>, predict: Predictor, f: real -> real, result: seq<byte>,
                       row: nat, column: nat, c: nat)
    requires g.Valid() && |rgba| == 4 * (g.w * g.h) && row < g.h * g.scale && column < g.w * g.scale && c < 4
    requires |result| == 4 * ((g.w * g.scale) * (g.h * g.scale))
    requires PredictsCrops(g, rgba, predict, Untiled(g, rgba, f))
    requires forall k: nat :: k < |result| ==> RightByte(g, rgba, predict, Untiled(g, rgba, f), result[k], k)
    ensures result[4 * OutputUnder(g, row, column) + c] as int == ByteOf(g, rgba, f, row, column, c)
  {
    UntiledPixel(g, rgba, f, row, column, c);
    var k := 4 * OutputUnder(g, row, column) + c;
    hide UntiledByte, Untiled, PredictsCrops, Alpha, Round, Times, Clamp, ModelColour, SourceUnder, OutputUnder;
    assert RightByte(g, rgba, predict, Untiled(g, rgba, f), result[k], k);
  }

  lemma PixelIsRendered(g: Geometry, rgba: seq<byte>, predict: Predictor, f: real -> real, result: seq<byte>,
                        row: nat, column: nat)
    requires g.Valid() && |rgba| == 4 * (g.w * g.h) && row < g.h * g.scale && column < g.w * g.scale
    requires |result| == 4 * ((g.w * g.scale) * (g.h * g.scale))
    requires PredictsCrops(g, rgba, predict, Untiled(g, rgba, f))
    requires forall k: nat :: k < |result| ==> RightByte(g, rgba, predict, Untiled(g, rgba, f), result[k], k)
    ensures IsPixel(g, rgba, f, result, row, column)
  {
    hide RightByte, UntiledByte, Untiled, PredictsCrops, Alpha, Round, Times, Clamp, ModelColour, SourceUnder, OutputUnder;
    ByteIsRendered(g, rgba, predict, f, result, row, column, 0);
    ByteIsRendered(g, rgba, predict, f, result, row, column, 1);
    ByteIsRendered(g, rgba, predict, f, result, row, column, 2);
    ByteIsRendered(g, rgba, predict, f, result, row, column, 3);
  }

  /** Whatever function of one colour the model is. */
  method RenderPixelwise(g: Geometry, rgba: seq<byte>, f: real -> real) returns (ok: bool, result: array<byte>)
    requires |rgba| == 4 * (g.w * g.h)
    ensures ok <==> Allowed(g)
    ensures ok ==> result.Length == 4 * ((g.w * g.scale) * (g.h * g.scale))
    ensures ok ==> forall row: nat, column: nat :: row < g.h * g.scale && column < g.w * g.scale ==>
                     IsPixel(g, rgba, f, result[..], row, column)
  {
    assert Matches(g, rgba);
    if !Allowed(g) {
      ok, result := false, new byte[0];
      return;
    }
    assert g.Valid();
    SizeOf(g);
    hide *;
    PixelwiseIsLocal(g, f);
    LocalModelPredictsCrops(g, rgba, Pixelwise(g, f), f);
    ok, result := Render(g, rgba, Pixelwise(g, f), Untiled(g, rgba, f));
    forall row: nat, column: nat | row < g.h * g.scale && column < g.w * g.scale
      ensures IsPixel(g, rgba, f, result[..], row, column)
    {
      PixelIsRendered(g, rgba, Pixelwise(g, f), f, result[..], row, column);
    }
  }

  lemma SizeOf(g: Geometry)
    requires g.Valid()
    ensures g.Pixels() == (g.w * g.scale) * (g.h * g.scale)
  {
  }

  /** Every source pixel has this alpha. */
  ghost predicate EvenAlpha(rgba: seq<byte>, a: byte) {
    forall i: nat :: 4 * i + 3 < |rgba| ==> rgba[4 * i + 3] == a
  }

  lemma EvenAlphaStays(g: Geometry, rgba: seq<byte>, a: byte, row: nat, column: nat)
    requires g.Valid() && |rgba| == 4 * (g.w * g.h) && EvenAlpha(rgba, a)
    ensures Alpha(g, rgba, row, column) == a as real
  {
    forall x: nat, y: nat | x < g.w && y < g.h
      ensures SourceAlpha(g, rgba, x, y) == a as real
    {
      PixelInRange(g.w, g.h, y, x);
      assert rgba[4 * (y * g.w + x) + 3] == a;
    }
    AlphaWithin(g, rgba, row, column, a as real, a as real);
    hide Alpha, SourceAlpha;
  }

  lemma TimesGrows(x: real, y: real, a: real)
    requires a > 0.0 && x < y
    ensures x * a < y * a
  {
    assert (y - x) * a > 0.0;
  }

  lemma QuotientAtMostOne(colour: real, a: real)
    requires a > 0.0
    ensures (colour / a) * a == colour && (colour / a <= 1.0 <==> colour <= a)
  {
    var v := colour / a;
    assert v * a == colour;
    if v > 1.0 { TimesGrows(1.0, v, a); }
    if v < 1.0 { TimesGrows(v, 1.0, a); }
  }

  /** Dividing alpha out and multiplying it back, with the model in between that changes nothing. */
  lemma BackAndForth(colour: byte, a: byte)
    requires a > 0
    ensures Round(Times(Clamp(colour as real / a as real), a as real)) == if colour <= a then colour else a
  {
    QuotientAtMostOne(colour as real, a as real);
    var v := colour as real / a as real;
    assert v >= 0.0 by { if v < 0.0 { TimesGrows(v, 0.0, a as real); } }
    assert Times(Clamp(v), a as real) == if colour <= a then colour as real else a as real;
  }

  function Identity(v: real): real { v }

  /** An output pixel has the bytes of the source pixel below. */
  predicate IsSource(g: Geometry, rgba: seq<byte>, a: byte, result: seq<byte>, row: nat, column: nat)
    requires g.Valid() && |rgba| == 4 * (g.w * g.h) && row < g.h * g.scale && column < g.w * g.scale
    requires |result| == 4 * ((g.w * g.scale) * (g.h * g.scale))
  {
    var i, k := 4 * SourceUnder(g, row, column), 4 * OutputUnder(g, row, column);
    result[k..k + 4] == [Min(rgba[i], a), Min(rgba[i + 1], a), Min(rgba[i + 2], a), a]
  }

  lemma ColourIsSource(g: Geometry, rgba: seq<byte>, a: byte, row: nat, column: nat, c: nat)
    requires g.Valid() && |rgba| == 4 * (g.w * g.h) && row < g.h * g.scale && column < g.w * g.scale && c < 3
    requires EvenAlpha(rgba, a)
    ensures ByteOf(g, rgba, Identity, row, column, c) == Min(rgba[4 * SourceUnder(g, row, column) + c], a)
    ensures ByteOf(g, rgba, Identity, row, column, 3) == a
  {
    var i := SourceUnder(g, row, column);
    EvenAlphaStays(g, rgba, a, row, column);
    assert rgba[4 * i + 3] == a;
    if a > 0 { BackAndForth(rgba[4 * i + c], a); }
    hide Alpha, SourceUnder, EvenAlpha;
  }

  lemma PixelIsSource(g: Geometry, rgba: seq<byte>, a: byte, result: seq<byte>, row: nat, column: nat)
    requires g.Valid() && |rgba| == 4 * (g.w * g.h) && row < g.h * g.scale && column < g.w * g.scale
    requires |result| == 4 * ((g.w * g.scale) * (g.h * g.scale)) && EvenAlpha(rgba, a)
    requires IsPixel(g, rgba, Identity, result, row, column)
    ensures IsSource(g, rgba, a, result, row, column)
  {
    ColourIsSource(g, rgba, a, row, column, 0);
    ColourIsSource(g, rgba, a, row, column, 1);
    ColourIsSource(g, rgba, a, row, column, 2);
    hide Alpha, SourceUnder, OutputUnder, EvenAlpha, Round, Times, Clamp, ModelColour, Identity;
    var k := 4 * OutputUnder(g, row, column);
    assert result[k + 0] as int == ByteOf(g, rgba, Identity, row, column, 0);
    assert result[k + 1] as int == ByteOf(g, rgba, Identity, row, column, 1);
    assert result[k + 2] as int == ByteOf(g, rgba, Identity, row, column, 2);
  }

  /** The model that changes nothing, on an image whose alpha is the same everywhere: every pixel of the
      result has the bytes of the source pixel below. Colours above alpha, which a premultiplied image
      does not have, are cut off there; without any alpha everything is 0. */
  method RenderIdentity(g: Geometry, rgba: seq<byte>, ghost a: byte) returns (ok: bool, result: array<byte>)
    requires |rgba| == 4 * (g.w * g.h) && EvenAlpha(rgba, a)
    ensures ok <==> Allowed(g)
    ensures ok ==> result.Length == 4 * ((g.w * g.scale) * (g.h * g.scale))
    ensures ok ==> forall row: nat, column: nat :: row < g.h * g.scale && column < g.w * g.scale ==>
                     IsSource(g, rgba, a, result[..], row, column)
  {
    ok, result := RenderPixelwise(g, rgba, Identity);
    if ok {
      assert g.Valid();
      hide *;
      forall row: nat, column: nat | row < g.h * g.scale && column < g.w * g.scale
        ensures IsSource(g, rgba, a, result[..], row, column)
      {
        PixelIsSource(g, rgba, a, result[..], row, column);
      }
    }
  }

  /** The resampled alpha of an output pixel is taken at the place of its centre: equally spaced,
      symmetric, and held inside the image. */
  lemma PositionIsCentred(n: nat, scale: nat, length: nat)
    requires (scale == 2 || scale == 4) && length > 0 && n < length * scale
    ensures Position(length * scale - 1 - n, scale, length) == (length - 1) as real - Position(n, scale, length)
    ensures 0.0 < Position(n, scale, length) < (length - 1) as real && n > 0 ==>
              Position(n + 1, scale, length) - Position(n, scale, length) == 1.0 / scale as real
              || Position(n + 1, scale, length) == (length - 1) as real
  {
  }

  /** The limit is one on the pixels of the result. */
  lemma AllowedMeans(g: Geometry)
    ensures Allowed(g) <==>
              && 0 < g.w <= 8192 && 0 < g.h <= 8192 && (g.scale == 2 || g.scale == 4) && 64 <= g.size <= 1024
              && (g.w * g.scale) * (g.h * g.scale) <= 64 * 1024 * 1024
  {
    if g.scale == 2 || g.scale == 4 {
      assert (g.w * g.scale) * (g.h * g.scale) == (g.w * g.h) * (g.scale * g.scale);
    }
  }

  /** The crossfade is that of the tiles that are laid: any two in a row, but perhaps the last two, are
      at the regular distance, and so in a column. */
  lemma TilesAreNeighbours(g: Geometry, xs: seq<int>, ys: seq<int>, i: nat, y: nat, x: nat)
    requires g.Valid() && IsTiling(xs, g.w, g.TileSide(), g.Overlap()) && IsTiling(ys, g.h, g.TileSide(), g.Overlap())
    requires y < g.h && x < g.w
    ensures i + 2 < |xs| ==> 0 <= xs[i] && 0 <= xs[i + 1] && Neighbours(g, Tile(xs[i], y), Tile(xs[i + 1], y))
    ensures i + 2 < |ys| ==> 0 <= ys[i] && 0 <= ys[i + 1] && Stacked(g, Tile(x, ys[i]), Tile(x, ys[i + 1]))
  {
    var side, overlap := g.TileSide(), g.Overlap();
    if i + 2 < |xs| {
      TilingShape(xs, g.w, side, overlap, i + 1);
      TilingShape(xs, g.w, side, overlap, i);
      assert xs[i + 1] == Following(xs[i], g.w, side, overlap) && xs[i + 1] + side < g.w;
    }
    if i + 2 < |ys| {
      TilingShape(ys, g.h, side, overlap, i + 1);
      TilingShape(ys, g.h, side, overlap, i);
      assert ys[i + 1] == Following(ys[i], g.h, side, overlap) && ys[i + 1] + side < g.h;
    }
  }
}
