/** Where the tiles of an upscaled image lie and how a tile is padded by mirroring. */
module Tiling {
  /** The remainder of a division that truncates toward zero. */
  function Remainder(a: int, b: int): int
    requires b > 0
  {
    if a >= 0 then a % b else -((-a) % b)
  }

  /** The position that an index outside a line of pixels is mirrored to. */
  function Reflect(index: int, length: int): int {
    if length <= 1 then 0
    else
      var period := 2 * (length - 1);
      var value := Remainder(Remainder(index, period) + period, period);
      if value < length then value else period - value
  }

  /** Quotient and remainder are unique. */
  lemma UniqueMod(a: int, q: int, r: int, b: int)
    requires b > 0 && 0 <= r < b && a == q * b + r
    ensures a % b == r && a / b == q
  {
    var d := a / b - q;
    assert d * b == r - a % b;
    assert d >= 1 ==> d * b >= b;
    assert d <= -1 ==> d * b <= -b;
  }

  lemma PeriodicMod(a: int, k: int, b: int)
    requires b > 0
    ensures (a + k * b) % b == a % b
  {
    assert a + k * b == (a / b + k) * b + a % b;
    UniqueMod(a + k * b, a / b + k, a % b, b);
  }

  lemma NegatedMod(a: int, b: int)
    requires b > 0
    ensures (-a) % b == if a % b == 0 then 0 else b - a % b
  {
    var q, r := a / b, a % b;
    if r == 0 {
      assert -a == (-q) * b + 0;
      UniqueMod(-a, -q, 0, b);
    } else {
      assert -a == (-q - 1) * b + (b - r);
      UniqueMod(-a, -q - 1, b - r, b);
    }
  }

  /** The program's double remainder is the never negative one. */
  lemma DoubleRemainder(a: int, b: int)
    requires b > 0
    ensures Remainder(Remainder(a, b) + b, b) == a % b
  {
    if a >= 0 {
      PeriodicMod(a % b, 1, b);
      UniqueMod(a % b, 0, a % b, b);
    } else {
      NegatedMod(-a, b);
      var r := (-a) % b;
      if r == 0 { UniqueMod(b, 1, 0, b); } else { UniqueMod(b - r, 0, b - r, b); }
    }
  }

  /** Mirroring fixes the line itself, is even, and repeats after a full swing: these determine it. */
  lemma ReflectLaws(index: int, k: int, length: int)
    requires length >= 2
    ensures 0 <= index < length ==> Reflect(index, length) == index
    ensures Reflect(-index, length) == Reflect(index, length)
    ensures Reflect(index + k * (2 * (length - 1)), length) == Reflect(index, length)
  {
    var period := 2 * (length - 1);
    DoubleRemainder(index, period);
    DoubleRemainder(-index, period);
    DoubleRemainder(index + k * period, period);
    PeriodicMod(index, k, period);
    NegatedMod(index, period);
    if 0 <= index < length { UniqueMod(index, 0, index, period); }
    hide Remainder;
  }

  lemma ReflectInRange(index: int, length: int)
    requires length >= 1
    ensures 0 <= Reflect(index, length) < length
  {
    if length > 1 { DoubleRemainder(index, 2 * (length - 1)); }
  }

  function Min(a: int, b: int): int { if a < b then a else b }

  /** The start that follows another. */
  function Following(last: int, length: int, tile: int, overlap: int): int {
    Min(last + tile - overlap, length - tile)
  }

  /** Begins at the edge, each start follows the previous one, and only the last tile reaches the
      other edge. */
  predicate IsTiling(starts: seq<int>, length: int, tile: int, overlap: int) {
    && starts != [] && starts[0] == 0
    && (forall k :: 0 < k < |starts| ==> starts[k] == Following(starts[k - 1], length, tile, overlap))
    && (forall k :: 0 <= k < |starts| - 1 ==> starts[k] + tile < length)
    && starts[|starts| - 1] + tile >= length
  }

  /** The starts after a given one. */
  function StartsAfter(last: int, length: int, tile: int, overlap: int): seq<int>
    requires 0 <= overlap < tile
    decreases length - last
  {
    if last + tile >= length then []
    else var next := Following(last, length, tile, overlap); [next] + StartsAfter(next, length, tile, overlap)
  }

  function StartsOf(length: int, tile: int, overlap: int): seq<int>
    requires 0 <= overlap < tile
  {
    [0] + StartsAfter(0, length, tile, overlap)
  }

  method Starts(length: int, tile: int, overlap: int) returns (starts: seq<int>)
    requires 0 <= overlap < tile
    ensures IsTiling(starts, length, tile, overlap) && starts == StartsOf(length, tile, overlap)
  {
    if length <= tile { return [0]; }
    starts := [0];
    while starts[|starts| - 1] + tile < length
      invariant starts != [] && starts[0] == 0
      invariant forall k :: 0 < k < |starts| ==> starts[k] == Following(starts[k - 1], length, tile, overlap)
      invariant forall k :: 0 <= k < |starts| - 1 ==> starts[k] + tile < length
      invariant starts + StartsAfter(starts[|starts| - 1], length, tile, overlap) == StartsOf(length, tile, overlap)
      decreases length - starts[|starts| - 1]
    {
      var next := Following(starts[|starts| - 1], length, tile, overlap);
      assert starts + ([next] + StartsAfter(next, length, tile, overlap))
          == (starts + [next]) + StartsAfter(next, length, tile, overlap);
      starts := starts + [next];
    }
  }

  /** The list in closed form is such a tiling. */
  lemma {:induction false} StartsAfterTile(last: int, length: int, tile: int, overlap: int)
    requires 0 <= overlap < tile
    ensures var s := [last] + StartsAfter(last, length, tile, overlap);
            && (forall k :: 0 < k < |s| ==> s[k] == Following(s[k - 1], length, tile, overlap))
            && (forall k :: 0 <= k < |s| - 1 ==> s[k] + tile < length)
            && s[|s| - 1] + tile >= length
    decreases length - last
  {
    if last + tile < length {
      var next := Following(last, length, tile, overlap);
      StartsAfterTile(next, length, tile, overlap);
      var rest := [next] + StartsAfter(next, length, tile, overlap);
      assert forall k :: 0 < k < |rest| + 1 ==> ([last] + rest)[k] == rest[k - 1];
    }
  }

  lemma StartsOfIsTiling(length: int, tile: int, overlap: int)
    requires 0 <= overlap < tile
    ensures IsTiling(StartsOf(length, tile, overlap), length, tile, overlap)
  {
    StartsAfterTile(0, length, tile, overlap);
  }

  /** There is only one such list, so the loop computes it. */
  lemma {:induction false} TilingAgree(a: seq<int>, b: seq<int>, length: int, tile: int, overlap: int, n: nat)
    requires IsTiling(a, length, tile, overlap) && IsTiling(b, length, tile, overlap)
    requires n <= |a| && n <= |b|
    ensures a[..n] == b[..n]
    ensures n == |a| && n > 0 ==> |b| == |a|
  {
    if n > 0 {
      TilingAgree(a, b, length, tile, overlap, n - 1);
      if n > 1 { assert a[n - 2] == a[..n - 1][n - 2] == b[..n - 1][n - 2] == b[n - 2]; }
      assert a[n - 1] == b[n - 1];
      assert a[..n] == a[..n - 1] + [a[n - 1]] && b[..n] == b[..n - 1] + [b[n - 1]];
    }
  }

  lemma TilingIsUnique(a: seq<int>, b: seq<int>, length: int, tile: int, overlap: int)
    requires IsTiling(a, length, tile, overlap) && IsTiling(b, length, tile, overlap)
    ensures a == b
  {
    var n := Min(|a|, |b|);
    TilingAgree(a, b, length, tile, overlap, n);
    TilingAgree(b, a, length, tile, overlap, n);
    assert a == a[..n] && b == b[..n];
  }

  /** Every tile lies inside the line, the starts grow, and neighbours share at least the overlap. */
  lemma TilingShape(starts: seq<int>, length: int, tile: int, overlap: int, k: nat)
    requires IsTiling(starts, length, tile, overlap) && 0 <= overlap < tile && length > 0 && k < |starts|
    ensures 0 <= starts[k] < length
    ensures length > tile ==> starts[k] + tile <= length
    ensures k > 0 ==> starts[k - 1] < starts[k] <= starts[k - 1] + tile - overlap
  {
    if k > 0 { TilingShape(starts, length, tile, overlap, k - 1); }
  }

  lemma {:induction false} TilingIncreases(starts: seq<int>, length: int, tile: int, overlap: int, j: nat, k: nat)
    requires IsTiling(starts, length, tile, overlap) && 0 <= overlap < tile && length > 0 && j < k < |starts|
    ensures starts[j] < starts[k]
  {
    TilingShape(starts, length, tile, overlap, k);
    if j < k - 1 { TilingIncreases(starts, length, tile, overlap, j, k - 1); }
  }

  /** Every position of the line is in some tile. */
  lemma {:induction false} Covered(starts: seq<int>, length: int, tile: int, overlap: int, position: int, k: nat)
    returns (j: nat)
    requires IsTiling(starts, length, tile, overlap) && 0 <= overlap < tile
    requires 0 <= position < length && k < |starts| && starts[k] <= position
    ensures j < |starts| && starts[j] <= position < starts[j] + tile
    decreases |starts| - k
  {
    if position < starts[k] + tile {
      j := k;
    } else {
      TilingShape(starts, length, tile, overlap, k + 1);
      j := Covered(starts, length, tile, overlap, position, k + 1);
    }
  }
}
