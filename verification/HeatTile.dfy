/** The heat-map rasteriser: every point spreads a Gaussian over the pixels near it; a pixel shows the
    weighted mean of the points that reach it.  The exponential is any positive function. */
module HeatTile {
  import opened Numbers
  import opened Sequences

  const TILE: nat := 256
  const PIXELS: nat := 65536

  datatype Point = Point(x: real, y: real, intensity: real)

  type Kernel = real -> real

  ghost predicate Positive(exp: Kernel) { forall t: real :: exp(t) > 0.0 }

  // ---------------------------------------------------------------- intensity

  /** How hot a layer's value is, never less than 0.08. */
  function HeatIntensity(layer: string, value: real): (r: real)
    ensures 0.08 <= r <= 1.0
  {
    Higher(0.08, Lower(1.0,
      if layer == "visibility" then 1.0 - Lower(value, 20.0) / 20.0
      else if layer == "precipitation" then value / 50.0
      else if layer == "pressure" then (if value >= 1013.0 then value - 1013.0 else 1013.0 - value) / 50.0
      else value / 100.0))
  }

  /** A value at which a layer is as hot as can be: poor sight, heavy rain, pressure far from the mean,
      or a hundred of anything else. */
  predicate IsHottest(layer: string, value: real) {
    if layer == "visibility" then value <= 0.0
    else if layer == "precipitation" then value >= 50.0
    else if layer == "pressure" then value >= 1063.0 || value <= 963.0
    else value >= 100.0
  }

  predicate IsColdest(layer: string, value: real) {
    if layer == "visibility" then value >= 18.4
    else if layer == "precipitation" then value <= 4.0
    else if layer == "pressure" then 1009.0 <= value <= 1017.0
    else value <= 8.0
  }

  /** Whether a value is further on its layer's way from the coldest to the hottest. */
  predicate IsHotter(layer: string, a: real, b: real) {
    if layer == "visibility" then a <= b
    else if layer == "pressure" then a >= b >= 1013.0 || a <= b <= 1013.0
    else a >= b
  }

  /** Where each layer is hottest and coldest, and that it grows on the way between. */
  lemma IntensityMeaning(layer: string, a: real, b: real)
    ensures HeatIntensity(layer, a) == 1.0 <==> IsHottest(layer, a)
    ensures HeatIntensity(layer, a) == 0.08 <==> IsColdest(layer, a)
    ensures IsHotter(layer, a, b) ==> HeatIntensity(layer, a) >= HeatIntensity(layer, b)
    ensures IsHotter(layer, a, b) && a != b && !IsColdest(layer, a) && !IsHottest(layer, b)
        ==> HeatIntensity(layer, a) > HeatIntensity(layer, b)
  {
  }

  /** How far a value is on its layer's way from harmless, and how far it is at the end of that way. */
  function Harm(layer: string, value: real): real {
    if layer == "visibility" then 20.0 - value
    else if layer == "pressure" then (if value >= 1013.0 then value - 1013.0 else 1013.0 - value)
    else value
  }

  function FullHarm(layer: string): real {
    if layer == "visibility" then 20.0
    else if layer == "precipitation" || layer == "pressure" then 50.0
    else 100.0
  }

  /** Between the extremes the intensity is the share of the way: full at the end, and so much less before it
      as is left of the way. */
  lemma IntensityIsLinear(layer: string, value: real)
    ensures !IsColdest(layer, value) && !IsHottest(layer, value)
        ==> FullHarm(layer) * (1.0 - HeatIntensity(layer, value)) == FullHarm(layer) - Harm(layer, value)
  {
  }

  // ---------------------------------------------------------------- what a pixel must be

  predicate OnTile(x: int, y: int) { 0 <= x < TILE && 0 <= y < TILE }

  function Index(x: int, y: int): nat
    requires OnTile(x, y)
  {
    y * 256 + x
  }

  lemma IndexIsPlace(x: int, y: int)
    requires OnTile(x, y)
    ensures Index(x, y) < PIXELS && Index(x, y) % 256 == x && Index(x, y) / 256 == y
  {
  }

  function Distance2(p: Point, x: int, y: int): real {
    Times(x as real - p.x, x as real - p.x) + Times(y as real - p.y, y as real - p.y)
  }

  /** A point's weight at a pixel: nothing beyond 84 pixels. */
  function WeightOf(p: Point, x: int, y: int, exp: Kernel): real {
    if Distance2(p, x, y) > 7056.0 then 0.0 else exp(-Distance2(p, x, y) / 1568.0)
  }

  function HeatOf(p: Point, x: int, y: int, exp: Kernel): real { Times(p.intensity, WeightOf(p, x, y, exp)) }

  /** The weights and the heat of all points, at one pixel. */
  function Weight(points: seq<Point>, x: int, y: int, exp: Kernel): real {
    if points == [] then 0.0 else Weight(points[..|points| - 1], x, y, exp) + WeightOf(points[|points| - 1], x, y, exp)
  }

  function Heat(points: seq<Point>, x: int, y: int, exp: Kernel): real {
    if points == [] then 0.0 else Heat(points[..|points| - 1], x, y, exp) + HeatOf(points[|points| - 1], x, y, exp)
  }

  /** Two buffers hold the heat and the weight of the points at every pixel. */
  ghost predicate Summed(accum: seq<real>, weight: seq<real>, points: seq<Point>, exp: Kernel) {
    && |accum| == |weight| == PIXELS
    && (forall x, y :: OnTile(x, y) ==> accum[Index(x, y)] == Heat(points, x, y, exp))
    && (forall x, y :: OnTile(x, y) ==> weight[Index(x, y)] == Weight(points, x, y, exp))
  }

  // ---------------------------------------------------------------- the window around a point

  function Ceiling(r: real): int { -(-r).Floor }
  function First(c: real): int { if (c - 84.0).Floor < 0 then 0 else (c - 84.0).Floor }
  function Last(c: real): int { if Ceiling(c + 84.0) > 255 then 255 else Ceiling(c + 84.0) }

  lemma LongSide(d: real, other: real)
    ensures d > 84.0 || d < -84.0 ==> d * d + other * other > 7056.0
  {
  }

  /** The window leaves out no pixel that the point reaches. */
  lemma WindowIsWide(p: Point, x: int, y: int)
    requires OnTile(x, y) && Distance2(p, x, y) <= 7056.0
    ensures First(p.x) <= x <= Last(p.x) && First(p.y) <= y <= Last(p.y)
  {
    LongSide(x as real - p.x, y as real - p.y);
    LongSide(y as real - p.y, x as real - p.x);
  }

  // ---------------------------------------------------------------- spreading one point

  /** Whether the loops over the window, about to treat column col of row row, have treated a pixel. */
  predicate Treated(p: Point, x: int, y: int, row: int, col: int) {
    First(p.x) <= x <= Last(p.x) && First(p.y) <= y <= Last(p.y) && (y < row || (y == row && x < col))
  }

  function PartOf(full: real, treated: bool): real { if treated then full else 0.0 }

  function HeatSoFar(points: seq<Point>, p: Point, x: int, y: int, row: int, col: int, exp: Kernel): real {
    Heat(points, x, y, exp) + PartOf(HeatOf(p, x, y, exp), Treated(p, x, y, row, col))
  }

  function WeightSoFar(points: seq<Point>, p: Point, x: int, y: int, row: int, col: int, exp: Kernel): real {
    Weight(points, x, y, exp) + PartOf(WeightOf(p, x, y, exp), Treated(p, x, y, row, col))
  }

  ghost predicate Partly(accum: seq<real>, weight: seq<real>, points: seq<Point>, p: Point, row: int, col: int,
      exp: Kernel) {
    && |accum| == |weight| == PIXELS
    && (forall x, y :: OnTile(x, y) ==> accum[Index(x, y)] == HeatSoFar(points, p, x, y, row, col, exp))
    && (forall x, y :: OnTile(x, y) ==> weight[Index(x, y)] == WeightSoFar(points, p, x, y, row, col, exp))
  }

  lemma PartlyStarts(accum: seq<real>, weight: seq<real>, points: seq<Point>, p: Point, exp: Kernel)
    requires Summed(accum, weight, points, exp)
    ensures Partly(accum, weight, points, p, First(p.y), First(p.x), exp)
  {
  }

  /** Past the window, the point's whole contribution is in. */
  lemma PartlyEnds(accum: seq<real>, weight: seq<real>, points: seq<Point>, p: Point, row: int, exp: Kernel)
    requires Partly(accum, weight, points, p, row, First(p.x), exp) && row > Last(p.y)
    ensures Summed(accum, weight, points + [p], exp)
  {
    SplitAppend(points, [p]);
    forall x, y | OnTile(x, y)
      ensures accum[Index(x, y)] == Heat(points + [p], x, y, exp)
      ensures weight[Index(x, y)] == Weight(points + [p], x, y, exp)
    {
      if Distance2(p, x, y) <= 7056.0 {
        WindowIsWide(p, x, y);
      } else {
        assert HeatOf(p, x, y, exp) == 0.0;
      }
    }
  }

  lemma NextRow(accum: seq<real>, weight: seq<real>, points: seq<Point>, p: Point, row: int, col: int, exp: Kernel)
    requires Partly(accum, weight, points, p, row, col, exp) && col > Last(p.x)
    ensures Partly(accum, weight, points, p, row + 1, First(p.x), exp)
  {
  }

  /** One pixel more. */
  lemma PixelAdded(accum: seq<real>, weight: seq<real>, points: seq<Point>, p: Point, row: int, col: int, exp: Kernel,
                   accum': seq<real>, weight': seq<real>)
    requires Partly(accum, weight, points, p, row, col, exp) && OnTile(col, row)
    requires First(p.x) <= col <= Last(p.x) && First(p.y) <= row <= Last(p.y)
    requires accum' == accum[Index(col, row) := accum[Index(col, row)] + HeatOf(p, col, row, exp)]
    requires weight' == weight[Index(col, row) := weight[Index(col, row)] + WeightOf(p, col, row, exp)]
    ensures Partly(accum', weight', points, p, row, col + 1, exp)
  {
    IndexIsPlace(col, row);
    forall x, y | OnTile(x, y)
      ensures accum'[Index(x, y)] == HeatSoFar(points, p, x, y, row, col + 1, exp)
      ensures weight'[Index(x, y)] == WeightSoFar(points, p, x, y, row, col + 1, exp)
    {
      IndexIsPlace(x, y);
      if x != col || y != row {
        assert Index(x, y) != Index(col, row);
        assert Treated(p, x, y, row, col + 1) == Treated(p, x, y, row, col);
      }
    }
  }

  /** A point's kernel at a pixel, if the pixel is near enough. */
  method KernelAt(p: Point, px: int, py: int, exp: Kernel) returns (near: bool, kernel: real)
    ensures near == (Distance2(p, px, py) <= 7056.0)
    ensures kernel == WeightOf(p, px, py, exp)
  {
    var dx := px as real - p.x;
    var dy := py as real - p.y;
    var distance2 := Times(dx, dx) + Times(dy, dy);
    if distance2 > 7056.0 {
      return false, 0.0;
    }
    return true, exp(-distance2 / 1568.0);
  }

  /** The inner loop's body. */
  method AddPixel(accum: array<real>, weight: array<real>, p: Point, px: int, py: int, exp: Kernel)
    requires accum.Length == weight.Length == PIXELS && accum != weight && OnTile(px, py)
    modifies accum, weight
    ensures accum[..] == old(accum[..])[Index(px, py) := old(accum[..])[Index(px, py)] + HeatOf(p, px, py, exp)]
    ensures weight[..] == old(weight[..])[Index(px, py) := old(weight[..])[Index(px, py)] + WeightOf(p, px, py, exp)]
  {
    IndexIsPlace(px, py);
    var index := Index(px, py);
    var near, kernel := KernelAt(p, px, py, exp);
    if !near {
      SameUpdate(accum[..], index);
      SameUpdate(weight[..], index);
      return;
    }
    Increase(accum, index, Times(p.intensity, kernel));
    Increase(weight, index, kernel);
  }

  lemma SameUpdate<T>(s: seq<T>, i: nat)
    requires i < |s|
    ensures s[i := s[i]] == s
  {
  }

  method Increase(a: array<real>, index: nat, amount: real)
    requires index < a.Length
    modifies a
    ensures a[..] == old(a[..])[index := old(a[..])[index] + amount]
  {
    a[index] := a[index] + amount;
  }

  method AddRow(accum: array<real>, weight: array<real>, ghost points: seq<Point>, p: Point, py: int, exp: Kernel)
    requires accum.Length == weight.Length == PIXELS && accum != weight
    requires 0 <= First(p.y) <= py <= Last(p.y) < 256
    requires Partly(accum[..], weight[..], points, p, py, First(p.x), exp)
    modifies accum, weight
    ensures Partly(accum[..], weight[..], points, p, py + 1, First(p.x), exp)
  {
    var px := First(p.x);
    while px <= Last(p.x)
      invariant First(p.x) <= px
      invariant Partly(accum[..], weight[..], points, p, py, px, exp)
    {
      ghost var a, w := accum[..], weight[..];
      AddPixel(accum, weight, p, px, py, exp);
      PixelAdded(a, w, points, p, py, px, exp, accum[..], weight[..]);
      px := px + 1;
    }
    NextRow(accum[..], weight[..], points, p, py, px, exp);
  }

  /** The two loops over the window of a point. */
  method AddPoint(accum: array<real>, weight: array<real>, ghost points: seq<Point>, p: Point, exp: Kernel)
    requires accum.Length == weight.Length == PIXELS && accum != weight
    requires Summed(accum[..], weight[..], points, exp)
    modifies accum, weight
    ensures Summed(accum[..], weight[..], points + [p], exp)
  {
    PartlyStarts(accum[..], weight[..], points, p, exp);
    var py := First(p.y);
    while py <= Last(p.y)
      invariant First(p.y) <= py
      invariant Partly(accum[..], weight[..], points, p, py, First(p.x), exp)
    {
      AddRow(accum, weight, points, p, py, exp);
      py := py + 1;
    }
    PartlyEnds(accum[..], weight[..], points, p, py, exp);
  }
}
