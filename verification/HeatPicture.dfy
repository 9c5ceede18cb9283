/** The picture of a heat tile: means, the peak they are scaled by, colours, and the file written. */
module HeatPicture {
  import opened Bytes
  import opened HeatTile
  import opened Numbers
  import opened Wrappers
  import opened Sequences
  import Png

  // ---------------------------------------------------------------- means and peak

  function Mean(heat: real, weight: real): real {
    if weight > 0.0 then heat / weight else 0.0
  }

  /** The largest of some values and zero. */
  ghost predicate IsPeak(peak: real, values: seq<real>) {
    && peak >= 0.0
    && (forall i :: 0 <= i < |values| ==> values[i] <= peak)
    && (peak > 0.0 ==> peak in values)
  }

  ghost predicate AreMeans(values: seq<real>, accum: seq<real>, weight: seq<real>) {
    && |values| <= |accum| == |weight|
    && (forall i :: 0 <= i < |values| ==> values[i] == Mean(accum[i], weight[i]))
  }

  /** The loop over all pixels; a pixel without weight keeps zero. */
  method Means(accum: seq<real>, weight: seq<real>) returns (values: seq<real>, maxValue: real)
    requires |accum| == |weight|
    ensures |values| == |accum| && AreMeans(values, accum, weight) && IsPeak(maxValue, values)
  {
    values := [];
    maxValue := 0.0;
    while |values| < |accum|
      invariant AreMeans(values, accum, weight)
      invariant IsPeak(maxValue, values)
      decreases |accum| - |values|
    {
      var index := |values|;
      var value := 0.0;
      if weight[index] > 0.0 {
        value := accum[index] / weight[index];
        if maxValue < value {
          maxValue := value;
        }
      }
      values := values + [value];
    }
  }

  // ---------------------------------------------------------------- colours

  /** The nearest integer, halves upwards. */
  function Round(r: real): Byte
    requires 0.0 <= r <= 255.0
  {
    (r + 0.5).Floor as Byte
  }

  /** Red, green, blue and opacity of a normalised value. */
  function Tint(n: real): (t: seq<Byte>)
    requires 0.0 <= n <= 1.0
    ensures |t| == 4
  {
    if n <= 0.0 then CLEAR
    else [Round(255.0 * n), Round(255.0 * Lower(1.0, n * 1.35)), Round(255.0 * (1.0 - n)), Round(40.0 + n * 200.0)]
  }

  function TintOf(value: real, peak: real): (t: seq<Byte>)
    ensures |t| == 4
  {
    if peak <= 0.0 then CLEAR else Tint(Clamp01(value / peak))
  }

  const CLEAR: seq<Byte> := [0, 0, 0, 0]

  predicate ShowsAt(rgba: seq<Byte>, i: nat, tint: seq<Byte>) {
    4 * i + 4 <= |rgba| && rgba[4 * i..4 * i + 4] == tint
  }

  /** A pixel among the first n is painted, another still transparent. */
  predicate PaintedAt(rgba: seq<Byte>, values: seq<real>, peak: real, n: nat, i: nat)
    requires i < |values|
  {
    ShowsAt(rgba, i, if i < n then TintOf(values[i], peak) else CLEAR)
  }

  ghost predicate Painted(rgba: seq<Byte>, values: seq<real>, peak: real, n: nat) {
    && |rgba| == 4 * |values| && n <= |values|
    && (forall i: nat :: i < |values| ==> PaintedAt(rgba, values, peak, n, i))
  }

  method SetPixel(rgba: array<Byte>, index: nat, tint: seq<Byte>)
    requires 4 * index + 4 <= rgba.Length && |tint| == 4
    modifies rgba
    ensures rgba[..] == old(rgba[..4 * index]) + tint + old(rgba[4 * index + 4..])
  {
    var offset := index * 4;
    rgba[offset] := tint[0];
    rgba[offset + 1] := tint[1];
    rgba[offset + 2] := tint[2];
    rgba[offset + 3] := tint[3];
  }

  lemma OtherPixels(before: seq<Byte>, after: seq<Byte>, index: nat, tint: seq<Byte>, i: nat)
    requires 4 * index + 4 <= |before| && |tint| == 4 && 4 * i + 4 <= |before|
    requires after == before[..4 * index] + tint + before[4 * index + 4..]
    ensures after[4 * i..4 * i + 4] == if i == index then tint else before[4 * i..4 * i + 4]
  {
  }

  lemma OneMorePainted(before: seq<Byte>, after: seq<Byte>, values: seq<real>, peak: real, n: nat)
    requires Painted(before, values, peak, n) && n < |values|
    requires after == before[..4 * n] + TintOf(values[n], peak) + before[4 * n + 4..]
    ensures Painted(after, values, peak, n + 1)
  {
    var next := n + 1;
    forall i: nat | i < |values| ensures PaintedAt(after, values, peak, next, i) {
      assert PaintedAt(before, values, peak, n, i);
      OtherPixels(before, after, n, TintOf(values[n], peak), i);
    }
  }

  lemma ClearIsPainted(rgba: seq<Byte>, values: seq<real>, peak: real)
    requires |rgba| == 4 * |values| && forall j :: 0 <= j < |rgba| ==> rgba[j] == 0
    ensures Painted(rgba, values, peak, 0)
  {
  }

  lemma TransparentPixel(before: seq<Byte>, values: seq<real>, peak: real, n: nat)
    requires Painted(before, values, peak, n) && n < |values|
    ensures before == before[..4 * n] + CLEAR + before[4 * n + 4..]
  {
    assert PaintedAt(before, values, peak, n, n);
  }

  /** The loop's body: nothing is written for a value of zero. */
  method PaintPixel(rgba: array<Byte>, values: seq<real>, peak: real, index: nat)
    requires peak > 0.0 && index < |values| && Painted(rgba[..], values, peak, index)
    modifies rgba
    ensures Painted(rgba[..], values, peak, index + 1)
  {
    ghost var before := rgba[..];
    var normalized := Clamp01(values[index] / peak);
    if normalized <= 0.0 {
      TransparentPixel(before, values, peak, index);
    } else {
      SetPixel(rgba, index, Tint(normalized));
    }
    OneMorePainted(before, rgba[..], values, peak, index);
  }

  method PaintRow(rgba: array<Byte>, values: seq<real>, peak: real, py: nat)
    requires peak > 0.0 && |values| == PIXELS && py < TILE && Painted(rgba[..], values, peak, py * 256)
    modifies rgba
    ensures Painted(rgba[..], values, peak, (py + 1) * 256)
  {
    var px: nat := 0;
    while px < TILE
      invariant px <= TILE && Painted(rgba[..], values, peak, py * 256 + px)
    {
      PaintPixel(rgba, values, peak, py * 256 + px);
      px := px + 1;
    }
  }

  /** The loops over rows and columns. */
  method Paint(values: seq<real>, peak: real) returns (rgba: seq<Byte>)
    requires |values| == PIXELS && peak > 0.0
    ensures Painted(rgba, values, peak, PIXELS)
  {
    var buffer := new Byte[4 * PIXELS](_ => 0);
    ClearIsPainted(buffer[..], values, peak);
    var py: nat := 0;
    while py < TILE
      invariant py <= TILE && Painted(buffer[..], values, peak, py * 256)
    {
      PaintRow(buffer, values, peak, py);
      py := py + 1;
    }
    rgba := buffer[..];
  }

  // ---------------------------------------------------------------- the file

  function MeanAt(points: seq<Point>, x: int, y: int, exp: Kernel): real {
    Mean(Heat(points, x, y, exp), Weight(points, x, y, exp))
  }

  /** The colour a pixel must have. */
  function Shown(points: seq<Point>, x: int, y: int, peak: real, exp: Kernel): seq<Byte> {
    TintOf(MeanAt(points, x, y, exp), peak)
  }

  /** The peak is the largest mean on the tile, or zero. */
  ghost predicate IsTilePeak(peak: real, points: seq<Point>, exp: Kernel) {
    && peak >= 0.0
    && (forall x, y :: OnTile(x, y) ==> MeanAt(points, x, y, exp) <= peak)
    && (peak > 0.0 ==> exists x, y :: OnTile(x, y) && peak == MeanAt(points, x, y, exp))
  }

  ghost predicate IsPicture(rgba: seq<Byte>, points: seq<Point>, peak: real, exp: Kernel) {
    && |rgba| == 4 * PIXELS && IsTilePeak(peak, points, exp)
    && (forall x, y :: OnTile(x, y) ==> ShowsAt(rgba, Index(x, y), Shown(points, x, y, peak, exp)))
  }

  ghost predicate Pictures(rgba: seq<Byte>, points: seq<Point>, exp: Kernel) {
    exists peak :: IsPicture(rgba, points, peak, exp)
  }

  lemma MeansAreTileMeans(values: seq<real>, maxValue: real, accum: seq<real>, weight: seq<real>, points: seq<Point>,
      exp: Kernel)
    requires Summed(accum, weight, points, exp) && |values| == PIXELS
    requires AreMeans(values, accum, weight) && IsPeak(maxValue, values)
    ensures IsTilePeak(maxValue, points, exp)
    ensures forall x, y :: OnTile(x, y) ==> values[Index(x, y)] == MeanAt(points, x, y, exp)
  {
    forall x, y | OnTile(x, y) ensures values[Index(x, y)] == MeanAt(points, x, y, exp) {
      assert values[Index(x, y)] == Mean(accum[Index(x, y)], weight[Index(x, y)]);
    }
    if maxValue > 0.0 {
      var i: nat :| i < |values| && values[i] == maxValue;
      var x, y := i % 256, i / 256;
      assert OnTile(x, y) && Index(x, y) == i;
    }
  }

  lemma PaintedIsPicture(rgba: seq<Byte>, values: seq<real>, peak: real, points: seq<Point>, exp: Kernel)
    requires |values| == PIXELS && Painted(rgba, values, peak, PIXELS) && IsTilePeak(peak, points, exp)
    requires forall x, y :: OnTile(x, y) ==> values[Index(x, y)] == MeanAt(points, x, y, exp)
    ensures IsPicture(rgba, points, peak, exp)
  {
    forall x, y | OnTile(x, y) ensures ShowsAt(rgba, Index(x, y), Shown(points, x, y, peak, exp)) {
      assert PaintedAt(rgba, values, peak, PIXELS, Index(x, y));
    }
  }

  /** Everything transparent: right when the peak is zero. */
  lemma ClearIsPicture(rgba: seq<Byte>, points: seq<Point>, exp: Kernel)
    requires |rgba| == 4 * PIXELS && (forall j :: 0 <= j < |rgba| ==> rgba[j] == 0) && IsTilePeak(0.0, points, exp)
    ensures IsPicture(rgba, points, 0.0, exp)
  {
  }

  lemma NoPointsNoPeak(exp: Kernel)
    ensures IsTilePeak(0.0, [], exp)
  {
  }

  /** The loop over the points. */
  method SpreadPoints(points: seq<Point>, exp: Kernel) returns (accum: seq<real>, weight: seq<real>)
    ensures Summed(accum, weight, points, exp)
  {
    var heat := new real[PIXELS](_ => 0.0);
    var mass := new real[PIXELS](_ => 0.0);
    var i := 0;
    while i < |points|
      invariant 0 <= i <= |points|
      invariant Summed(heat[..], mass[..], points[..i], exp)
    {
      NextPrefix(points, i);
      AddPoint(heat, mass, points[..i], points[i], exp);
      i := i + 1;
    }
    WholeSlice(points);
    accum, weight := heat[..], mass[..];
  }

  /** The pixels of the tile. */
  method Rasterise(points: seq<Point>, exp: Kernel) returns (rgba: seq<Byte>)
    ensures Pictures(rgba, points, exp)
  {
    rgba := seq(4 * PIXELS, _ => 0);
    if points == [] {
      NoPointsNoPeak(exp);
      ClearIsPicture(rgba, points, exp);
      return;
    }
    var accum, weight := SpreadPoints(points, exp);
    var values, maxValue := Means(accum, weight);
    MeansAreTileMeans(values, maxValue, accum, weight, points, exp);
    if maxValue <= 0.0 {
      ClearIsPicture(rgba, points, exp);
      return;
    }
    rgba := Paint(values, maxValue);
    PaintedIsPicture(rgba, values, maxValue, points, exp);
  }

  /** A row of the query: where its pixel lies in relation to the tile, if its place is known. */
  datatype Place = Place(x: real, y: real)
  datatype Row = Row(place: Option<Place>, value: real)

  /** Places more than 80 pixels off the tile are left out. */
  predicate IsKept(row: Row) {
    row.place.Some? && -80.0 <= row.place.value.x <= 336.0 && -80.0 <= row.place.value.y <= 336.0
  }

  function PointOf(row: Row, layer: string): Point
    requires row.place.Some?
  {
    Point(row.place.value.x, row.place.value.y, HeatIntensity(layer, row.value))
  }

  function PointsOf(rows: seq<Row>, layer: string): seq<Point> {
    if rows == [] then []
    else
      var last := rows[|rows| - 1];
      PointsOf(rows[..|rows| - 1], layer) + (if IsKept(last) then [PointOf(last, layer)] else [])
  }

  method GatherPoints(rows: seq<Row>, layer: string) returns (points: seq<Point>)
    ensures points == PointsOf(rows, layer)
  {
    points := [];
    for i := 0 to |rows|
      invariant points == PointsOf(rows[..i], layer)
    {
      NextPrefix(rows, i);
      AppendNothing(points);
      if rows[i].place.None? {
        continue;
      }
      var place := rows[i].place.value;
      if place.x < -80.0 || place.x > 336.0 || place.y < -80.0 || place.y > 336.0 {
        continue;
      }
      points := points + [Point(place.x, place.y, HeatIntensity(layer, rows[i].value))];
    }
    WholeSlice(rows);
  }

  /** A decoder of the standards gets a picture of the kept rows out of the file. */
  ghost predicate ShowsRows(png: seq<Byte>, rows: seq<Row>, layer: string, exp: Kernel) {
    match Png.Decode(png)
    case None => false
    case Some(image) => image.width == TILE == image.height && Pictures(image.pixels, PointsOf(rows, layer), exp)
  }

  method RenderHeatTilePng(rows: seq<Row>, layer: string, exp: Kernel) returns (png: seq<Byte>)
    ensures ShowsRows(png, rows, layer, exp)
  {
    var points := GatherPoints(rows, layer);
    var rgba := Rasterise(points, exp);
    Png.PixelOctetsIsProduct(TILE, TILE);
    png := Png.EncodePngRgba(TILE, TILE, rgba);
    WholeSlice(rgba);
  }

  // ---------------------------------------------------------------- what the picture shows

  predicate Reaches(p: Point, x: int, y: int) { Distance2(p, x, y) <= 7056.0 }

  ghost predicate AnyReaches(points: seq<Point>, x: int, y: int) {
    exists i :: 0 <= i < |points| && Reaches(points[i], x, y)
  }

  predicate AllWarm(points: seq<Point>) {
    forall i :: 0 <= i < |points| ==> 0.08 <= points[i].intensity <= 1.0
  }

  lemma {:induction false} PointsAreWarm(rows: seq<Row>, layer: string)
    ensures AllWarm(PointsOf(rows, layer))
    decreases |rows|
  {
    if rows != [] {
      PointsAreWarm(rows[..|rows| - 1], layer);
    }
  }

  lemma HeatOfOne(p: Point, x: int, y: int, exp: Kernel)
    requires Positive(exp) && 0.08 <= p.intensity <= 1.0
    ensures WeightOf(p, x, y, exp) >= 0.0 && (WeightOf(p, x, y, exp) > 0.0 <==> Reaches(p, x, y))
    ensures 0.08 * WeightOf(p, x, y, exp) <= HeatOf(p, x, y, exp) <= WeightOf(p, x, y, exp)
  {
  }

  lemma AnyOfOneMore(points: seq<Point>, x: int, y: int)
    requires points != []
    ensures AnyReaches(points, x, y)
       <==> AnyReaches(points[..|points| - 1], x, y) || Reaches(points[|points| - 1], x, y)
  {
  }

  lemma {:induction false} HeatMeaning(points: seq<Point>, x: int, y: int, exp: Kernel)
    requires Positive(exp) && AllWarm(points)
    ensures Weight(points, x, y, exp) >= 0.0 && (Weight(points, x, y, exp) > 0.0 <==> AnyReaches(points, x, y))
    ensures 0.08 * Weight(points, x, y, exp) <= Heat(points, x, y, exp) <= Weight(points, x, y, exp)
    decreases |points|
  {
    if points != [] {
      var n := |points| - 1;
      HeatMeaning(points[..n], x, y, exp);
      HeatOfOne(points[n], x, y, exp);
      AnyOfOneMore(points, x, y);
    }
  }

  lemma MeanIsBetween(heat: real, weight: real)
    requires weight > 0.0 && 0.08 * weight <= heat <= weight
    ensures 0.08 <= Mean(heat, weight) <= 1.0
  {
  }

  lemma Cancel(a: real, b: real, n: real)
    requires n > 0.0 && a * n <= b * n
    ensures a <= b
  {
  }

  /** A pixel's mean is between the coldest and the hottest a layer can be, or zero where no point
      reaches. */
  lemma MeanMeaning(points: seq<Point>, x: int, y: int, exp: Kernel)
    requires Positive(exp) && AllWarm(points)
    ensures var m := MeanAt(points, x, y, exp);
            if AnyReaches(points, x, y) then 0.08 <= m <= 1.0 else m == 0.0
  {
    HeatMeaning(points, x, y, exp);
    if AnyReaches(points, x, y) {
      MeanIsBetween(Heat(points, x, y, exp), Weight(points, x, y, exp));
    }
  }

  lemma OpacityOf(value: real, peak: real)
    requires 0.08 <= value <= peak <= 1.0
    ensures TintOf(value, peak)[3] >= 56
  {
    var n := value / peak;
    assert n * peak == value;
    assert 0.08 * peak <= 0.08;
    Cancel(0.08, n, peak);
    Cancel(n, 1.0, peak);
  }

  lemma PeakIsSmall(points: seq<Point>, peak: real, exp: Kernel)
    requires Positive(exp) && AllWarm(points) && IsTilePeak(peak, points, exp)
    ensures peak <= 1.0
  {
    if peak > 0.0 {
      var x, y :| OnTile(x, y) && peak == MeanAt(points, x, y, exp);
      MeanMeaning(points, x, y, exp);
    }
  }

  lemma OpacityAt(rgba: seq<Byte>, points: seq<Point>, peak: real, exp: Kernel, x: int, y: int)
    requires IsPicture(rgba, points, peak, exp) && OnTile(x, y)
    ensures 4 * Index(x, y) + 3 < |rgba| && rgba[4 * Index(x, y) + 3] == Shown(points, x, y, peak, exp)[3]
  {
    assert ShowsAt(rgba, Index(x, y), Shown(points, x, y, peak, exp));
  }

  lemma ShownOpacity(points: seq<Point>, peak: real, exp: Kernel, x: int, y: int)
    requires Positive(exp) && AllWarm(points) && IsTilePeak(peak, points, exp) && OnTile(x, y)
    ensures var opacity := Shown(points, x, y, peak, exp)[3];
            if AnyReaches(points, x, y) then opacity >= 56 else opacity == 0
  {
    MeanMeaning(points, x, y, exp);
    PeakIsSmall(points, peak, exp);
    if AnyReaches(points, x, y) {
      OpacityOf(MeanAt(points, x, y, exp), peak);
    }
  }

  /** A pixel is transparent exactly when no point comes within 84 pixels of it; any other pixel has an
      opacity of at least 56. */
  lemma ShownWhereReached(rgba: seq<Byte>, rows: seq<Row>, layer: string, exp: Kernel, x: int, y: int)
    requires Pictures(rgba, PointsOf(rows, layer), exp) && Positive(exp) && OnTile(x, y)
    ensures 4 * Index(x, y) + 3 < |rgba|
    ensures var opacity := rgba[4 * Index(x, y) + 3];
            if AnyReaches(PointsOf(rows, layer), x, y) then opacity >= 56 else opacity == 0
  {
    var points := PointsOf(rows, layer);
    var peak :| IsPicture(rgba, points, peak, exp);
    PointsAreWarm(rows, layer);
    OpacityAt(rgba, points, peak, exp, x, y);
    ShownOpacity(points, peak, exp, x, y);
  }

  // ---------------------------------------------------------------- what the margin leaves out

  /** The column or row of the tile that is nearest to a position. */
  function Near(c: real): int {
    var n := (c + 0.5).Floor;
    if n < 0 then 0 else if n > 255 then 255 else n
  }

  lemma NearIsNearest(c: real, x: int)
    requires 0 <= x <= 255
    ensures var d, e := Near(c) as real - c, x as real - c;
            -e <= d <= e || e <= d <= -e
  {
    var n := (c + 0.5).Floor;
    assert n as real <= c + 0.5 < n as real + 1.0;
    if x < Near(c) {
      assert x as real + 1.0 <= Near(c) as real;
    } else if x > Near(c) {
      assert Near(c) as real + 1.0 <= x as real;
    }
  }

  lemma SmallerSquare(d: real, e: real)
    requires -e <= d <= e || e <= d <= -e
    ensures Times(d, d) <= Times(e, e)
  {
    assert Times(e, e) - Times(d, d) == Times(e - d, e + d);
  }

  lemma NearIsReached(p: Point, x: int, y: int)
    requires OnTile(x, y) && Reaches(p, x, y)
    ensures Reaches(p, Near(p.x), Near(p.y))
  {
    NearIsNearest(p.x, x);
    NearIsNearest(p.y, y);
    SmallerSquare(Near(p.x) as real - p.x, x as real - p.x);
    SmallerSquare(Near(p.y) as real - p.y, y as real - p.y);
  }

  /** A point reaches the tile exactly when it reaches the nearest pixel. */
  lemma ReachesTileIff(p: Point)
    ensures (exists x, y :: OnTile(x, y) && Reaches(p, x, y)) <==> Reaches(p, Near(p.x), Near(p.y))
  {
    forall x, y | OnTile(x, y) && Reaches(p, x, y) ensures Reaches(p, Near(p.x), Near(p.y)) {
      NearIsReached(p, x, y);
    }
    assert OnTile(Near(p.x), Near(p.y));
  }

  /** The points of all rows with a known place, whether kept or not. */
  function AllPointsOf(rows: seq<Row>, layer: string): seq<Point> {
    if rows == [] then []
    else
      var last := rows[|rows| - 1];
      AllPointsOf(rows[..|rows| - 1], layer) + (if last.place.Some? then [PointOf(last, layer)] else [])
  }

  /** A row is left out although its point reaches a pixel. */
  predicate LostAt(row: Row, layer: string, x: int, y: int) {
    row.place.Some? && !IsKept(row) && Reaches(PointOf(row, layer), x, y)
  }

  ghost predicate AnyLostAt(rows: seq<Row>, layer: string, x: int, y: int) {
    exists i :: 0 <= i < |rows| && LostAt(rows[i], layer, x, y)
  }

  lemma SumsOfOneMore(points: seq<Point>, more: seq<Point>, x: int, y: int, exp: Kernel)
    requires |more| <= 1
    ensures Weight(points + more, x, y, exp)
         == Weight(points, x, y, exp) + (if more == [] then 0.0 else WeightOf(more[0], x, y, exp))
    ensures Heat(points + more, x, y, exp)
         == Heat(points, x, y, exp) + (if more == [] then 0.0 else HeatOf(more[0], x, y, exp))
  {
    AppendNothing(points);
    if more != [] {
      SplitAppend(points, more);
      assert more == [more[0]];
    }
  }

  lemma AnyLostOfOneMore(rows: seq<Row>, layer: string, x: int, y: int)
    requires rows != []
    ensures AnyLostAt(rows, layer, x, y)
       <==> AnyLostAt(rows[..|rows| - 1], layer, x, y) || LostAt(rows[|rows| - 1], layer, x, y)
  {
  }

  /** At one pixel: the rows left out can only take weight away, and take none exactly when none of them
      reaches it. */
  lemma {:induction false} LostWeight(rows: seq<Row>, layer: string, x: int, y: int, exp: Kernel)
    requires Positive(exp)
    ensures var all, kept := AllPointsOf(rows, layer), PointsOf(rows, layer);
            && Weight(kept, x, y, exp) <= Weight(all, x, y, exp)
            && (Weight(kept, x, y, exp) == Weight(all, x, y, exp) <==> !AnyLostAt(rows, layer, x, y))
            && (!AnyLostAt(rows, layer, x, y) ==> Heat(kept, x, y, exp) == Heat(all, x, y, exp))
    decreases |rows|
  {
    if rows != [] {
      var n := |rows| - 1;
      var last := rows[n];
      LostWeight(rows[..n], layer, x, y, exp);
      AnyLostOfOneMore(rows, layer, x, y);
      if last.place.Some? {
        var point := PointOf(last, layer);
        HeatOfOne(point, x, y, exp);
        SumsOfOneMore(AllPointsOf(rows[..n], layer), [point], x, y, exp);
        SumsOfOneMore(PointsOf(rows[..n], layer), if IsKept(last) then [point] else [], x, y, exp);
      } else {
        AppendNothing(AllPointsOf(rows[..n], layer));
        AppendNothing(PointsOf(rows[..n], layer));
      }
    }
  }

  /** A row is left out although its point reaches the pixel of the tile nearest to it. */
  predicate IsLost(row: Row, layer: string) {
    row.place.Some? && LostAt(row, layer, Near(row.place.value.x), Near(row.place.value.y))
  }

  ghost predicate SameWeights(rows: seq<Row>, layer: string, exp: Kernel) {
    forall x, y :: OnTile(x, y) ==>
      Weight(PointsOf(rows, layer), x, y, exp) == Weight(AllPointsOf(rows, layer), x, y, exp)
  }

  ghost predicate SameHeat(rows: seq<Row>, layer: string, exp: Kernel) {
    forall x, y :: OnTile(x, y) ==>
      Heat(PointsOf(rows, layer), x, y, exp) == Heat(AllPointsOf(rows, layer), x, y, exp)
  }

  /** The margin does no harm exactly when no row with a known place is left out although it reaches the
      pixel of the tile nearest to it: then weights and heat are those of all rows at every pixel, and
      otherwise some pixel lacks weight. */
  lemma MarginIsHarmlessIff(rows: seq<Row>, layer: string, exp: Kernel)
    requires Positive(exp)
    ensures SameWeights(rows, layer, exp) <==> forall i :: 0 <= i < |rows| ==> !IsLost(rows[i], layer)
    ensures SameWeights(rows, layer, exp) ==> SameHeat(rows, layer, exp)
  {
    forall x, y | OnTile(x, y)
      ensures Weight(PointsOf(rows, layer), x, y, exp) == Weight(AllPointsOf(rows, layer), x, y, exp)
         <==> !AnyLostAt(rows, layer, x, y)
      ensures !AnyLostAt(rows, layer, x, y)
          ==> Heat(PointsOf(rows, layer), x, y, exp) == Heat(AllPointsOf(rows, layer), x, y, exp)
    {
      LostWeight(rows, layer, x, y, exp);
    }
    LostSomewhere(rows, layer);
  }

  lemma SamePicture(rgba: seq<Byte>, a: seq<Point>, b: seq<Point>, exp: Kernel)
    requires forall x, y :: OnTile(x, y) ==> MeanAt(a, x, y, exp) == MeanAt(b, x, y, exp)
    ensures Pictures(rgba, a, exp) ==> Pictures(rgba, b, exp)
  {
    if Pictures(rgba, a, exp) {
      var peak :| IsPicture(rgba, a, peak, exp);
      if peak > 0.0 {
        var x, y :| OnTile(x, y) && peak == MeanAt(a, x, y, exp);
        assert peak == MeanAt(b, x, y, exp);
      }
      assert IsTilePeak(peak, b, exp);
      assert IsPicture(rgba, b, peak, exp);
    }
  }

  /** Then the picture of the kept rows is the picture of all rows. */
  lemma HarmlessMarginPicture(rgba: seq<Byte>, rows: seq<Row>, layer: string, exp: Kernel)
    requires Positive(exp) && forall i :: 0 <= i < |rows| ==> !IsLost(rows[i], layer)
    ensures Pictures(rgba, PointsOf(rows, layer), exp) <==> Pictures(rgba, AllPointsOf(rows, layer), exp)
  {
    MarginIsHarmlessIff(rows, layer, exp);
    SamePicture(rgba, PointsOf(rows, layer), AllPointsOf(rows, layer), exp);
    SamePicture(rgba, AllPointsOf(rows, layer), PointsOf(rows, layer), exp);
  }

  /** Points as hot as can be. */
  predicate AllHottest(points: seq<Point>) {
    forall i :: 0 <= i < |points| ==> points[i].intensity == 1.0
  }

  lemma {:induction false} HeatIsWeight(points: seq<Point>, x: int, y: int, exp: Kernel)
    requires AllHottest(points)
    ensures Heat(points, x, y, exp) == Weight(points, x, y, exp)
    decreases |points|
  {
    if points != [] {
      HeatIsWeight(points[..|points| - 1], x, y, exp);
    }
  }

  /** Their mean is one wherever one of them reaches. */
  lemma HottestMean(points: seq<Point>, x: int, y: int, exp: Kernel)
    requires Positive(exp) && AllHottest(points)
    ensures MeanAt(points, x, y, exp) == if AnyReaches(points, x, y) then 1.0 else 0.0
  {
    HeatMeaning(points, x, y, exp);
    HeatIsWeight(points, x, y, exp);
    MeanOfEqual(Weight(points, x, y, exp));
  }

  lemma MeanOfEqual(weight: real)
    ensures weight > 0.0 ==> Mean(weight, weight) == 1.0
  {
  }

  lemma SamePlaceReached(a: Point, b: Point, x: int, y: int)
    requires a.x == 0.0 && b.x == -82.0 && a.y == b.y && x >= 0 && Reaches(b, x, y)
    ensures Reaches(a, x, y)
  {
    var d := x as real;
    assert Times(d + 82.0, d + 82.0) == Times(d, d) + 164.0 * d + 6724.0;
  }

  /** A lost row need not change the picture: where another one as hot shows the same pixels, the picture
      of the kept rows is that of all rows although a row is lost. */
  lemma LostRowMayNotShow(rgba: seq<Byte>, exp: Kernel)
    requires Positive(exp)
    ensures var rows := [Row(Some(Place(0.0, 0.0)), 100.0), Row(Some(Place(-82.0, 0.0)), 100.0)];
            && IsLost(rows[1], "wind")
            && (Pictures(rgba, PointsOf(rows, "wind"), exp) <==> Pictures(rgba, AllPointsOf(rows, "wind"), exp))
  {
    var kept, lost := Row(Some(Place(0.0, 0.0)), 100.0), Row(Some(Place(-82.0, 0.0)), 100.0);
    MarginCutsOff(100.0, "wind");
    var a, b := PointOf(kept, "wind"), PointOf(lost, "wind");
    PointsOfTwo(kept, lost, "wind");
    forall x, y | OnTile(x, y) ensures MeanAt([a], x, y, exp) == MeanAt([a, b], x, y, exp) {
      HottestMean([a], x, y, exp);
      HottestMean([a, b], x, y, exp);
      assert [a][0] == a && [a, b][0] == a && [a, b][1] == b;
      if Reaches(b, x, y) {
        SamePlaceReached(a, b, x, y);
      }
    }
    SamePicture(rgba, [a], [a, b], exp);
    SamePicture(rgba, [a, b], [a], exp);
  }

  lemma PointsOfTwo(kept: Row, lost: Row, layer: string)
    requires IsKept(kept) && lost.place.Some? && !IsKept(lost)
    ensures PointsOf([kept, lost], layer) == [PointOf(kept, layer)]
    ensures AllPointsOf([kept, lost], layer) == [PointOf(kept, layer), PointOf(lost, layer)]
  {
    var rows := [kept, lost];
    assert rows[..1] == [kept] && [kept][..0] == [];
    assert PointsOf([kept], layer) == [] + [PointOf(kept, layer)];
    assert AllPointsOf([kept], layer) == [] + [PointOf(kept, layer)];
    assert AllPointsOf(rows, layer) == AllPointsOf(rows[..1], layer) + [PointOf(lost, layer)];
  }

  lemma LostSomewhere(rows: seq<Row>, layer: string)
    ensures (exists x, y :: OnTile(x, y) && AnyLostAt(rows, layer, x, y))
       <==> exists i :: 0 <= i < |rows| && IsLost(rows[i], layer)
  {
    forall x, y | OnTile(x, y) && AnyLostAt(rows, layer, x, y)
      ensures exists i :: 0 <= i < |rows| && IsLost(rows[i], layer)
    {
      var i :| 0 <= i < |rows| && LostAt(rows[i], layer, x, y);
      NearIsReached(PointOf(rows[i], layer), x, y);
      assert IsLost(rows[i], layer);
    }
    forall i | 0 <= i < |rows| && IsLost(rows[i], layer)
      ensures exists x, y :: OnTile(x, y) && AnyLostAt(rows, layer, x, y)
    {
      var place := rows[i].place.value;
      assert OnTile(Near(place.x), Near(place.y)) && AnyLostAt(rows, layer, Near(place.x), Near(place.y));
    }
  }

  /** Such rows exist, because the margin is narrower than the reach: a place 82 pixels off the tile
      reaches its edge, but is left out. */
  lemma MarginCutsOff(value: real, layer: string)
    ensures var row := Row(Some(Place(-82.0, 0.0)), value);
            Reaches(PointOf(row, layer), 0, 0) && !IsKept(row) && PointsOf([row], layer) == [] && IsLost(row, layer)
  {
  }
}
