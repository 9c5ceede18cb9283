/** What a heat tile shows, in pixels and shades: how a point's weight falls with its distance, whose intensity
    a mean is nearer to, which colours stand for which share of the peak, and what one place looks like. */
module HeatMeaning {
  import opened Bytes
  import opened HeatTile
  import opened HeatPicture
  import opened Numbers
  import opened Wrappers

  // ---------------------------------------------------------------- weights

  /** What the pictures need of an exponential function. */
  ghost predicate IsExponential(exp: Kernel) {
    && Positive(exp)
    && exp(0.0) == 1.0
    && (forall s, t :: s < t ==> exp(s) < exp(t))
  }

  predicate IsSquareSum(d2: real, dx: real, dy: real) { d2 == dx * dx + dy * dy }

  /** The square of the distance between a place and a pixel, by Pythagoras. */
  predicate IsDistance2(d2: real, p: Point, x: int, y: int) {
    IsSquareSum(d2, x as real - p.x, y as real - p.y)
  }

  lemma DistanceIsDistance(d2: real, p: Point, x: int, y: int)
    ensures IsDistance2(d2, p, x, y) <==> d2 == Distance2(p, x, y)
  {
    var dx, dy := x as real - p.x, y as real - p.y;
    assert Times(dx, dx) == dx * dx && Times(dy, dy) == dy * dy;
  }

  /** A point weighs one at its own place, the exponential of minus a half at 28 pixels, and nothing beyond
      84; between, more is further. */
  lemma WeightMeaning(d2: real, p: Point, x: int, y: int, e2: real, q: Point, u: int, v: int, exp: Kernel)
    requires IsExponential(exp) && IsDistance2(d2, p, x, y) && IsDistance2(e2, q, u, v)
    ensures d2 == 0.0 ==> WeightOf(p, x, y, exp) == 1.0
    ensures d2 == 28.0 * 28.0 ==> WeightOf(p, x, y, exp) == exp(-0.5)
    ensures d2 > 84.0 * 84.0 ==> WeightOf(p, x, y, exp) == 0.0
    ensures d2 == e2 ==> WeightOf(p, x, y, exp) == WeightOf(q, u, v, exp)
    ensures d2 < e2 && d2 <= 84.0 * 84.0 ==> WeightOf(p, x, y, exp) > WeightOf(q, u, v, exp)
  {
    DistanceIsDistance(d2, p, x, y);
    DistanceIsDistance(e2, q, u, v);
    assert d2 < e2 ==> -d2 / 1568.0 > -e2 / 1568.0;
  }

  // ---------------------------------------------------------------- means

  lemma Balance(l: real, r: real, a: real, b: real)
    requires a > 0.0 && b > 0.0 && Times(l, a) == Times(r, b)
    ensures l > 0.0 <==> r > 0.0
    ensures l < 0.0 <==> r < 0.0
  {
  }

  lemma BalanceNearer(l: real, r: real, a: real, b: real)
    requires a > 0.0 && b > 0.0 && Times(l, a) == Times(r, b) && l > 0.0 && r > 0.0
    ensures l < r <==> b < a
  {
    if b < a {
      assert r * b < r * a;
      assert l < r;
    } else {
      assert r * a <= r * b;
      assert l >= r;
    }
  }

  /** A mean lies between its two parts so that the weights balance. */
  lemma MeansBalance(m: real, a: real, i: real, b: real)
    requires a > 0.0 && b > 0.0
    ensures var n := Mean(Times(m, a) + Times(i, b), a + b);
            Times(n - m, a) == Times(i - n, b)
  {
    var n := Mean(Times(m, a) + Times(i, b), a + b);
    MeanTimesWeight(Times(m, a) + Times(i, b), a + b);
    assert n * a + n * b == m * a + i * b;
  }

  lemma SoleMean(intensity: real, weight: real)
    ensures weight > 0.0 ==> Mean(Times(intensity, weight), weight) == intensity
  {
  }

  /** Where one point reaches alone, the mean is its intensity. */
  lemma MeanOfOne(p: Point, x: int, y: int, exp: Kernel)
    requires Positive(exp)
    ensures MeanAt([p], x, y, exp) == if Reaches(p, x, y) then p.intensity else 0.0
  {
    SumsOfOneMore([], [p], x, y, exp);
    assert [] + [p] == [p];
    SoleMean(p.intensity, WeightOf(p, x, y, exp));
  }

  lemma MeanTimesWeight(heat: real, weight: real)
    requires weight > 0.0
    ensures Times(Mean(heat, weight), weight) == heat
  {
  }

  lemma OneMoreBalances(points: seq<Point>, p: Point, x: int, y: int, exp: Kernel)
    requires Positive(exp) && Weight(points, x, y, exp) > 0.0 && Reaches(p, x, y)
    ensures var m, n := MeanAt(points, x, y, exp), MeanAt(points + [p], x, y, exp);
            Times(n - m, Weight(points, x, y, exp)) == Times(p.intensity - n, WeightOf(p, x, y, exp))
  {
    SumsOfOneMore(points, [p], x, y, exp);
    MeanTimesWeight(Heat(points, x, y, exp), Weight(points, x, y, exp));
    MeansBalance(MeanAt(points, x, y, exp), Weight(points, x, y, exp), p.intensity, WeightOf(p, x, y, exp));
  }

  /** One more point that reaches a pixel moves its mean towards the point's intensity, and not all the way;
      one that does not leaves it. */
  lemma OneMorePulls(points: seq<Point>, p: Point, x: int, y: int, exp: Kernel)
    requires Positive(exp) && AllWarm(points) && AnyReaches(points, x, y)
    ensures var m, n := MeanAt(points, x, y, exp), MeanAt(points + [p], x, y, exp);
            && (!Reaches(p, x, y) || p.intensity == m ==> n == m)
            && (Reaches(p, x, y) && p.intensity > m ==> m < n < p.intensity)
            && (Reaches(p, x, y) && p.intensity < m ==> m > n > p.intensity)
  {
    HeatMeaning(points, x, y, exp);
    if Reaches(p, x, y) {
      OneMoreBalances(points, p, x, y, exp);
      var m, n := MeanAt(points, x, y, exp), MeanAt(points + [p], x, y, exp);
      Balance(n - m, p.intensity - n, Weight(points, x, y, exp), WeightOf(p, x, y, exp));
    } else {
      SumsOfOneMore(points, [p], x, y, exp);
    }
  }

  lemma PairBalances(p: Point, q: Point, x: int, y: int, exp: Kernel)
    requires Positive(exp) && Reaches(p, x, y) && Reaches(q, x, y)
    ensures var n := MeanAt([p, q], x, y, exp);
            Times(n - p.intensity, WeightOf(p, x, y, exp)) == Times(q.intensity - n, WeightOf(q, x, y, exp))
  {
    assert [p] + [q] == [p, q] && [p][..0] == [];
    assert Weight([p], x, y, exp) == WeightOf(p, x, y, exp);
    MeanOfOne(p, x, y, exp);
    OneMoreBalances([p], q, x, y, exp);
  }

  /** The mean of two points that reach a pixel lies between their intensities, and nearer to that of the
      point nearer to the pixel. */
  lemma NearerPullsMore(d2: real, p: Point, e2: real, q: Point, x: int, y: int, exp: Kernel)
    requires IsExponential(exp) && IsDistance2(d2, p, x, y) && IsDistance2(e2, q, x, y)
    requires d2 <= 84.0 * 84.0 && e2 <= 84.0 * 84.0 && p.intensity < q.intensity
    ensures var n := MeanAt([p, q], x, y, exp);
            && p.intensity < n < q.intensity
            && (n - p.intensity < q.intensity - n <==> d2 < e2)
            && (n - p.intensity == q.intensity - n <==> d2 == e2)
  {
    DistanceIsDistance(d2, p, x, y);
    DistanceIsDistance(e2, q, x, y);
    PairBalances(p, q, x, y, exp);
    var n, a, b := MeanAt([p, q], x, y, exp), WeightOf(p, x, y, exp), WeightOf(q, x, y, exp);
    Balance(n - p.intensity, q.intensity - n, a, b);
    BalanceNearer(n - p.intensity, q.intensity - n, a, b);
    BalanceNearer(q.intensity - n, n - p.intensity, b, a);
    WeightMeaning(d2, p, x, y, e2, q, x, y, exp);
    WeightMeaning(e2, q, x, y, d2, p, x, y, exp);
  }

  // ---------------------------------------------------------------- colours

  /** The nearest integer, the upper one of two. */
  predicate IsNearest(i: int, r: real) { i as real - 0.5 <= r < i as real + 0.5 }

  lemma ShareOf(value: real, peak: real, n: real)
    requires peak > 0.0 && value == Times(n, peak)
    ensures value / peak == n
  {
  }

  /** The colour of a share n of the peak: red with n, blue with the rest, green faster and then full,
      opacity from 40 to 240. */
  lemma TintMeaning(value: real, peak: real, n: real)
    requires peak > 0.0 && value == Times(n, peak) && 0.0 < n <= 1.0
    ensures var t := TintOf(value, peak);
            && IsNearest(t[0] as int, 255.0 * n)
            && (if 1.35 * n <= 1.0 then IsNearest(t[1] as int, 344.25 * n) else t[1] == 255)
            && IsNearest(t[2] as int, 255.0 - 255.0 * n)
            && IsNearest(t[3] as int, 40.0 + 200.0 * n)
  {
    ShareOf(value, peak, n);
  }

  lemma TintIsTint(n: real)
    requires 0.0 < n <= 1.0
    ensures Tint(n)
         == [Round(255.0 * n), Round(255.0 * Lower(1.0, n * 1.35)), Round(255.0 * (1.0 - n)), Round(40.0 + n * 200.0)]
  {
  }

  lemma RoundGrows(r: real, s: real)
    requires 0.0 <= r <= s <= 255.0
    ensures Round(r) <= Round(s)
  {
  }

  lemma HotterShare(m: real, n: real)
    requires 0.0 < m <= n <= 1.0
    ensures var s, t := Tint(m), Tint(n);
            s[0] <= t[0] && s[1] <= t[1] && s[2] >= t[2] && s[3] <= t[3]
  {
    TintIsTint(m);
    TintIsTint(n);
    RoundGrows(255.0 * m, 255.0 * n);
    RoundGrows(255.0 * Lower(1.0, m * 1.35), 255.0 * Lower(1.0, n * 1.35));
    RoundGrows(255.0 * (1.0 - n), 255.0 * (1.0 - m));
    RoundGrows(40.0 + m * 200.0, 40.0 + n * 200.0);
  }

  lemma SharesGrow(m: real, n: real, peak: real)
    requires 0.0 < m <= n <= peak
    ensures 0.0 < m / peak <= n / peak <= 1.0
  {
    assert m / peak * peak == m && n / peak * peak == n;
    Cancel(m / peak, n / peak, peak);
    Cancel(n / peak, 1.0, peak);
  }

  /** A hotter mean has no less red, green and opacity and no more blue; the peak itself is an almost opaque
      yellow, and nothing at all is clear. */
  lemma HotterTint(m: real, n: real, peak: real)
    requires 0.0 < m <= n <= peak
    ensures var s, t := TintOf(m, peak), TintOf(n, peak);
            s[0] <= t[0] && s[1] <= t[1] && s[2] >= t[2] && s[3] <= t[3]
    ensures TintOf(peak, peak) == [255, 255, 0, 240]
    ensures TintOf(0.0, peak) == [0, 0, 0, 0]
  {
    SharesGrow(m, n, peak);
    HotterShare(m / peak, n / peak);
    ShareOf(peak, peak, 1.0);
    ShareOf(0.0, peak, 0.0);
  }

  // ---------------------------------------------------------------- rows

  predicate IsIn80Of(c: real, t: real) { 0.0 <= t <= 256.0 && -80.0 <= t - c <= 80.0 }

  /** Whether a number is within 80 of one on the tile's axis of 256 pixels. */
  ghost predicate IsWithin80(c: real) { exists t: real :: IsIn80Of(c, t) }

  lemma Within80Iff(c: real)
    ensures IsWithin80(c) <==> -80.0 <= c <= 336.0
  {
    if -80.0 <= c <= 336.0 {
      var t := if c < 0.0 then 0.0 else if c > 256.0 then 256.0 else c;
      assert IsIn80Of(c, t);
    }
  }

  /** A row is kept exactly when its place is known and within 80 pixels of the tile on both axes. */
  lemma KeptIff(row: Row)
    ensures IsKept(row)
       <==> row.place.Some? && IsWithin80(row.place.value.x) && IsWithin80(row.place.value.y)
  {
    if row.place.Some? {
      Within80Iff(row.place.value.x);
      Within80Iff(row.place.value.y);
    }
  }

  /** The four octets of a pixel. */
  predicate HasColour(rgba: seq<Byte>, x: int, y: int, colour: seq<Byte>)
    requires |rgba| == 4 * PIXELS && OnTile(x, y)
  {
    rgba[4 * (256 * y + x)..4 * (256 * y + x) + 4] == colour
  }

  lemma ColourAt(rgba: seq<Byte>, points: seq<Point>, peak: real, exp: Kernel, x: int, y: int)
    requires IsPicture(rgba, points, peak, exp) && OnTile(x, y)
    ensures HasColour(rgba, x, y, TintOf(MeanAt(points, x, y, exp), peak))
  {
    assert ShowsAt(rgba, Index(x, y), Shown(points, x, y, peak, exp));
  }

  lemma DiscPeak(p: Point, peak: real, x: int, y: int, exp: Kernel)
    requires Positive(exp) && p.intensity > 0.0 && IsTilePeak(peak, [p], exp) && OnTile(x, y) && Reaches(p, x, y)
    ensures peak == p.intensity
  {
    MeanOfOne(p, x, y, exp);
    var u, v :| OnTile(u, v) && peak == MeanAt([p], u, v, exp);
    MeanOfOne(p, u, v, exp);
  }

  /** The colour of a pixel where there is one place alone. */
  function DiscColour(d2: real): seq<Byte> {
    if d2 <= 84.0 * 84.0 then [255, 255, 0, 240] else [0, 0, 0, 0]
  }

  lemma DiscAt(rgba: seq<Byte>, p: Point, peak: real, exp: Kernel, x: int, y: int)
    requires IsExponential(exp) && p.intensity > 0.0 && OnTile(x, y) && IsPicture(rgba, [p], peak, exp)
    ensures HasColour(rgba, x, y, DiscColour(Distance2(p, x, y)))
  {
    ColourAt(rgba, [p], peak, exp, x, y);
    MeanOfOne(p, x, y, exp);
    if Reaches(p, x, y) {
      DiscPeak(p, peak, x, y, exp);
      HotterTint(peak, peak, peak);
    } else if peak > 0.0 {
      HotterTint(peak, peak, peak);
    }
  }

  lemma PointsOfOne(row: Row, layer: string)
    requires IsKept(row)
    ensures PointsOf([row], layer) == [PointOf(row, layer)]
  {
    assert [row][..0] == [];
    assert PointsOf([row], layer) == [] + [PointOf(row, layer)];
  }

  /** One place alone is a disc with a radius of 84 pixels in the colour of the peak, whatever its value. */
  lemma OnePlaceIsADisc(rgba: seq<Byte>, row: Row, layer: string, exp: Kernel, x: int, y: int, d2: real)
    requires IsExponential(exp) && IsKept(row) && OnTile(x, y) && Pictures(rgba, PointsOf([row], layer), exp)
    requires IsSquareSum(d2, x as real - row.place.value.x, y as real - row.place.value.y)
    ensures |rgba| == 4 * PIXELS && HasColour(rgba, x, y, DiscColour(d2))
  {
    var p := PointOf(row, layer);
    PointsOfOne(row, layer);
    var peak :| IsPicture(rgba, [p], peak, exp);
    DiscAt(rgba, p, peak, exp, x, y);
    DistanceIsDistance(d2, p, x, y);
  }
}
