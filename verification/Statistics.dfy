/** Pearson correlation and linear regression over real sequences. */
module Statistics {
  import opened Vectors
  import opened Forms
  import opened Numbers
  import opened Wrappers
  import opened Sequences

  // ---------------------------------------------------------------- products and spreads are forms

  lemma DotIsSymmetric()
    ensures Symmetric(DotForm)
  {
    forall x, y ensures DotForm(x, y) == DotForm(y, x) {
      if |x| == |y| { DotCommutes(x, y); }
    }
  }

  lemma DotIsAdditive()
    ensures Additive(DotForm)
  {
    forall x: seq<real>, y: seq<real>, z: seq<real> | |x| == |y| == |z|
      ensures DotForm(Plus(x, y), z) == DotForm(x, z) + DotForm(y, z) {
      DotOfPlus(x, y, z);
    }
  }

  lemma DotIsHomogeneous()
    ensures Homogeneous(DotForm)
  {
    forall a, x: seq<real>, z: seq<real> | |x| == |z| ensures DotForm(Scale(a, x), z) == Times(a, DotForm(x, z)) {
      DotOfScale(a, x, z);
    }
  }

  lemma DotShiftsByTotal()
    ensures ShiftAddsTotal(DotForm, Total)
  {
    forall x: seq<real>, c, z: seq<real> | |x| == |z|
      ensures DotForm(Shift(x, c), z) == DotForm(x, z) + Times(c, Total(z)) {
      DotOfShift(x, c, z);
    }
  }

  lemma TotalShiftsByCount()
    ensures ShiftAddsCount(Total)
  {
    forall x: seq<real>, c ensures Total(Shift(x, c)) == Total(x) + Times(c, |x| as real) {
      TotalOfShift(x, c);
    }
  }

  lemma TotalIsLinear()
    ensures Linear(Total)
  {
    forall x: seq<real>, y: seq<real> | |x| == |y| ensures Total(Plus(x, y)) == Total(x) + Total(y) {
      TotalOfPlus(x, y);
    }
    forall a, x ensures Total(Scale(a, x)) == Times(a, Total(x)) {
      TotalOfScale(a, x);
    }
  }

  lemma SpreadIsSymmetric()
    ensures Symmetric(SpreadForm)
  {
    forall x, y ensures SpreadForm(x, y) == SpreadForm(y, x) {
      SpreadFormCommutes(x, y);
    }
  }

  lemma SpreadIsAdditive()
    ensures Additive(SpreadForm)
  {
    forall x: seq<real>, y: seq<real>, z: seq<real> | |x| == |y| == |z|
      ensures SpreadForm(Plus(x, y), z) == SpreadForm(x, z) + SpreadForm(y, z) {
      SpreadOfPlus(x, y, z);
    }
  }

  lemma SpreadIsHomogeneous()
    ensures Homogeneous(SpreadForm)
  {
    forall a, x: seq<real>, z: seq<real> | |x| == |z| ensures SpreadForm(Scale(a, x), z) == Times(a, SpreadForm(x, z)) {
      SpreadFormOfScale(a, x, z);
    }
  }

  lemma SpreadIgnoresShifts()
    ensures ShiftInvariant(SpreadForm)
  {
    forall x: seq<real>, c, z: seq<real> | |x| == |z| ensures SpreadForm(Shift(x, c), z) == SpreadForm(x, z) {
      SpreadOfShift(x, c, z);
    }
  }

  lemma SpreadIsDefinite()
    ensures NonNegative(SpreadForm)
    ensures forall x :: SpreadForm(x, x) == 0.0 <==> AllEqual(x)
  {
    forall x ensures SpreadForm(x, x) >= 0.0 && (SpreadForm(x, x) == 0.0 <==> AllEqual(x)) {
      SpreadIsPositive(x);
    }
  }

  lemma SpreadIsForm()
    ensures Bilinear(SpreadForm) && NonNegative(SpreadForm) && ShiftInvariant(SpreadForm)
    ensures forall x :: SpreadForm(x, x) == 0.0 <==> AllEqual(x)
  {
    SpreadIsSymmetric();
    SpreadIsAdditive();
    SpreadIsHomogeneous();
    SpreadIgnoresShifts();
    SpreadIsDefinite();
  }

  lemma DotIsForm()
    ensures Bilinear(DotForm) && SumsUp(DotForm, Total)
  {
    DotIsSymmetric();
    DotIsAdditive();
    DotIsHomogeneous();
    DotShiftsByTotal();
    TotalShiftsByCount();
    TotalIsLinear();
  }

  // ---------------------------------------------------------------- roots and quotients

  ghost predicate IsSquareRoot(sqrt: real -> real) {
    forall x: real :: x >= 0.0 ==> sqrt(x) >= 0.0 && sqrt(x) * sqrt(x) == x
  }

  lemma ProductIsZero(x: real, y: real, p: real)
    requires p == x * y && x >= 0.0 && y >= 0.0
    ensures p >= 0.0 && (p == 0.0 <==> x == 0.0 || y == 0.0)
  {
  }

  lemma RootIsZero(sqrt: real -> real, v: real)
    requires IsSquareRoot(sqrt) && v >= 0.0
    ensures sqrt(v) >= 0.0 && (sqrt(v) == 0.0 <==> v == 0.0)
  {
    ProductIsZero(sqrt(v), sqrt(v), v);
  }

  lemma SquaresOrder(x: real, y: real, xx: real, yy: real)
    requires xx == x * x && yy == y * y && x >= 0.0 && y >= 0.0
    ensures xx <= yy ==> x <= y
  {
    if x > y {
      assert xx - yy == (x - y) * (x + y);
      ProductSign(x - y, x + y, xx - yy);
    }
  }

  lemma RootBounds(c: real, root: real, cc: real, rr: real)
    requires cc == c * c && rr == root * root && root >= 0.0 && cc <= rr
    ensures -root <= c <= root
  {
    if c >= 0.0 {
      SquaresOrder(c, root, cc, rr);
    } else {
      SquaresOrder(-c, root, cc, rr);
    }
  }

  lemma QuotientBound(c: real, root: real, r: real)
    requires root > 0.0 && -root <= c <= root && r * root == c
    ensures -1.0 <= r <= 1.0
  {
  }

  /** The root of a product scaled by n * n is n times the root of the product. */
  lemma RootScales(sqrt: real -> real, n: real, x: real, y: real, nx: real, ny: real)
    requires IsSquareRoot(sqrt) && n >= 0.0 && x >= 0.0 && y >= 0.0 && nx == n * x && ny == n * y
    ensures sqrt(nx * ny) == n * sqrt(x * y)
  {
    var a, b := sqrt(nx * ny), n * sqrt(x * y);
    ProductIsZero(x, y, x * y);
    ProductIsZero(n, x, nx);
    ProductIsZero(n, y, ny);
    ProductIsZero(nx, ny, nx * ny);
    ProductIsZero(n, sqrt(x * y), b);
    SquareOfScaled(n, sqrt(x * y), x, y);
    SquaresOrder(a, b, a * a, b * b);
    SquaresOrder(b, a, b * b, a * a);
  }

  lemma SquareOfScaled(n: real, root: real, x: real, y: real)
    requires root * root == x * y
    ensures n * root * (n * root) == n * x * (n * y)
  {
  }

  // ---------------------------------------------------------------- the correlation

  /** Zero when one of the spreads is, else the quotient by the root. */
  predicate IsRatioOrZero(r: real, c: real, a: real, b: real, sqrt: real -> real) {
    if a == 0.0 || b == 0.0 then r == 0.0 else IsRatio(r, c, sqrt(a * b))
  }

  predicate IsCorrelation(r: real, xs: seq<real>, ys: seq<real>, sqrt: real -> real)
    requires |xs| == |ys|
  {
    IsRatioOrZero(r, Spread(xs, ys), Spread(xs, xs), Spread(ys, ys), sqrt)
  }

  predicate IsRatio(r: real, c: real, root: real) { root > 0.0 && r * root == c }

  lemma RatioIsBounded(r: real, c: real, root: real, v: real)
    requires root > 0.0 && r == c / root && root * root == v && c * c <= v
    ensures IsRatio(r, c, root) && -1.0 <= r <= 1.0
  {
    QuotientTimes(c, root);
    RootBounds(c, root, c * c, v);
    QuotientBound(c, root, r);
  }

  lemma QuotientTimes(a: real, b: real)
    requires b != 0.0
    ensures a / b * b == a
  {
  }

  datatype Sums = Sums(x: real, y: real, xy: real, xx: real, yy: real)

  /** The running sums after the first n pairs. */
  predicate SumsOf(s: Sums, xs: seq<real>, ys: seq<real>, n: nat)
    requires n <= |xs| == |ys|
  {
    && s.x == Total(xs[..n]) && s.y == Total(ys[..n])
    && s.xy == Dot(xs[..n], ys[..n]) && s.xx == Dot(xs[..n], xs[..n]) && s.yy == Dot(ys[..n], ys[..n])
  }

  lemma DotNext(xs: seq<real>, ys: seq<real>, i: nat)
    requires i < |xs| == |ys|
    ensures Dot(xs[..i + 1], ys[..i + 1]) == Dot(xs[..i], ys[..i]) + xs[i] * ys[i]
    ensures Total(xs[..i + 1]) == Total(xs[..i]) + xs[i]
  {
    NextPrefix(xs, i);
    NextPrefix(ys, i);
  }

  lemma NextSums(s: Sums, xs: seq<real>, ys: seq<real>, i: nat)
    requires i < |xs| == |ys| && SumsOf(s, xs, ys, i)
    ensures SumsOf(Sums(s.x + xs[i], s.y + ys[i], s.xy + xs[i] * ys[i], s.xx + xs[i] * xs[i], s.yy + ys[i] * ys[i]),
                   xs, ys, i + 1)
  {
    DotNext(xs, ys, i);
    DotNext(xs, xs, i);
    DotNext(ys, ys, i);
  }

  /** The loop of running sums over both sequences. */
  method SumUp(xs: seq<real>, ys: seq<real>) returns (s: Sums)
    requires |xs| == |ys|
    ensures s == Sums(Total(xs), Total(ys), Dot(xs, ys), Dot(xs, xs), Dot(ys, ys))
  {
    s := Sums(0.0, 0.0, 0.0, 0.0, 0.0);
    var i := 0;
    while i < |xs|
      invariant 0 <= i <= |xs|
      invariant SumsOf(s, xs, ys, i)
    {
      NextSums(s, xs, ys, i);
      s := Sums(s.x + xs[i], s.y + ys[i], s.xy + xs[i] * ys[i], s.xx + xs[i] * xs[i], s.yy + ys[i] * ys[i]);
      i := i + 1;
    }
    WholeSlice(xs);
    WholeSlice(ys);
  }

  lemma FewAreEqual(xs: seq<real>)
    requires |xs| < 2
    ensures AllEqual(xs)
  {
  }

  /** What the spreads of two sequences always satisfy. */
  predicate Consistent(c: real, a: real, b: real) { a >= 0.0 && b >= 0.0 && c * c <= a * b }

  /** The part after the loop. */
  method RatioOrZero(numerator: real, a: real, b: real, sqrt: real -> real) returns (r: real)
    requires Consistent(numerator, a, b) && IsSquareRoot(sqrt)
    ensures IsRatioOrZero(r, numerator, a, b, sqrt)
    ensures -1.0 <= r <= 1.0
  {
    var denominator := sqrt(a * b);
    ProductIsZero(a, b, a * b);
    RootIsZero(sqrt, a * b);
    if denominator == 0.0 {
      return 0.0;
    }
    r := numerator / denominator;
    RatioIsBounded(r, numerator, denominator, a * b);
  }

  lemma FormsAreConsistent(f: Form, xs: seq<real>, ys: seq<real>)
    requires Bilinear(f) && NonNegative(f) && |xs| == |ys|
    ensures Consistent(f(xs, ys), f(xs, xs), f(ys, ys))
  {
    CauchySchwarz(f, xs, ys);
  }

  lemma SpreadsAreBounded(xs: seq<real>, ys: seq<real>)
    requires |xs| == |ys|
    ensures Consistent(SpreadForm(xs, ys), SpreadForm(xs, xs), SpreadForm(ys, ys))
  {
    SpreadIsForm();
    FormsAreConsistent(SpreadForm, xs, ys);
  }

  lemma SpreadsAreConsistent(xs: seq<real>, ys: seq<real>)
    requires |xs| == |ys|
    ensures Consistent(SpreadForm(xs, ys), SpreadForm(xs, xs), SpreadForm(ys, ys))
    ensures (SpreadForm(xs, xs) == 0.0 <==> AllEqual(xs)) && (SpreadForm(ys, ys) == 0.0 <==> AllEqual(ys))
  {
    SpreadsAreBounded(xs, ys);
    SpreadIsPositive(xs);
    SpreadIsPositive(ys);
  }

  /** The numerator and the two factors under the root. */
  method Spreads(xs: seq<real>, ys: seq<real>) returns (c: real, a: real, b: real)
    requires |xs| == |ys|
    ensures c == Spread(xs, ys) && a == Spread(xs, xs) && b == Spread(ys, ys)
  {
    var n := |xs| as real;
    var s := SumUp(xs, ys);
    c, a, b := SpreadOf(n, s.xy, s.x, s.y), SpreadOf(n, s.xx, s.x, s.x), SpreadOf(n, s.yy, s.y, s.y);
  }

  method PearsonCorrelation(xs: seq<real>, ys: seq<real>, sqrt: real -> real) returns (r: real)
    requires |xs| == |ys| && IsSquareRoot(sqrt)
    ensures IsCorrelation(r, xs, ys, sqrt)
    ensures -1.0 <= r <= 1.0
    ensures AllEqual(xs) || AllEqual(ys) ==> r == 0.0
  {
    var n := |xs|;
    if n < 2 {
      FewAreEqual(xs);
      SpreadIsPositive(xs);
      return 0.0;
    }
    var c, a, b := Spreads(xs, ys);
    SpreadsAreConsistent(xs, ys);
    r := RatioOrZero(c, a, b, sqrt);
  }

  // ---------------------------------------------------------------- what the correlation means

  lemma CancelBoth(a: real, b: real, n: real)
    requires n > 0.0 && a * n == b * n
    ensures a == b
  {
  }

  lemma ProductIsPositive(n: real, x: real, p: real)
    requires n > 0.0 && p == n * x
    ensures p > 0.0 <==> x > 0.0
  {
  }

  lemma RatioScales(r: real, n: real, c: real, root: real, nc: real, nroot: real)
    requires n > 0.0 && nc == n * c && nroot == n * root && IsRatio(r, nc, nroot)
    ensures IsRatio(r, c, root)
  {
  }

  lemma RatioScalesBack(r: real, n: real, c: real, a: real, b: real, sqrt: real -> real, nc: real, na: real, nb: real)
    requires IsSquareRoot(sqrt) && n > 0.0 && a >= 0.0 && b >= 0.0
    requires nc == n * c && na == n * a && nb == n * b && IsRatio(r, nc, sqrt(na * nb))
    ensures IsRatio(r, c, sqrt(a * b))
  {
    RootScales(sqrt, n, a, b, na, nb);
    RatioScales(r, n, c, sqrt(a * b), nc, sqrt(na * nb));
  }

  lemma RatioOrZeroScales(r: real, n: real, c: real, a: real, b: real, sqrt: real -> real, nc: real, na: real, nb: real)
    requires IsSquareRoot(sqrt) && n > 0.0 && a >= 0.0 && b >= 0.0
    requires nc == Times(n, c) && na == Times(n, a) && nb == Times(n, b)
    requires IsRatioOrZero(r, nc, na, nb, sqrt)
    ensures IsRatioOrZero(r, c, a, b, sqrt)
  {
    ProductIsZero(n, a, na);
    ProductIsZero(n, b, nb);
    if a != 0.0 && b != 0.0 {
      RatioScalesBack(r, n, c, a, b, sqrt, nc, na, nb);
    }
  }

  /** The result is the textbook's: the deviation product divided by the root of the two square
      deviations, and zero when one of those is. */
  lemma CorrelationIsTextbook(r: real, xs: seq<real>, mx: real, ys: seq<real>, my: real, sqrt: real -> real)
    requires |xs| == |ys| > 0 && IsSquareRoot(sqrt) && IsCorrelation(r, xs, ys, sqrt)
    requires IsMean(mx, xs) && IsMean(my, ys)
    ensures IsRatioOrZero(r, Deviation(xs, mx, ys, my), Deviation(xs, mx, xs, mx), Deviation(ys, my, ys, my), sqrt)
  {
    SpreadIsDeviation(xs, mx, ys, my);
    SpreadIsDeviation(xs, mx, xs, mx);
    SpreadIsDeviation(ys, my, ys, my);
    SquareSum(Shift(xs, -mx));
    SquareSum(Shift(ys, -my));
    RatioOrZeroScales(r, |xs| as real,
                      Deviation(xs, mx, ys, my), Deviation(xs, mx, xs, mx), Deviation(ys, my, ys, my), sqrt,
                      Spread(xs, ys), Spread(xs, xs), Spread(ys, ys));
  }

  lemma SquareIsOne(r: real, c: real, root: real, v: real)
    requires IsRatio(r, c, root) && root * root == v
    ensures r * r == 1.0 <==> c * c == v
  {
    assert c * c == (r * r) * v;
    ProductIsPositive(root, root, v);
    if c * c == v {
      CancelBoth(r * r, 1.0, v);
    }
  }

  lemma OnLineIsTight(xs: seq<real>, ys: seq<real>, m: real, b: real)
    requires |xs| == |ys| && OnLine(xs, ys, m, b)
    ensures Tight(Spread(xs, ys), Spread(xs, xs), Spread(ys, ys)) && Spread(xs, ys) == Times(m, Spread(xs, xs))
  {
    SpreadIsForm();
    SquaresOnLine(SpreadForm, xs, ys, m, b);
  }

  lemma TightIsOnLine(xs: seq<real>, ys: seq<real>) returns (m: real, b: real)
    requires |xs| == |ys| && !AllEqual(xs)
    requires Tight(Spread(xs, ys), Spread(xs, xs), Spread(ys, ys))
    ensures OnLine(xs, ys, m, b)
  {
    SpreadIsForm();
    m, b := TightMeansLine(SpreadForm, xs, ys);
  }

  lemma TightRatio(r: real, c: real, a: real, b: real, sqrt: real -> real)
    requires IsSquareRoot(sqrt) && IsRatioOrZero(r, c, a, b, sqrt) && a > 0.0 && b > 0.0
    ensures r * r == 1.0 <==> Tight(c, a, b)
  {
    ProductIsZero(a, b, a * b);
    SquareIsOne(r, c, sqrt(a * b), a * b);
  }

  lemma RatioOfSpreads(r: real, xs: seq<real>, ys: seq<real>, sqrt: real -> real)
    requires |xs| == |ys| && IsSquareRoot(sqrt) && IsCorrelation(r, xs, ys, sqrt)
    requires !AllEqual(xs) && !AllEqual(ys)
    ensures r * r == 1.0 <==> Tight(Spread(xs, ys), Spread(xs, xs), Spread(ys, ys))
  {
    SpreadIsPositive(xs);
    SpreadIsPositive(ys);
    TightRatio(r, Spread(xs, ys), Spread(xs, xs), Spread(ys, ys), sqrt);
  }

  lemma UnitSquare(r: real)
    ensures r * r == 1.0 <==> r == 1.0 || r == -1.0
  {
    assert (r - 1.0) * (r + 1.0) == r * r - 1.0;
  }

  predicate SameSign(x: real, y: real) { (x > 0.0 <==> y > 0.0) && (x < 0.0 <==> y < 0.0) }

  lemma SignOfProduct(x: real, y: real, p: real)
    requires y > 0.0 && p == Times(x, y)
    ensures SameSign(p, x)
  {
  }

  lemma SignOfRatio(r: real, c: real, a: real, v: real, sqrt: real -> real)
    requires IsRatioOrZero(r, c, a, v, sqrt) && a > 0.0 && v > 0.0
    ensures SameSign(c, r)
  {
    SignOfProduct(r, sqrt(a * v), c);
  }

  /** The correlation of points on a line has the sign of the line's slope. */
  lemma SignOnLine(r: real, xs: seq<real>, ys: seq<real>, m: real, b: real, sqrt: real -> real)
    requires |xs| == |ys| && IsCorrelation(r, xs, ys, sqrt) && !AllEqual(xs) && !AllEqual(ys) && OnLine(xs, ys, m, b)
    ensures SameSign(r, m)
  {
    SpreadIsPositive(xs);
    SpreadIsPositive(ys);
    OnLineIsTight(xs, ys, m, b);
    SignOfRatio(r, Spread(xs, ys), Spread(xs, xs), Spread(ys, ys), sqrt);
    SignOfProduct(m, Spread(xs, xs), Spread(xs, ys));
  }

  lemma UnitOnLine(r: real, xs: seq<real>, ys: seq<real>, m: real, b: real, sqrt: real -> real)
    requires |xs| == |ys| && IsSquareRoot(sqrt) && IsCorrelation(r, xs, ys, sqrt)
    requires !AllEqual(xs) && !AllEqual(ys) && OnLine(xs, ys, m, b)
    ensures r == (if m > 0.0 then 1.0 else -1.0) && m != 0.0
  {
    RatioOfSpreads(r, xs, ys, sqrt);
    OnLineIsTight(xs, ys, m, b);
    UnitSquare(r);
    SignOnLine(r, xs, ys, m, b, sqrt);
  }

  /** For sequences that vary, the correlation is 1 exactly when the points lie on a rising line, and -1
      exactly when they lie on a falling one. */
  lemma PerfectCorrelation(r: real, xs: seq<real>, ys: seq<real>, sqrt: real -> real)
    requires |xs| == |ys| && IsSquareRoot(sqrt) && IsCorrelation(r, xs, ys, sqrt)
    requires !AllEqual(xs) && !AllEqual(ys)
    ensures r == 1.0 <==> exists m, b :: m > 0.0 && OnLine(xs, ys, m, b)
    ensures r == -1.0 <==> exists m, b :: m < 0.0 && OnLine(xs, ys, m, b)
  {
    UnitSquare(r);
    RatioOfSpreads(r, xs, ys, sqrt);
    if r * r == 1.0 {
      var m, b := TightIsOnLine(xs, ys);
      UnitOnLine(r, xs, ys, m, b, sqrt);
    }
    forall m, b | OnLine(xs, ys, m, b) ensures r == (if m > 0.0 then 1.0 else -1.0) {
      UnitOnLine(r, xs, ys, m, b, sqrt);
    }
  }

  // ---------------------------------------------------------------- linear regression

  datatype Line = Line(slope: real, intercept: real)

  function LineResiduals(xs: seq<real>, ys: seq<real>, l: Line): seq<real>
    requires |xs| == |ys|
  {
    Residuals(xs, ys, l.slope, l.intercept)
  }

  function SquaredError(xs: seq<real>, ys: seq<real>, l: Line): real
    requires |xs| == |ys|
  {
    var e := LineResiduals(xs, ys, l); DotForm(e, e)
  }

  /** No line has a smaller squared error, and no other line the same. */
  ghost predicate IsBestLine(xs: seq<real>, ys: seq<real>, best: Line)
    requires |xs| == |ys|
  {
    forall l :: SquaredError(xs, ys, best) <= SquaredError(xs, ys, l)
             && (l == best <==> SquaredError(xs, ys, l) == SquaredError(xs, ys, best))
  }

  ghost predicate IsOrthogonal(xs: seq<real>, ys: seq<real>, l: Line)
    requires |xs| == |ys|
  {
    DotForm(LineResiduals(xs, ys, l), xs) == 0.0 && Total(LineResiduals(xs, ys, l)) == 0.0
  }

  /** Any other line's squared error is larger by the square sum of its distances from the best one. */
  lemma OtherLine(xs: seq<real>, ys: seq<real>, best: Line, l: Line)
    requires |xs| == |ys| && IsOrthogonal(xs, ys, best)
    ensures var d := Shift(Scale(best.slope - l.slope, xs), best.intercept - l.intercept);
            SquaredError(xs, ys, l) == SquaredError(xs, ys, best) + DotForm(d, d)
  {
    DotIsForm();
    Pythagoras(DotForm, Total, xs, ys, best.slope, best.intercept, l.slope, l.intercept);
  }

  lemma DistanceOfLines(xs: seq<real>, a: real, c: real)
    requires !AllEqual(xs)
    ensures var d := Shift(Scale(a, xs), c);
            Dot(d, d) >= 0.0 && (a == 0.0 && c == 0.0 <==> Dot(d, d) == 0.0)
  {
    var d := Shift(Scale(a, xs), c);
    SquareSum(d);
    if AllZero(d) {
      LinesAgree(xs, a, c);
    }
    if a == 0.0 && c == 0.0 {
      forall i | 0 <= i < |d| ensures d[i] == 0.0 {
        assert Scale(a, xs)[i] == a * xs[i];
      }
    }
  }

  lemma OrthogonalIsBest(xs: seq<real>, ys: seq<real>, best: Line)
    requires |xs| == |ys| && !AllEqual(xs) && IsOrthogonal(xs, ys, best)
    ensures IsBestLine(xs, ys, best)
  {
    forall l
      ensures SquaredError(xs, ys, best) <= SquaredError(xs, ys, l)
           && (l == best <==> SquaredError(xs, ys, l) == SquaredError(xs, ys, best))
    {
      OtherLine(xs, ys, best, l);
      DistanceOfLines(xs, best.slope - l.slope, best.intercept - l.intercept);
    }
  }

  /** The normal equations. */
  lemma FitEquations(xs: seq<real>, ys: seq<real>, m: real, b: real)
    requires |xs| == |ys| > 0 && Times(m, Spread(xs, xs)) == Spread(xs, ys)
    requires Times(b, |xs| as real) == Total(ys) - Times(m, Total(xs))
    ensures IsOrthogonal(xs, ys, Line(m, b))
  {
    DotIsForm();
    FitIsOrthogonal(DotForm, Total, xs, ys, m, b);
  }

  lemma TimesQuotient(a: real, b: real)
    requires b != 0.0
    ensures Times(a / b, b) == a
  {
  }

  /** The slope and the intercept, or nothing where the program divides zero by zero. */
  method LinearRegression(xs: seq<real>, ys: seq<real>) returns (fit: Option<Line>)
    requires |xs| == |ys|
    ensures fit.None? <==> AllEqual(xs)
    ensures fit.Some? ==> IsBestLine(xs, ys, fit.value) && Total(LineResiduals(xs, ys, fit.value)) == 0.0
  {
    var n := |xs| as real;
    var s := SumUp(xs, ys);
    SpreadIsPositive(xs);
    var denominator := SpreadOf(n, s.xx, s.x, s.x);
    if denominator == 0.0 {
      return None;
    }
    var numerator := SpreadOf(n, s.xy, s.x, s.y);
    var slope := numerator / denominator;
    var rest := s.y - Times(slope, s.x);
    var intercept := rest / n;
    TimesQuotient(numerator, denominator);
    TimesQuotient(rest, n);
    FitEquations(xs, ys, slope, intercept);
    OrthogonalIsBest(xs, ys, Line(slope, intercept));
    fit := Some(Line(slope, intercept));
  }

  /** Where the denominator is zero, so is the numerator: the program's quotient is not a number. */
  lemma ZeroByZero(xs: seq<real>, ys: seq<real>)
    requires |xs| == |ys| && AllEqual(xs)
    ensures Spread(xs, xs) == 0.0 && Spread(xs, ys) == 0.0
  {
    SpreadIsForm();
    CauchySchwarz(SpreadForm, xs, ys);
  }
}
