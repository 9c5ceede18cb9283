/** What follows for any symmetric bilinear form on real sequences. */
module Forms {
  import opened Numbers
  import opened Vectors

  type Form = (seq<real>, seq<real>) -> real

  // ---------------------------------------------------------------- laws

  ghost predicate Symmetric(f: Form) {
    forall x, y :: f(x, y) == f(y, x)
  }

  ghost predicate Additive(f: Form) {
    forall x, y, z {:trigger f(Plus(x, y), z)} :: |x| == |y| == |z| ==> f(Plus(x, y), z) == f(x, z) + f(y, z)
  }

  ghost predicate Homogeneous(f: Form) {
    forall a, x, z {:trigger f(Scale(a, x), z)} :: |x| == |z| ==> f(Scale(a, x), z) == Times(a, f(x, z))
  }

  ghost predicate ShiftInvariant(f: Form) {
    forall x, c, z {:trigger f(Shift(x, c), z)} :: |x| == |z| ==> f(Shift(x, c), z) == f(x, z)
  }

  ghost predicate Bilinear(f: Form) { Symmetric(f) && Additive(f) && Homogeneous(f) }

  ghost predicate NonNegative(f: Form) {
    forall x :: f(x, x) >= 0.0
  }

  // ---------------------------------------------------------------- expanding squares

  /** The square of a sum. */
  lemma SquareOfPlus(f: Form, xs: seq<real>, ys: seq<real>)
    requires Bilinear(f) && |xs| == |ys|
    ensures f(Plus(xs, ys), Plus(xs, ys)) == f(xs, xs) + 2.0 * f(xs, ys) + f(ys, ys)
  {
  }

  /** The square of ys + t * xs is a quadratic polynomial in t. */
  lemma SquareOfSum(f: Form, xs: seq<real>, ys: seq<real>, t: real)
    requires Bilinear(f) && |xs| == |ys|
    ensures var p := Plus(ys, Scale(t, xs)); f(p, p) == f(ys, ys) + 2.0 * (t * f(xs, ys)) + t * (t * f(xs, xs))
  {
  }

  // ---------------------------------------------------------------- Cauchy-Schwarz

  lemma VertexOfQuadratic(a: real, c: real, v: real, t: real)
    requires a > 0.0 && t * a == -c
    ensures a * (v + 2.0 * (t * c) + t * (t * a)) == a * v - c * c
  {
  }

  lemma PositiveFactor(a: real, w: real, p: real)
    requires a > 0.0 && p == a * w
    ensures w >= 0.0 ==> p >= 0.0
    ensures w == 0.0 <==> p == 0.0
  {
  }

  /** Where v + 2 * t * c + t * t * a tells most about its coefficients. */
  function Vertex(a: real, c: real, v: real): real {
    if a != 0.0 then -c / a else if c != 0.0 then -(v + 1.0) / (2.0 * c) else 0.0
  }

  lemma QuadraticBound(a: real, c: real, v: real, t: real)
    requires a >= 0.0 && t == Vertex(a, c, v) && v + 2.0 * (t * c) + t * (t * a) >= 0.0
    ensures c * c <= a * v && (a == 0.0 ==> c == 0.0)
  {
  }

  lemma CauchySchwarz(f: Form, xs: seq<real>, ys: seq<real>)
    requires Bilinear(f) && NonNegative(f) && |xs| == |ys|
    ensures f(xs, ys) * f(xs, ys) <= f(xs, xs) * f(ys, ys)
    ensures f(xs, xs) == 0.0 ==> f(xs, ys) == 0.0
  {
    var t := Vertex(f(xs, xs), f(xs, ys), f(ys, ys));
    SquareOfSum(f, xs, ys, t);
    assert f(Plus(ys, Scale(t, xs)), Plus(ys, Scale(t, xs))) >= 0.0;
    QuadraticBound(f(xs, xs), f(xs, ys), f(ys, ys), t);
  }

  // ---------------------------------------------------------------- points on a line

  /** The bound of Cauchy-Schwarz, attained. */
  predicate Tight(c: real, a: real, v: real) { c * c == a * v }

  lemma ProductOfMultiple(m: real, a: real, c: real, v: real)
    requires c == m * a && v == m * (m * a)
    ensures Tight(c, a, v)
  {
  }

  /** Points on a line attain the bound. */
  lemma SquaresOnLine(f: Form, xs: seq<real>, ys: seq<real>, m: real, b: real)
    requires Bilinear(f) && ShiftInvariant(f) && |xs| == |ys| && OnLine(xs, ys, m, b)
    ensures Tight(f(xs, ys), f(xs, xs), f(ys, ys)) && f(xs, ys) == Times(m, f(xs, xs))
  {
    var line := Scale(m, xs);
    LineIsShift(xs, ys, m, b);
    assert f(ys, xs) == f(line, xs) == m * f(xs, xs);
    assert f(ys, ys) == f(line, ys) == m * f(xs, ys);
    ProductOfMultiple(m, f(xs, xs), f(xs, ys), f(ys, ys));
  }

  lemma LineIsShift(xs: seq<real>, ys: seq<real>, m: real, b: real)
    requires |xs| == |ys|
    ensures OnLine(xs, ys, m, b) <==> ys == Shift(Scale(m, xs), b)
  {
    var line := Shift(Scale(m, xs), b);
    forall i | 0 <= i < |xs| ensures line[i] == m * xs[i] + b {
      assert Scale(m, xs)[i] == m * xs[i];
    }
    if OnLine(xs, ys, m, b) {
      assert ys == line;
    }
  }

  /** A form that vanishes only for constant sequences attains the bound only on a line. */
  lemma TightMeansLine(f: Form, xs: seq<real>, ys: seq<real>) returns (m: real, b: real)
    requires Bilinear(f) && |xs| == |ys| > 0 && f(xs, xs) > 0.0
    requires forall x :: f(x, x) == 0.0 ==> AllEqual(x)
    requires Tight(f(xs, ys), f(xs, xs), f(ys, ys))
    ensures OnLine(xs, ys, m, b)
  {
    var a, c, v := f(xs, xs), f(xs, ys), f(ys, ys);
    var t := -c / a;
    SquareOfSum(f, xs, ys, t);
    var p := Plus(ys, Scale(t, xs));
    VertexOfQuadratic(a, c, v, t);
    PositiveFactor(a, f(p, p), a * f(p, p));
    assert AllEqual(p);
    m, b := -t, p[0];
    EqualMeansLine(xs, ys, t, b);
  }

  lemma EqualMeansLine(xs: seq<real>, ys: seq<real>, t: real, b: real)
    requires |xs| == |ys| && forall i :: 0 <= i < |xs| ==> Plus(ys, Scale(t, xs))[i] == b
    ensures OnLine(xs, ys, -t, b)
  {
    forall i | 0 <= i < |xs| ensures ys[i] == -t * xs[i] + b {
      assert Plus(ys, Scale(t, xs))[i] == ys[i] + t * xs[i];
    }
  }

  // ---------------------------------------------------------------- least squares

  type Functional = seq<real> -> real

  ghost predicate ShiftAddsTotal(f: Form, total: Functional) {
    forall x, c, z {:trigger f(Shift(x, c), z)} :: |x| == |z| ==> f(Shift(x, c), z) == f(x, z) + Times(c, total(z))
  }

  ghost predicate ShiftAddsCount(total: Functional) {
    forall x, c {:trigger total(Shift(x, c))} :: total(Shift(x, c)) == total(x) + Times(c, |x| as real)
  }

  ghost predicate Linear(total: Functional) {
    && (forall x, y {:trigger total(Plus(x, y))} :: |x| == |y| ==> total(Plus(x, y)) == total(x) + total(y))
    && (forall a, x {:trigger total(Scale(a, x))} :: total(Scale(a, x)) == Times(a, total(x)))
  }

  /** The functional is the product with the constant sequence of ones. */
  ghost predicate SumsUp(f: Form, total: Functional) {
    ShiftAddsTotal(f, total) && ShiftAddsCount(total) && Linear(total)
  }

  /** The distances of the points from a line. */
  function Residuals(xs: seq<real>, ys: seq<real>, m: real, b: real): (r: seq<real>)
    requires |xs| == |ys|
    ensures |r| == |xs|
  {
    Shift(Plus(ys, Scale(-m, xs)), -b)
  }

  /** The difference between the residuals of two lines. */
  lemma ResidualsDiffer(xs: seq<real>, ys: seq<real>, m: real, b: real, m': real, b': real)
    requires |xs| == |ys|
    ensures Residuals(xs, ys, m', b') == Plus(Residuals(xs, ys, m, b), Shift(Scale(m - m', xs), b - b'))
  {
  }

  /** When the residuals of a line have no component along xs or the ones, the square sum of any other
      line's residuals is larger by the square sum of the lines' differences. */
  lemma Pythagoras(f: Form, total: Functional, xs: seq<real>, ys: seq<real>, m: real, b: real, m': real, b': real)
    requires Bilinear(f) && SumsUp(f, total) && |xs| == |ys|
    requires f(Residuals(xs, ys, m, b), xs) == 0.0 && total(Residuals(xs, ys, m, b)) == 0.0
    ensures var e, e', d := Residuals(xs, ys, m, b), Residuals(xs, ys, m', b'), Shift(Scale(m - m', xs), b - b');
            f(e', e') == f(e, e) + f(d, d)
  {
    var e, d := Residuals(xs, ys, m, b), Shift(Scale(m - m', xs), b - b');
    ResidualsDiffer(xs, ys, m, b, m', b');
    SquareOfPlus(f, e, d);
    OrthogonalToLines(f, total, e, xs, m - m', b - b');
  }

  lemma OrthogonalToLines(f: Form, total: Functional, e: seq<real>, xs: seq<real>, a: real, c: real)
    requires Bilinear(f) && SumsUp(f, total) && |xs| == |e| && f(e, xs) == 0.0 && total(e) == 0.0
    ensures f(e, Shift(Scale(a, xs), c)) == 0.0
  {
  }

  /** The slope and intercept of the code make the residuals orthogonal to xs and the ones. */
  lemma FitIsOrthogonal(f: Form, total: Functional, xs: seq<real>, ys: seq<real>, m: real, b: real)
    requires Bilinear(f) && SumsUp(f, total) && |xs| == |ys| > 0
    requires var n := |xs| as real;
             && Times(m, SpreadOf(n, f(xs, xs), total(xs), total(xs))) == SpreadOf(n, f(xs, ys), total(xs), total(ys))
             && Times(b, n) == total(ys) - Times(m, total(xs))
    ensures f(Residuals(xs, ys, m, b), xs) == 0.0 && total(Residuals(xs, ys, m, b)) == 0.0
  {
  }

  /** Two lines that agree on all points are the same, if the points have different xs. */
  lemma LinesAgree(xs: seq<real>, a: real, c: real)
    requires !AllEqual(xs)
    requires forall i :: 0 <= i < |xs| ==> Shift(Scale(a, xs), c)[i] == 0.0
    ensures a == 0.0 && c == 0.0
  {
    var i :| 0 <= i < |xs| && xs[i] != xs[0];
    assert Scale(a, xs)[i] == a * xs[i] && Scale(a, xs)[0] == a * xs[0];
    assert Shift(Scale(a, xs), c)[i] == 0.0 && Shift(Scale(a, xs), c)[0] == 0.0;
    SlopeIsZero(a, xs[i] - xs[0], a * xs[i] - a * xs[0]);
  }

  lemma SlopeIsZero(a: real, d: real, p: real)
    requires p == a * d && d != 0.0
    ensures p == 0.0 ==> a == 0.0
  {
  }
}
