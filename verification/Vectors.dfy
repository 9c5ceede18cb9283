/** Real sequences as vectors, their sums and products, and how far their values spread. */
module Vectors {
  import opened Numbers

  // ---------------------------------------------------------------- products of numbers

  lemma TimesAdds(a: real, x: real, y: real)
    ensures Times(a, x + y) == Times(a, x) + Times(a, y)
    ensures Times(x + y, a) == Times(x, a) + Times(y, a)
  {
  }

  lemma TimesRegroups(a: real, x: real, y: real)
    ensures Times(Times(a, x), y) == Times(a, Times(x, y))
  {
  }

  lemma TimesCommutes(x: real, y: real)
    ensures Times(x, y) == Times(y, x)
  {
  }

  lemma ProductSign(x: real, y: real, p: real)
    requires p == x * y && ((x > 0.0 && y > 0.0) || (x < 0.0 && y < 0.0))
    ensures p > 0.0
  {
  }

  lemma SquareSign(x: real)
    ensures Times(x, x) >= 0.0
    ensures x != 0.0 ==> Times(x, x) > 0.0
    ensures x == 0.0 ==> Times(x, x) == 0.0
  {
    if x != 0.0 {
      ProductSign(x, x, Times(x, x));
    }
  }

  // ---------------------------------------------------------------- vectors

  function Plus(xs: seq<real>, ys: seq<real>): seq<real>
    requires |xs| == |ys|
  {
    seq(|xs|, i requires 0 <= i < |xs| => xs[i] + ys[i])
  }

  function Scale(a: real, xs: seq<real>): seq<real> {
    seq(|xs|, i requires 0 <= i < |xs| => Times(a, xs[i]))
  }

  function Shift(xs: seq<real>, c: real): seq<real> {
    seq(|xs|, i requires 0 <= i < |xs| => xs[i] + c)
  }

  predicate AllEqual(xs: seq<real>) {
    forall i :: 0 <= i < |xs| ==> xs[i] == xs[0]
  }

  predicate OnLine(xs: seq<real>, ys: seq<real>, m: real, b: real)
    requires |xs| == |ys|
  {
    forall i :: 0 <= i < |xs| ==> ys[i] == m * xs[i] + b
  }

  // ---------------------------------------------------------------- sums

  function Total(xs: seq<real>): real {
    if xs == [] then 0.0 else Total(xs[..|xs| - 1]) + xs[|xs| - 1]
  }

  /** The sum of the products, index by index. */
  function Dot(xs: seq<real>, ys: seq<real>): real
    requires |xs| == |ys|
  {
    if xs == [] then 0.0
    else Dot(xs[..|xs| - 1], ys[..|ys| - 1]) + Times(xs[|xs| - 1], ys[|ys| - 1])
  }

  /** n times the sum of products of the deviations from the means, as the code accumulates it. */
  function Spread(xs: seq<real>, ys: seq<real>): real
    requires |xs| == |ys|
  {
    SpreadOf(|xs| as real, Dot(xs, ys), Total(xs), Total(ys))
  }

  function SpreadOf(n: real, xy: real, x: real, y: real): real { n * xy - x * y }

  lemma {:induction false} DotCommutes(xs: seq<real>, ys: seq<real>)
    requires |xs| == |ys|
    ensures Dot(xs, ys) == Dot(ys, xs)
    decreases |xs|
  {
    if xs != [] {
      DotCommutes(xs[..|xs| - 1], ys[..|ys| - 1]);
      TimesCommutes(xs[|xs| - 1], ys[|ys| - 1]);
    }
  }

  lemma {:induction false} TotalOfPlus(xs: seq<real>, ys: seq<real>)
    requires |xs| == |ys|
    ensures Total(Plus(xs, ys)) == Total(xs) + Total(ys)
    decreases |xs|
  {
    if xs != [] {
      var n := |xs| - 1;
      assert Plus(xs, ys)[..n] == Plus(xs[..n], ys[..n]);
      TotalOfPlus(xs[..n], ys[..n]);
    }
  }

  lemma {:induction false} DotOfPlus(xs: seq<real>, ys: seq<real>, zs: seq<real>)
    requires |xs| == |ys| == |zs|
    ensures Dot(Plus(xs, ys), zs) == Dot(xs, zs) + Dot(ys, zs)
    decreases |xs|
  {
    if xs != [] {
      var n := |xs| - 1;
      assert Plus(xs, ys)[..n] == Plus(xs[..n], ys[..n]);
      DotOfPlus(xs[..n], ys[..n], zs[..n]);
      TimesAdds(zs[n], xs[n], ys[n]);
    }
  }

  lemma ScalePrefix(a: real, xs: seq<real>)
    requires xs != []
    ensures Scale(a, xs)[..|xs| - 1] == Scale(a, xs[..|xs| - 1])
  {
    var n := |xs| - 1;
    forall i | 0 <= i < n ensures Scale(a, xs)[i] == Scale(a, xs[..n])[i] {
      assert xs[..n][i] == xs[i];
    }
  }

  lemma {:induction false} DotOfScale(a: real, xs: seq<real>, zs: seq<real>)
    requires |xs| == |zs|
    ensures Dot(Scale(a, xs), zs) == Times(a, Dot(xs, zs))
    decreases |xs|
  {
    if xs != [] {
      var n := |xs| - 1;
      ScalePrefix(a, xs);
      DotOfScale(a, xs[..n], zs[..n]);
      TimesRegroups(a, xs[n], zs[n]);
      TimesAdds(a, Dot(xs[..n], zs[..n]), Times(xs[n], zs[n]));
    }
  }

  lemma {:induction false} TotalOfScale(a: real, xs: seq<real>)
    ensures Total(Scale(a, xs)) == Times(a, Total(xs))
    decreases |xs|
  {
    if xs != [] {
      var n := |xs| - 1;
      ScalePrefix(a, xs);
      TotalOfScale(a, xs[..n]);
      TimesAdds(a, Total(xs[..n]), xs[n]);
    }
  }

  lemma {:induction false} TotalOfShift(xs: seq<real>, c: real)
    ensures Total(Shift(xs, c)) == Total(xs) + Times(c, |xs| as real)
    decreases |xs|
  {
    if xs != [] {
      var n := |xs| - 1;
      assert Shift(xs, c)[..n] == Shift(xs[..n], c);
      TotalOfShift(xs[..n], c);
      TimesAdds(c, n as real, 1.0);
    }
  }

  lemma {:induction false} DotOfShift(xs: seq<real>, c: real, zs: seq<real>)
    requires |xs| == |zs|
    ensures Dot(Shift(xs, c), zs) == Dot(xs, zs) + Times(c, Total(zs))
    decreases |xs|
  {
    if xs != [] {
      var n := |xs| - 1;
      assert Shift(xs, c)[..n] == Shift(xs[..n], c);
      DotOfShift(xs[..n], c, zs[..n]);
      TimesAdds(zs[n], xs[n], c);
      TimesAdds(c, Total(zs[..n]), zs[n]);
    }
  }

  lemma SquareOfShifted(xs: seq<real>, shifted: seq<real>, c: real, total: real)
    requires |xs| == |shifted| && Total(shifted) == total
    requires Dot(shifted, shifted) == Dot(xs, shifted) + Times(c, Total(shifted))
    requires Dot(shifted, xs) == Dot(xs, xs) + Times(c, Total(xs))
    ensures Dot(shifted, shifted) == Dot(xs, xs) + Times(c, Total(xs)) + Times(c, total)
  {
    DotCommutes(xs, shifted);
  }

  lemma SquareOfShift(xs: seq<real>, c: real)
    ensures Dot(Shift(xs, c), Shift(xs, c))
         == Dot(xs, xs) + Times(c, Total(xs)) + Times(c, Total(xs) + Times(c, |xs| as real))
  {
    DotOfShift(xs, c, Shift(xs, c));
    DotOfShift(xs, c, xs);
    TotalOfShift(xs, c);
    SquareOfShifted(xs, Shift(xs, c), c, Total(xs) + Times(c, |xs| as real));
  }

  // ---------------------------------------------------------------- square sums

  predicate AllZero(xs: seq<real>) {
    forall i :: 0 <= i < |xs| ==> xs[i] == 0.0
  }

  lemma AllZeroPrefix(xs: seq<real>)
    requires xs != []
    ensures AllZero(xs) <==> AllZero(xs[..|xs| - 1]) && xs[|xs| - 1] == 0.0
  {
  }

  /** A square sum is never negative, and zero only for zeros. */
  lemma {:induction false} SquareSum(xs: seq<real>)
    ensures Dot(xs, xs) >= 0.0
    ensures AllZero(xs) ==> Dot(xs, xs) == 0.0
    ensures !AllZero(xs) ==> Dot(xs, xs) > 0.0
    decreases |xs|
  {
    if xs != [] {
      var n := |xs| - 1;
      SquareSum(xs[..n]);
      AllZeroPrefix(xs);
      SquareSign(xs[n]);
      assert Dot(xs, xs) == Dot(xs[..n], xs[..n]) + Times(xs[n], xs[n]);
    }
  }

  // ---------------------------------------------------------------- spread

  /** One value more, as a fact about numbers. */
  lemma SpreadGrows(n: real, d: real, t: real, a: real, n': real, d': real, t': real)
    requires n' == n + 1.0 && d' == d + Times(a, a) && t' == t + a
    ensures SpreadOf(n', d', t', t')
         == SpreadOf(n, d, t, t) + (d + Times(-a, t) + Times(-a, t + Times(-a, n)))
  {
    assert n' * d' == n * d + n * (a * a) + d + a * a;
    assert t' * t' == t * t + 2.0 * (a * t) + a * a;
    assert -a * (-a * n) == n * (a * a);
  }

  /** Appending a value adds to the spread the squared distances of the others from it. */
  lemma SpreadOfOneMore(xs: seq<real>)
    requires xs != []
    ensures var n := |xs| - 1;
            Spread(xs, xs) == Spread(xs[..n], xs[..n]) + Dot(Shift(xs[..n], -xs[n]), Shift(xs[..n], -xs[n]))
  {
    var n := |xs| - 1;
    SquareOfShift(xs[..n], -xs[n]);
    SpreadGrows(n as real, Dot(xs[..n], xs[..n]), Total(xs[..n]), xs[n], |xs| as real, Dot(xs, xs), Total(xs));
  }

  lemma EqualToLast(xs: seq<real>)
    requires xs != []
    ensures AllEqual(xs) <==> AllEqual(xs[..|xs| - 1]) && AllZero(Shift(xs[..|xs| - 1], -xs[|xs| - 1]))
  {
    var n := |xs| - 1;
    var d := Shift(xs[..n], -xs[n]);
    assert forall i :: 0 <= i < n ==> d[i] == xs[i] - xs[n];
    if AllEqual(xs) {
      assert xs[n] == xs[0];
    }
    if n > 0 && d[0] == 0.0 {
      assert xs[n] == xs[0];
    }
  }

  /** The spread of a sequence is never negative, and zero exactly when its values are all equal. */
  lemma {:induction false} SpreadIsPositive(xs: seq<real>)
    ensures Spread(xs, xs) >= 0.0
    ensures Spread(xs, xs) == 0.0 <==> AllEqual(xs)
    decreases |xs|
  {
    if xs != [] {
      var n := |xs| - 1;
      SpreadIsPositive(xs[..n]);
      SpreadOfOneMore(xs);
      SquareSum(Shift(xs[..n], -xs[n]));
      EqualToLast(xs);
    }
  }

  lemma SpreadAdds(n: real, d: real, e: real, x: real, y: real, z: real)
    ensures SpreadOf(n, d + e, x + y, z) == SpreadOf(n, d, x, z) + SpreadOf(n, e, y, z)
  {
  }

  lemma SpreadOfPlus(xs: seq<real>, ys: seq<real>, zs: seq<real>)
    requires |xs| == |ys| == |zs|
    ensures Spread(Plus(xs, ys), zs) == Spread(xs, zs) + Spread(ys, zs)
  {
    DotOfPlus(xs, ys, zs);
    TotalOfPlus(xs, ys);
    SpreadAdds(|xs| as real, Dot(xs, zs), Dot(ys, zs), Total(xs), Total(ys), Total(zs));
  }

  lemma SpreadScales(n: real, a: real, d: real, x: real, z: real)
    ensures SpreadOf(n, Times(a, d), Times(a, x), z) == Times(a, SpreadOf(n, d, x, z))
  {
    assert n * (a * d) == a * (n * d);
    assert (a * x) * z == a * (x * z);
    assert a * (n * d - x * z) == a * (n * d) - a * (x * z);
  }

  lemma SpreadOfScale(a: real, xs: seq<real>, zs: seq<real>)
    requires |xs| == |zs|
    ensures Spread(Scale(a, xs), zs) == Times(a, Spread(xs, zs))
  {
    DotOfScale(a, xs, zs);
    TotalOfScale(a, xs);
    SpreadScales(|xs| as real, a, Dot(xs, zs), Total(xs), Total(zs));
  }

  lemma ShiftCancels(n: real, d: real, c: real, x: real, z: real)
    ensures SpreadOf(n, d + Times(c, z), x + Times(c, n), z) == SpreadOf(n, d, x, z)
  {
    assert n * (d + c * z) == n * d + n * (c * z);
    assert (x + c * n) * z == x * z + (c * n) * z;
    assert n * (c * z) == (c * n) * z;
  }

  lemma SpreadOfShift(xs: seq<real>, c: real, zs: seq<real>)
    requires |xs| == |zs|
    ensures Spread(Shift(xs, c), zs) == Spread(xs, zs)
  {
    DotOfShift(xs, c, zs);
    TotalOfShift(xs, c);
    ShiftCancels(|xs| as real, Dot(xs, zs), c, Total(xs), Total(zs));
  }

  // ---------------------------------------------------------------- deviations from the means

  predicate IsMean(m: real, xs: seq<real>) { Times(m, |xs| as real) == Total(xs) }

  /** The sum of the products of the deviations from mx and my. */
  function Deviation(xs: seq<real>, mx: real, ys: seq<real>, my: real): real
    requires |xs| == |ys|
  {
    Dot(Shift(xs, -mx), Shift(ys, -my))
  }

  lemma DeviationsCancel(xs: seq<real>, m: real)
    requires IsMean(m, xs)
    ensures Total(Shift(xs, -m)) == 0.0
  {
    TotalOfShift(xs, -m);
  }

  lemma SpreadCommutes(xs: seq<real>, ys: seq<real>)
    requires |xs| == |ys|
    ensures Spread(xs, ys) == Spread(ys, xs)
  {
    DotCommutes(xs, ys);
  }

  lemma SpreadOfShifts(xs: seq<real>, c: real, ys: seq<real>, d: real)
    requires |xs| == |ys|
    ensures Spread(Shift(xs, c), Shift(ys, d)) == Spread(xs, ys)
  {
    SpreadOfShift(xs, c, Shift(ys, d));
    SpreadCommutes(xs, Shift(ys, d));
    SpreadOfShift(ys, d, xs);
    SpreadCommutes(ys, xs);
  }

  /** What the loop accumulates is the textbook's deviation product, times n. */
  lemma SpreadIsDeviation(xs: seq<real>, mx: real, ys: seq<real>, my: real)
    requires |xs| == |ys| && IsMean(mx, xs) && IsMean(my, ys)
    ensures Spread(xs, ys) == Times(|xs| as real, Deviation(xs, mx, ys, my))
  {
    SpreadOfShifts(xs, -mx, ys, -my);
    DeviationsCancel(ys, my);
  }

  // ---------------------------------------------------------------- as functions of any two sequences

  /** The products and spreads as functions of any two sequences; zero when the lengths differ. */
  function DotForm(xs: seq<real>, ys: seq<real>): real { if |xs| == |ys| then Dot(xs, ys) else 0.0 }
  function SpreadForm(xs: seq<real>, ys: seq<real>): real { if |xs| == |ys| then Spread(xs, ys) else 0.0 }

  lemma SpreadFormOfScale(a: real, xs: seq<real>, zs: seq<real>)
    requires |xs| == |zs|
    ensures SpreadForm(Scale(a, xs), zs) == Times(a, SpreadForm(xs, zs))
  {
    SpreadOfScale(a, xs, zs);
  }

  lemma SpreadFormCommutes(xs: seq<real>, ys: seq<real>)
    ensures SpreadForm(xs, ys) == SpreadForm(ys, xs)
  {
    if |xs| == |ys| {
      DotCommutes(xs, ys);
    }
  }
}
