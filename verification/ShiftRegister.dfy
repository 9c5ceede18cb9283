/** Shift registers over any type of word: feeding data a piece at a time, feeding it all at
    once, and looking the result up.  Nothing here depends on the width or the polynomial. */
module ShiftRegister {

  /** `count` steps without data. */
  function Iterate<T>(step: T -> T, x: T, count: nat): T
    decreases count, x
  {
    if count == 0 then x else Iterate(step, step(x), count - 1)
  }

  /** `count` shifts, each taking the lowest piece of the data not yet consumed. */
  function Feed<T>(shift: (T, T) -> T, rest: T -> T, x: T, data: T, count: nat): T
    decreases count, x
  {
    if count == 0 then x else Feed(shift, rest, shift(x, data), rest(data), count - 1)
  }

  /** The laws of a linear shift register: steps respect the combining operation, every
      word splits into a lowest piece and an upper part that a step merely moves down, and
      a shift is a step of the register combined with the lowest piece of the data. */
  ghost predicate Linear<T(!new)>(shift: (T, T) -> T, step: T -> T, op: (T, T) -> T,
                                  low: T -> T, upper: T -> T, rest: T -> T)
  {
    && (forall a, b :: step(op(a, b)) == op(step(a), step(b)))
    && (forall a, d :: op(a, d) == op(op(a, low(d)), upper(d)))
    && (forall d :: step(upper(d)) == rest(d))
    && (forall a, d :: shift(a, d) == step(op(a, low(d))))
  }

  /** A step that combines two parts, each respecting the operation, respects it too. */
  lemma SumIsLinear<T(!new)>(step: T -> T, op: (T, T) -> T, mask: T -> T, rest: T -> T)
    requires forall x :: step(x) == op(mask(x), rest(x))
    requires forall a, b :: mask(op(a, b)) == op(mask(a), mask(b))
    requires forall a, b :: rest(op(a, b)) == op(rest(a), rest(b))
    requires forall a, b :: op(a, b) == op(b, a)
    requires forall a, b, c :: op(op(a, b), c) == op(a, op(b, c))
    ensures forall a, b :: step(op(a, b)) == op(step(a), step(b))
  {
    forall a, b ensures step(op(a, b)) == op(step(a), step(b)) {
      calc {
        op(step(a), step(b));
        op(op(mask(a), rest(a)), op(mask(b), rest(b)));
        op(mask(a), op(rest(a), op(rest(b), mask(b))));
        op(mask(a), op(op(rest(a), rest(b)), mask(b)));
        op(op(mask(a), mask(b)), op(rest(a), rest(b)));
      }
    }
  }

  /** Repeated steps respect the combining operation. */
  lemma {:induction false} IterateIsLinear<T(!new)>(step: T -> T, op: (T, T) -> T, x: T, y: T, count: nat)
    requires forall a, b :: step(op(a, b)) == op(step(a), step(b))
    ensures Iterate(step, op(x, y), count) == op(Iterate(step, x, count), Iterate(step, y, count))
    decreases count
  {
    if count > 0 {
      IterateIsLinear(step, op, step(x), step(y), count - 1);
    }
  }

  lemma {:induction false} IterateIsInjective<T(!new)>(step: T -> T, x: T, y: T, count: nat)
    requires forall a, b :: step(a) == step(b) ==> a == b
    requires Iterate(step, x, count) == Iterate(step, y, count)
    ensures x == y
    decreases count
  {
    if count > 0 {
      IterateIsInjective(step, step(x), step(y), count - 1);
    }
  }

  lemma {:induction false} IterateComposes<T>(step: T -> T, x: T, first: nat, second: nat)
    ensures Iterate(step, Iterate(step, x, first), second) == Iterate(step, x, first + second)
    decreases first
  {
    if first > 0 {
      IterateComposes(step, step(x), first - 1, second);
    }
  }

  lemma IterateFour<T>(step: T -> T, x: T, x1: T, x2: T, x3: T, x4: T, count: nat)
    requires x1 == step(x) && x2 == step(x1) && x3 == step(x2) && x4 == step(x3)
    ensures Iterate(step, x, count + 4) == Iterate(step, x4, count)
  {
    assert Iterate(step, x, count + 4) == Iterate(step, x2, count + 2);
  }

  /** Feeding data piece by piece is combining all of it first and then stepping, up to the
      data not yet consumed. */
  lemma {:induction false} FeedAllAtOnce<T(!new)>(
      shift: (T, T) -> T, step: T -> T, op: (T, T) -> T, low: T -> T, upper: T -> T, rest: T -> T,
      x: T, data: T, count: nat)
    requires Linear(shift, step, op, low, upper, rest)
    ensures op(Feed(shift, rest, x, data, count), Iterate(rest, data, count)) == Iterate(step, op(x, data), count)
    decreases count
  {
    if count > 0 {
      var shifted := shift(x, data);
      FeedAllAtOnce(shift, step, op, low, upper, rest, shifted, rest(data), count - 1);
      assert step(op(op(x, low(data)), upper(data))) == op(shifted, rest(data));
    }
  }

  /** When the register combined with the data splits into an index and a part that the steps
      only move, feeding the data is a lookup of the index combined with the moved part. */
  lemma FeedIsLookup<T(!new)>(
      shift: (T, T) -> T, step: T -> T, op: (T, T) -> T, low: T -> T, upper: T -> T, rest: T -> T, zero: T,
      x: T, data: T, index: T, clean: T, moved: T, count: nat)
    requires Linear(shift, step, op, low, upper, rest)
    requires forall a :: op(a, zero) == a
    requires Iterate(rest, data, count) == zero
    requires op(x, data) == op(index, clean)
    requires Iterate(step, clean, count) == moved
    ensures Feed(shift, rest, x, data, count) == Iterate(step, op(x, data), count)
    ensures Feed(shift, rest, x, data, count) == op(Iterate(step, index, count), moved)
  {
    FeedAllAtOnce(shift, step, op, low, upper, rest, x, data, count);
    IterateIsLinear(step, op, index, clean, count);
  }

  /** Pieces packed into one word, first piece lowest. */
  function Pack<B, T>(combine: (B, T) -> T, zero: T, pieces: seq<B>): T {
    if pieces == [] then zero else combine(pieces[0], Pack(combine, zero, pieces[1..]))
  }

  /** `fits(x, n)` says that a word holds at most `n` pieces. */
  ghost predicate Packs<B(!new), T(!new)>(combine: (B, T) -> T, zero: T, fits: (T, nat) -> bool, width: nat) {
    && fits(zero, 0)
    && (forall a, x, n: nat :: n < width && fits(x, n) ==> fits(combine(a, x), n + 1))
    && (forall a, x, b, y, n: nat ::
          n < width && fits(x, n) && fits(y, n) && combine(a, x) == combine(b, y) ==> a == b && x == y)
  }

  lemma {:induction false} PackFits<B(!new), T(!new)>(
      combine: (B, T) -> T, zero: T, fits: (T, nat) -> bool, width: nat, u: seq<B>)
    requires Packs(combine, zero, fits, width) && |u| <= width
    ensures fits(Pack(combine, zero, u), |u|)
    decreases |u|
  {
    if u != [] {
      PackFits(combine, zero, fits, width, u[1..]);
    }
  }

  lemma {:induction false} PackIsInjective<B(!new), T(!new)>(
      combine: (B, T) -> T, zero: T, fits: (T, nat) -> bool, width: nat, u: seq<B>, v: seq<B>)
    requires Packs(combine, zero, fits, width)
    requires |u| == |v| <= width
    requires Pack(combine, zero, u) == Pack(combine, zero, v)
    ensures u == v
    decreases |u|
  {
    if u != [] {
      PackFits(combine, zero, fits, width, u[1..]);
      PackFits(combine, zero, fits, width, v[1..]);
      PackIsInjective(combine, zero, fits, width, u[1..], v[1..]);
      assert u == [u[0]] + u[1..] && v == [v[0]] + v[1..];
    }
  }
}
