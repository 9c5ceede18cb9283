/** Group-by over a stream: groups, sums, counts and extremes of a list of samples, and what a map
    of running accumulators must hold to agree with them. */
module Grouping {
  import opened Wrappers
  import opened Sequences

  /** The samples with a given key, in order. */
  function Group<S, K(==)>(samples: seq<S>, key: S -> K, k: K): seq<S> {
    if samples == [] then []
    else
      var last := samples[|samples| - 1];
      Group(samples[..|samples| - 1], key, k) + (if key(last) == k then [last] else [])
  }

  function Sum<S>(samples: seq<S>, f: S -> real): real {
    if samples == [] then 0.0 else Sum(samples[..|samples| - 1], f) + f(samples[|samples| - 1])
  }

  function Count<S>(samples: seq<S>, p: S -> bool): nat {
    if samples == [] then 0
    else Count(samples[..|samples| - 1], p) + (if p(samples[|samples| - 1]) then 1 else 0)
  }

  /** PostgreSQL's LEAST and the accumulator's `std::min`: an absent value gives way. */
  function Least(a: Option<real>, b: Option<real>): Option<real> {
    if a.None? then b else if b.None? then a else if b.value < a.value then b else a
  }

  function Greatest(a: Option<real>, b: Option<real>): Option<real> {
    if a.None? then b else if b.None? then a else if b.value > a.value then b else a
  }

  function MinOf<S>(samples: seq<S>, f: S -> Option<real>): Option<real> {
    if samples == [] then None else Least(MinOf(samples[..|samples| - 1], f), f(samples[|samples| - 1]))
  }

  function MaxOf<S>(samples: seq<S>, f: S -> Option<real>): Option<real> {
    if samples == [] then None else Greatest(MaxOf(samples[..|samples| - 1], f), f(samples[|samples| - 1]))
  }

  lemma GroupOfOneMore<S, K>(samples: seq<S>, s: S, key: S -> K, k: K)
    ensures Group(samples + [s], key, k) == Group(samples, key, k) + (if key(s) == k then [s] else [])
  {
  }

  lemma SumOfOneMore<S>(samples: seq<S>, s: S, f: S -> real)
    ensures Sum(samples + [s], f) == Sum(samples, f) + f(s)
  {
  }

  lemma ExtremesOfOneMore<S>(samples: seq<S>, s: S, f: S -> Option<real>)
    ensures MinOf(samples + [s], f) == Least(MinOf(samples, f), f(s))
    ensures MaxOf(samples + [s], f) == Greatest(MaxOf(samples, f), f(s))
  {
  }

  /** The minimum is present exactly when some sample has a value, is one of the values, and is at
      most each of them. */
  lemma {:induction false} MinIsLeast<S>(samples: seq<S>, f: S -> Option<real>)
    ensures MinOf(samples, f).Some? <==> exists i :: 0 <= i < |samples| && f(samples[i]).Some?
    ensures MinOf(samples, f).Some? ==> exists i :: 0 <= i < |samples| && f(samples[i]) == MinOf(samples, f)
    ensures forall i :: 0 <= i < |samples| && f(samples[i]).Some? ==> MinOf(samples, f).value <= f(samples[i]).value
    decreases |samples|
  {
    if samples != [] {
      var n := |samples| - 1;
      MinIsLeast(samples[..n], f);
      assert forall i :: 0 <= i < n ==> samples[..n][i] == samples[i];
    }
  }

  lemma {:induction false} MaxIsGreatest<S>(samples: seq<S>, f: S -> Option<real>)
    ensures MaxOf(samples, f).Some? <==> exists i :: 0 <= i < |samples| && f(samples[i]).Some?
    ensures MaxOf(samples, f).Some? ==> exists i :: 0 <= i < |samples| && f(samples[i]) == MaxOf(samples, f)
    ensures forall i :: 0 <= i < |samples| && f(samples[i]).Some? ==> MaxOf(samples, f).value >= f(samples[i]).value
    decreases |samples|
  {
    if samples != [] {
      var n := |samples| - 1;
      MaxIsGreatest(samples[..n], f);
      assert forall i :: 0 <= i < n ==> samples[..n][i] == samples[i];
    }
  }

  /** The average of values between two bounds lies between them. */
  lemma {:induction false} SumWithinBounds<S>(samples: seq<S>, f: S -> real, low: real, high: real)
    requires forall i :: 0 <= i < |samples| ==> low <= f(samples[i]) <= high
    ensures low * |samples| as real <= Sum(samples, f) <= high * |samples| as real
    decreases |samples|
  {
    if samples != [] {
      var n := |samples| - 1;
      SumWithinBounds(samples[..n], f, low, high);
      assert |samples| as real == n as real + 1.0;
      Distribute(low, n as real);
      Distribute(high, n as real);
    }
  }

  lemma Distribute(x: real, n: real)
    ensures x * (n + 1.0) == x * n + x
  {
  }

  lemma AverageWithinBounds<S>(samples: seq<S>, f: S -> real, low: real, high: real)
    requires samples != []
    requires forall i :: 0 <= i < |samples| ==> low <= f(samples[i]) <= high
    ensures low <= Sum(samples, f) / |samples| as real <= high
  {
    SumWithinBounds(samples, f, low, high);
    QuotientBounds(Sum(samples, f), |samples| as real, low, high);
  }

  lemma QuotientBounds(sum: real, n: real, low: real, high: real)
    requires n > 0.0 && low * n <= sum <= high * n
    ensures low <= sum / n <= high
  {
  }

  // ---------------------------------------------------------------- maps of accumulators

  /** At a key, the map has an entry exactly when there are samples, and it is their statistic. */
  ghost predicate HoldsAt<S(!new), K(!new), V(!new)>(m: map<K, V>, samples: seq<S>, key: S -> K, stats: seq<S> -> V,
      k: K) {
    (k in m <==> Group(samples, key, k) != []) && (k in m ==> m[k] == stats(Group(samples, key, k)))
  }

  ghost predicate Holds<S(!new), K(!new), V(!new)>(m: map<K, V>, samples: seq<S>, key: S -> K, stats: seq<S> -> V) {
    forall k :: HoldsAt(m, samples, key, stats, k)
  }

  lemma HoldsAtAfter<S(!new), K(!new), V(!new)>(
      m: map<K, V>, samples: seq<S>, key: S -> K, stats: seq<S> -> V, s: S, v: V, k: K)
    requires HoldsAt(m, samples, key, stats, k)
    requires v == stats(Group(samples, key, key(s)) + [s])
    ensures HoldsAt(m[key(s) := v], samples + [s], key, stats, k)
  {
    GroupOfOneMore(samples, s, key, k);
    AppendNothing(Group(samples, key, k));
  }

  /** Entering a sample: its entry becomes the statistic of its group with the sample. */
  lemma HoldsAfterOneMore<S(!new), K(!new), V(!new)>(
      m: map<K, V>, samples: seq<S>, key: S -> K, stats: seq<S> -> V, s: S, v: V)
    requires Holds(m, samples, key, stats)
    requires v == stats(Group(samples, key, key(s)) + [s])
    ensures Holds(m[key(s) := v], samples + [s], key, stats)
  {
    var after, more := m[key(s) := v], samples + [s];
    forall k ensures HoldsAt(after, more, key, stats, k) {
      HoldsAtAfter(m, samples, key, stats, s, v, k);
    }
  }

  // ---------------------------------------------------------------- groups partition the samples

  /** The group sizes of a list of keys, added up. */
  function SizeTotal<S, K(==)>(samples: seq<S>, key: S -> K, keys: seq<K>): nat {
    if keys == [] then 0 else |Group(samples, key, keys[0])| + SizeTotal(samples, key, keys[1..])
  }

  lemma {:induction false} SizeTotalOfOneMore<S, K>(samples: seq<S>, s: S, key: S -> K, keys: seq<K>)
    requires Distinct(keys)
    ensures SizeTotal(samples + [s], key, keys)
         == SizeTotal(samples, key, keys) + (if key(s) in keys then 1 else 0)
    decreases |keys|
  {
    if keys != [] {
      SizeTotalOfOneMore(samples, s, key, keys[1..]);
      GroupOfOneMore(samples, s, key, keys[0]);
      assert key(s) in keys <==> key(s) == keys[0] || key(s) in keys[1..];
    }
  }

  lemma {:induction false} NoSamples<S, K>(key: S -> K, keys: seq<K>)
    ensures SizeTotal<S, K>([], key, keys) == 0
    decreases |keys|
  {
    if keys != [] {
      NoSamples(key, keys[1..]);
    }
  }

  /** When the keys are listed once each, the group sizes add up to the number of samples. */
  lemma {:induction false} GroupsPartition<S, K>(samples: seq<S>, key: S -> K, keys: seq<K>)
    requires Distinct(keys) && forall i :: 0 <= i < |samples| ==> key(samples[i]) in keys
    ensures SizeTotal(samples, key, keys) == |samples|
    decreases |samples|
  {
    if samples == [] {
      NoSamples(key, keys);
    } else {
      var n := |samples| - 1;
      assert samples == samples[..n] + [samples[n]];
      assert forall i :: 0 <= i < n ==> samples[..n][i] == samples[i];
      GroupsPartition(samples[..n], key, keys);
      SizeTotalOfOneMore(samples[..n], samples[n], key, keys);
    }
  }

  lemma {:induction false} GroupMembers<S, K>(samples: seq<S>, key: S -> K, k: K)
    ensures forall i :: 0 <= i < |Group(samples, key, k)| ==> key(Group(samples, key, k)[i]) == k
    ensures Group(samples, key, k) != [] <==> exists i :: 0 <= i < |samples| && key(samples[i]) == k
    ensures forall s :: s in Group(samples, key, k) <==> s in samples && key(s) == k
    decreases |samples|
  {
    if samples != [] {
      var n := |samples| - 1;
      assert samples == samples[..n] + [samples[n]];
      GroupMembers(samples[..n], key, k);
      assert forall i :: 0 <= i < n ==> samples[..n][i] == samples[i];
    }
  }
}
