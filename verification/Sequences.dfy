/** Facts about concatenation and slicing that hold for sequences of anything. */
module Sequences {

  predicate Distinct<T(==)>(s: seq<T>) {
    forall i, j :: 0 <= i < j < |s| ==> s[i] != s[j]
  }

  lemma Associate<T>(a: seq<T>, b: seq<T>, c: seq<T>)
    ensures a + (b + c) == a + b + c
  {
  }

  lemma AppendNothing<T>(s: seq<T>)
    ensures s + [] == s && [] + s == s
  {
  }

  lemma WholeSlice<T>(s: seq<T>)
    ensures s[..|s|] == s && s[0..] == s && s[|s|..] == []
  {
  }

  /** A slice of what is left after `offset` is a slice of the whole. */
  lemma SubSlice<T>(s: seq<T>, offset: nat, length: nat)
    requires offset + length <= |s|
    ensures s[offset..][..length] == s[offset..offset + length]
    ensures s[offset..][length..] == s[offset + length..]
  {
  }

  /** The next longer prefix ends in the next element. */
  lemma NextPrefix<T>(s: seq<T>, n: nat)
    requires n < |s|
    ensures |s[..n + 1]| == n + 1 && s[..n + 1][..n] == s[..n] && s[..n + 1][n] == s[n]
    ensures s[..n + 1] == s[..n] + [s[n]]
  {
  }

  lemma SplitAppend<T>(a: seq<T>, b: seq<T>)
    ensures (a + b)[..|a|] == a && (a + b)[|a|..] == b
  {
  }

  lemma JoinSlices<T>(s: seq<T>, middle: nat, end: nat)
    requires middle <= end <= |s|
    ensures s[..middle] + s[middle..end] == s[..end]
  {
  }

  lemma DropNext<T>(s: seq<T>, n: nat)
    requires n < |s|
    ensures s[n..][0] == s[n] && s[n..][1..] == s[n + 1..] && |s[n..]| > 0
  {
  }

  // ---------------------------------------------------------------- joining parts

  function Concat<T>(parts: seq<seq<T>>): seq<T> {
    if parts == [] then [] else Concat(parts[..|parts| - 1]) + parts[|parts| - 1]
  }

  lemma ConcatOfOneMore<T>(parts: seq<seq<T>>, since: nat, until: nat)
    requires since <= until < |parts|
    ensures Concat(parts[since..until + 1]) == Concat(parts[since..until]) + parts[until]
  {
    var more := parts[since..until + 1];
    assert more[..|more| - 1] == parts[since..until];
  }

  lemma {:induction false} ConcatSplits<T>(parts: seq<seq<T>>, middle: nat, end: nat)
    requires middle <= end <= |parts|
    ensures Concat(parts[..end]) == Concat(parts[..middle]) + Concat(parts[middle..end])
    decreases end
  {
    if middle == end {
      AppendNothing(Concat(parts[..middle]));
      assert parts[middle..end] == [];
    } else {
      ConcatSplits(parts, middle, end - 1);
      ConcatOfOneMore(parts, 0, end - 1);
      ConcatOfOneMore(parts, middle, end - 1);
      Associate(Concat(parts[..middle]), Concat(parts[middle..end - 1]), parts[end - 1]);
    }
  }

  lemma {:induction false} ConcatIsEmpty<T>(parts: seq<seq<T>>)
    ensures Concat(parts) == [] <==> forall i :: 0 <= i < |parts| ==> parts[i] == []
    decreases |parts|
  {
    if parts != [] {
      var n := |parts| - 1;
      assert forall i :: 0 <= i < n ==> parts[..n][i] == parts[i];
      ConcatIsEmpty(parts[..n]);
    }
  }

  /** What starts empty and grows by the parts holds the parts. */
  lemma {:induction false} Accumulates<T>(sums: seq<seq<T>>, parts: seq<seq<T>>, since: nat, until: nat)
    requires since <= until <= |parts| < |sums| && sums[since] == []
    requires forall i :: since <= i < until ==> sums[i + 1] == sums[i] + parts[i]
    ensures sums[until] == Concat(parts[since..until])
    decreases until
  {
    if since < until {
      Accumulates(sums, parts, since, until - 1);
      ConcatOfOneMore(parts, since, until - 1);
      assert sums[until - 1 + 1] == sums[until - 1] + parts[until - 1];
    } else {
      assert parts[since..until] == [];
    }
  }
}
