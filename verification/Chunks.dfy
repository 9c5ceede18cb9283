/** Codes that work on groups of a fixed size, with a shorter group at the end. */
module Chunks {
  import opened Sequences

  type Code<!S, T> = seq<S> -> seq<T>

  /** The codes of the k-element groups of a sequence, one after the other. */
  function Groups<S, T>(s: seq<S>, k: nat, f: Code<S, T>): seq<T>
    requires k > 0
    decreases |s|
  {
    if |s| < k then [] else Groups(s[..|s| - k], k, f) + f(s[|s| - k..])
  }

  /** All whole groups, then what is left over. */
  function Coded<S, T>(s: seq<S>, k: nat, f: Code<S, T>, last: Code<S, T>): seq<T>
    requires k > 0
  {
    Groups(s[..Whole(|s|, k)], k, f) + last(s[Whole(|s|, k)..])
  }

  function Whole(n: nat, k: nat): (w: nat)
    requires k > 0
    ensures w <= n < w + k
  {
    if n < k then 0 else k + Whole(n - k, k)
  }

  lemma {:induction false} WholeIsWhole(n: nat, k: nat)
    requires k > 0
    ensures Whole(Whole(n, k), k) == Whole(n, k)
    decreases n
  {
    if n >= k {
      WholeIsWhole(n - k, k);
    }
  }

  lemma {:induction false} WholeOfSum(n: nat, rest: nat, k: nat)
    requires k > 0 && rest < k && Whole(n, k) == n
    ensures Whole(n + rest, k) == n
    decreases n
  {
    if n > 0 {
      WholeOfSum(n - k, rest, k);
    }
  }

  lemma OneMoreGroup<S, T>(s: seq<S>, group: seq<S>, k: nat, f: Code<S, T>)
    requires k > 0 && |group| == k
    ensures Groups(s + group, k, f) == Groups(s, k, f) + f(group)
  {
  }

  // ---------------------------------------------------------------- round trip

  /** One code undoes the other on whole groups. */
  ghost predicate GroupsUndone<S(!new), T>(k: nat, j: nat, f: Code<S, T>, g: Code<T, S>) {
    forall x {:trigger f(x)} :: |x| == k ==> |f(x)| == j && g(f(x)) == x
  }

  /** ... and on what is left over. */
  ghost predicate LastUndone<S(!new), T>(k: nat, j: nat, f: Code<S, T>, g: Code<T, S>) {
    forall x {:trigger f(x)} :: |x| < k ==> |f(x)| < j && g(f(x)) == x
  }

  lemma LastGroup<S>(s: seq<S>, k: nat) returns (front: seq<S>, group: seq<S>)
    requires k > 0 && s != [] && Whole(|s|, k) == |s|
    ensures s == front + group && |group| == k && Whole(|front|, k) == |front| < |s|
  {
    front, group := s[..|s| - k], s[|s| - k..];
  }

  lemma RoundTripStep<S, T>(front: seq<S>, group: seq<S>, k: nat, j: nat, f: Code<S, T>, g: Code<T, S>)
    requires |group| == k > 0 && |f(group)| == j > 0 && g(f(group)) == group
    requires Whole(|Groups(front, k, f)|, j) == |Groups(front, k, f)| && Groups(Groups(front, k, f), j, g) == front
    ensures Whole(|Groups(front + group, k, f)|, j) == |Groups(front + group, k, f)|
    ensures Groups(Groups(front + group, k, f), j, g) == front + group
  {
    OneMoreGroup(front, group, k, f);
    OneMoreGroup(Groups(front, k, f), f(group), j, g);
  }

  lemma {:induction false} GroupsRoundTrip<S(!new), T>(s: seq<S>, k: nat, j: nat, f: Code<S, T>, g: Code<T, S>)
    requires k > 0 && j > 0 && Whole(|s|, k) == |s| && GroupsUndone(k, j, f, g)
    ensures Whole(|Groups(s, k, f)|, j) == |Groups(s, k, f)|
    ensures Groups(Groups(s, k, f), j, g) == s
    decreases |s|
  {
    if s != [] {
      var front, group := LastGroup(s, k);
      GroupsRoundTrip(front, k, j, f, g);
      assert |f(group)| == j && g(f(group)) == group;
      RoundTripStep(front, group, k, j, f, g);
    }
  }

  /** Codes that undo each other on whole groups and on what is left over undo each other. */
  lemma RoundTrip<S(!new), T>(s: seq<S>, k: nat, j: nat, f: Code<S, T>, last: Code<S, T>, g: Code<T, S>,
      undoLast: Code<T, S>)
    requires k > 0 && j > 0 && GroupsUndone(k, j, f, g) && LastUndone(k, j, last, undoLast)
    ensures Coded(Coded(s, k, f, last), j, g, undoLast) == s
  {
    var w := Whole(|s|, k);
    var groups, rest := Groups(s[..w], k, f), last(s[w..]);
    WholeIsWhole(|s|, k);
    GroupsRoundTrip(s[..w], k, j, f, g);
    WholeOfSum(|groups|, |rest|, j);
    SplitAppend(groups, rest);
    assert s == s[..w] + s[w..];
  }
}
