/** Tables updated by upserts, for any way of merging a new row into a stored one.  What may be
    repeated, replayed or reordered depends only on the laws of the merge. */
module MergeAlgebra {
  import opened Wrappers
  import opened Sequences

  /** INSERT ... ON CONFLICT DO UPDATE of one row. */
  function Upsert<K, R>(table: map<K, R>, key: K, row: R, merge: (R, R) -> R): map<K, R> {
    if key in table then table[key := merge(table[key], row)] else table[key := row]
  }

  /** A log of upserts, applied in order. */
  function Apply<K, R>(table: map<K, R>, log: seq<(K, R)>, merge: (R, R) -> R): map<K, R> {
    if log == [] then table
    else Upsert(Apply(table, log[..|log| - 1], merge), log[|log| - 1].0, log[|log| - 1].1, merge)
  }

  // ---------------------------------------------------------------- laws

  ghost predicate Associative<R(!new)>(merge: (R, R) -> R) {
    forall a, b, c :: merge(merge(a, b), c) == merge(a, merge(b, c))
  }

  ghost predicate Idempotent<R(!new)>(merge: (R, R) -> R) {
    forall a :: merge(a, a) == a
  }

  /** What was merged in before adds nothing when it comes again. */
  ghost predicate Regular<R(!new)>(merge: (R, R) -> R) {
    forall a, b :: merge(merge(a, b), a) == merge(a, b)
  }

  // ---------------------------------------------------------------- one key

  function At<K, R>(table: map<K, R>, key: K): Option<R> {
    if key in table then Some(table[key]) else None
  }

  /** The merge extended to rows that may be absent. */
  function Join<R>(a: Option<R>, b: Option<R>, merge: (R, R) -> R): Option<R> {
    if a.None? then b else if b.None? then a else Some(merge(a.value, b.value))
  }

  /** All rows of a log for one key, merged. */
  function Total<K(==), R>(log: seq<(K, R)>, key: K, merge: (R, R) -> R): Option<R> {
    if log == [] then None
    else
      var last := log[|log| - 1];
      var before := Total(log[..|log| - 1], key, merge);
      if last.0 == key then Join(before, Some(last.1), merge) else before
  }

  lemma JoinAssociates<R(!new)>(a: Option<R>, b: Option<R>, c: Option<R>, merge: (R, R) -> R)
    requires Associative(merge)
    ensures Join(Join(a, b, merge), c, merge) == Join(a, Join(b, c, merge), merge)
  {
  }

  /** What a log does to a key: the stored row merged with the log's total. */
  lemma {:induction false} ApplyAt<K(!new), R(!new)>(table: map<K, R>, log: seq<(K, R)>, key: K, merge: (R, R) -> R)
    requires Associative(merge)
    ensures At(Apply(table, log, merge), key) == Join(At(table, key), Total(log, key, merge), merge)
    decreases |log|
  {
    if log != [] {
      var front, last := log[..|log| - 1], log[|log| - 1];
      ApplyAt(table, front, key, merge);
      JoinAssociates(At(table, key), Total(front, key, merge), Some(last.1), merge);
    }
  }

  lemma FrontOfAppend<T>(a: seq<T>, b: seq<T>)
    requires b != []
    ensures (a + b)[..|a + b| - 1] == a + b[..|b| - 1] && (a + b)[|a + b| - 1] == b[|b| - 1]
  {
  }

  lemma {:induction false} TotalAppends<K(!new), R(!new)>(first: seq<(K, R)>, second: seq<(K, R)>, key: K,
      merge: (R, R) -> R)
    requires Associative(merge)
    ensures Total(first + second, key, merge) == Join(Total(first, key, merge), Total(second, key, merge), merge)
    decreases |second|
  {
    if second == [] {
      AppendNothing(first);
    } else {
      var front, last := second[..|second| - 1], second[|second| - 1];
      FrontOfAppend(first, second);
      TotalAppends(first, front, key, merge);
      JoinAssociates(Total(first, key, merge), Total(front, key, merge), Some(last.1), merge);
    }
  }

  lemma SameTable<K(!new), R(!new)>(a: map<K, R>, b: map<K, R>)
    requires forall k :: At(a, k) == At(b, k)
    ensures a == b
  {
    forall k ensures k in a <==> k in b {
      assert At(a, k) == At(b, k);
    }
    forall k | k in a ensures a[k] == b[k] {
      assert At(a, k) == At(b, k);
    }
  }

  // ---------------------------------------------------------------- replay

  lemma AbsorbPrefix<R(!new)>(x: Option<R>, p: Option<R>, s: Option<R>, merge: (R, R) -> R)
    requires Associative(merge) && Idempotent(merge)
    ensures Join(Join(x, p, merge), Join(p, s, merge), merge) == Join(x, Join(p, s, merge), merge)
  {
  }

  /** Replaying a log after any part of it from the front was already applied has the same effect as
      applying it once; with nothing left over, replaying twice is replaying once. */
  lemma ReplayAfterPrefix<K(!new), R(!new)>(table: map<K, R>, done: seq<(K, R)>, rest: seq<(K, R)>, merge: (R, R) -> R)
    requires Associative(merge) && Idempotent(merge)
    ensures Apply(Apply(table, done, merge), done + rest, merge) == Apply(table, done + rest, merge)
  {
    var log := done + rest;
    forall k ensures At(Apply(Apply(table, done, merge), log, merge), k) == At(Apply(table, log, merge), k) {
      ApplyAt(Apply(table, done, merge), log, k, merge);
      ApplyAt(table, done, k, merge);
      ApplyAt(table, log, k, merge);
      TotalAppends(done, rest, k, merge);
      AbsorbPrefix(At(table, k), Total(done, k, merge), Total(rest, k, merge), merge);
    }
    SameTable(Apply(Apply(table, done, merge), log, merge), Apply(table, log, merge));
  }

  lemma AbsorbLater<R(!new)>(x: Option<R>, l: Option<R>, q: Option<R>, merge: (R, R) -> R)
    requires Associative(merge) && Idempotent(merge) && Regular(merge)
    ensures Join(Join(Join(x, l, merge), q, merge), l, merge) == Join(Join(x, l, merge), q, merge)
  {
  }

  /** With a regular merge, replaying a log changes nothing even after other logs. */
  lemma ReplayAfterOthers<K(!new), R(!new)>(table: map<K, R>, log: seq<(K, R)>, others: seq<(K, R)>, merge: (R, R) -> R)
    requires Associative(merge) && Idempotent(merge) && Regular(merge)
    ensures var once := Apply(Apply(table, log, merge), others, merge); Apply(once, log, merge) == once
  {
    var once := Apply(Apply(table, log, merge), others, merge);
    forall k ensures At(Apply(once, log, merge), k) == At(once, k) {
      ApplyAt(once, log, k, merge);
      ApplyAt(Apply(table, log, merge), others, k, merge);
      ApplyAt(table, log, k, merge);
      AbsorbLater(At(table, k), Total(log, k, merge), Total(others, k, merge), merge);
    }
    SameTable(Apply(once, log, merge), once);
  }

  // ---------------------------------------------------------------- overwritten columns

  /** The columns in the view are taken from the new row, and a row that comes again after another one
      brings back those columns and nothing else. */
  ghost predicate Overwrites<R(!new), V(!new)>(merge: (R, R) -> R, view: R -> V) {
    && (forall a, b :: view(merge(a, b)) == view(b))
    && (forall a, b :: merge(merge(a, b), a) == merge(a, b) <==> view(a) == view(b))
    && (forall x, a, b :: merge(merge(merge(x, a), b), a) == merge(merge(x, a), b) <==> view(a) == view(b))
  }

  /** The last row of a log for a key. */
  function LastFor<K(==), R>(log: seq<(K, R)>, key: K): Option<R> {
    if log == [] then None
    else if log[|log| - 1].0 == key then Some(log[|log| - 1].1)
    else LastFor(log[..|log| - 1], key)
  }

  predicate SameView<R, V(==)>(a: Option<R>, b: Option<R>, view: R -> V) {
    a.Some? && b.Some? && view(a.value) == view(b.value)
  }

  lemma {:induction false} TotalIsOfLast<K(!new), R(!new), V(!new)>(log: seq<(K, R)>, key: K, merge: (R, R) -> R,
      view: R -> V)
    requires Overwrites(merge, view)
    ensures Total(log, key, merge).None? == LastFor(log, key).None?
    ensures LastFor(log, key).Some? ==> SameView(Total(log, key, merge), LastFor(log, key), view)
    decreases |log|
  {
    if log != [] {
      TotalIsOfLast(log[..|log| - 1], key, merge, view);
    }
  }

  lemma AppliedAgain<R(!new), V(!new)>(x: Option<R>, l: Option<R>, q: Option<R>, merge: (R, R) -> R, view: R -> V)
    requires Associative(merge) && Idempotent(merge) && Overwrites(merge, view)
    ensures Join(Join(Join(x, l, merge), q, merge), l, merge) == Join(Join(x, l, merge), q, merge)
       <==> l.None? || q.None? || SameView(l, q, view)
    ensures l.Some? ==> SameView(Join(Join(Join(x, l, merge), q, merge), l, merge), l, view)
  {
  }

  /** The last rows of two logs for a key have the same columns, if both logs have any. */
  predicate AgreeAt<K(==), R, V(==)>(log: seq<(K, R)>, others: seq<(K, R)>, view: R -> V, key: K) {
    LastFor(log, key).None? || LastFor(others, key).None? || SameView(LastFor(log, key), LastFor(others, key), view)
  }

  ghost predicate Agree<K(!new), R, V>(log: seq<(K, R)>, others: seq<(K, R)>, view: R -> V) {
    forall k :: AgreeAt(log, others, view, k)
  }

  lemma LateReplayAt<K(!new), R(!new), V(!new)>(table: map<K, R>, log: seq<(K, R)>, others: seq<(K, R)>,
      merge: (R, R) -> R, view: R -> V, key: K)
    requires Associative(merge) && Idempotent(merge) && Overwrites(merge, view)
    ensures var once := Apply(Apply(table, log, merge), others, merge);
            && (At(Apply(once, log, merge), key) == At(once, key) <==> AgreeAt(log, others, view, key))
            && (LastFor(log, key).Some? ==> SameView(At(Apply(once, log, merge), key), LastFor(log, key), view))
  {
    var first := Apply(table, log, merge);
    var once := Apply(first, others, merge);
    ApplyAt(once, log, key, merge);
    ApplyAt(first, others, key, merge);
    ApplyAt(table, log, key, merge);
    TotalIsOfLast(log, key, merge, view);
    TotalIsOfLast(others, key, merge, view);
    AppliedAgain(At(table, key), Total(log, key, merge), Total(others, key, merge), merge, view);
  }

  /** A log replayed after another one brings back its own columns wherever it has a row, and changes
      nothing exactly when the last rows of the two logs agree wherever both have one. */
  lemma LateReplayIff<K(!new), R(!new), V(!new)>(table: map<K, R>, log: seq<(K, R)>, others: seq<(K, R)>,
      merge: (R, R) -> R, view: R -> V)
    requires Associative(merge) && Idempotent(merge) && Overwrites(merge, view)
    ensures var once := Apply(Apply(table, log, merge), others, merge);
            && (Apply(once, log, merge) == once <==> Agree(log, others, view))
            && (forall k :: LastFor(log, k).Some? ==> SameView(At(Apply(once, log, merge), k), LastFor(log, k), view))
  {
    var once := Apply(Apply(table, log, merge), others, merge);
    forall k
      ensures At(Apply(once, log, merge), k) == At(once, k) <==> AgreeAt(log, others, view, k)
      ensures LastFor(log, k).Some? ==> SameView(At(Apply(once, log, merge), k), LastFor(log, k), view)
    {
      LateReplayAt(table, log, others, merge, view, k);
    }
    if Agree(log, others, view) {
      SameTable(Apply(once, log, merge), once);
    }
  }

  // ---------------------------------------------------------------- looking at some columns

  function View<K, R, V>(table: map<K, R>, view: R -> V): map<K, V> {
    map k | k in table :: view(table[k])
  }

  function ViewLog<K, R, V>(log: seq<(K, R)>, view: R -> V): seq<(K, V)> {
    seq(|log|, i requires 0 <= i < |log| => (log[i].0, view(log[i].1)))
  }

  /** When a merge treats some columns on their own, so does a log of upserts. */
  lemma {:induction false} ViewOfApply<K(!new), R(!new), V(!new)>(
      table: map<K, R>, log: seq<(K, R)>, merge: (R, R) -> R, view: R -> V, join: (V, V) -> V)
    requires forall a, b :: view(merge(a, b)) == join(view(a), view(b))
    ensures View(Apply(table, log, merge), view) == Apply(View(table, view), ViewLog(log, view), join)
    decreases |log|
  {
    if log != [] {
      var front := log[..|log| - 1];
      ViewOfApply(table, front, merge, view, join);
      assert ViewLog(log, view)[..|log| - 1] == ViewLog(front, view);
    }
  }

  // ---------------------------------------------------------------- semilattices: order and repetition do not matter

  ghost predicate Commutative<R(!new)>(merge: (R, R) -> R) {
    forall a, b :: merge(a, b) == merge(b, a)
  }

  ghost predicate Semilattice<R(!new)>(merge: (R, R) -> R) {
    Associative(merge) && Commutative(merge) && Idempotent(merge)
  }

  lemma JoinSwaps<R(!new)>(a: Option<R>, b: Option<R>, c: Option<R>, merge: (R, R) -> R)
    requires Semilattice(merge)
    ensures Join(Join(a, b, merge), c, merge) == Join(Join(a, c, merge), b, merge)
  {
  }

  /** A log's total takes in every row of the log. */
  lemma {:induction false} TotalAbsorbs<K(!new), R(!new)>(log: seq<(K, R)>, i: nat, merge: (R, R) -> R)
    requires Semilattice(merge) && i < |log|
    ensures Join(Total(log, log[i].0, merge), Some(log[i].1), merge) == Total(log, log[i].0, merge)
    decreases |log|
  {
    var n := |log| - 1;
    var before := Total(log[..n], log[i].0, merge);
    if i == n {
      JoinAssociates(before, Some(log[i].1), Some(log[i].1), merge);
    } else {
      assert log[..n][i] == log[i];
      TotalAbsorbs(log[..n], i, merge);
      JoinSwaps(before, Some(log[n].1), Some(log[i].1), merge);
    }
  }

  ghost predicate TakesIn<K, R>(u: Option<R>, log: seq<(K, R)>, key: K, merge: (R, R) -> R) {
    forall i :: 0 <= i < |log| && log[i].0 == key ==> Join(u, Some(log[i].1), merge) == u
  }

  /** Whatever takes in every row of a log takes in its total. */
  lemma {:induction false} TotalIsLeast<K(!new), R(!new)>(log: seq<(K, R)>, key: K, u: Option<R>, merge: (R, R) -> R)
    requires Semilattice(merge) && TakesIn(u, log, key, merge)
    ensures Join(u, Total(log, key, merge), merge) == u
    decreases |log|
  {
    if log != [] {
      var n := |log| - 1;
      assert forall i :: 0 <= i < n ==> log[..n][i] == log[i];
      TotalIsLeast(log[..n], key, u, merge);
      JoinAssociates(u, Total(log[..n], key, merge), Some(log[n].1), merge);
    }
  }

  /** Logs that take in each other have the same total. */
  lemma MutualTotals<K(!new), R(!new)>(a: seq<(K, R)>, b: seq<(K, R)>, key: K, merge: (R, R) -> R)
    requires Semilattice(merge)
    requires TakesIn(Total(a, key, merge), b, key, merge) && TakesIn(Total(b, key, merge), a, key, merge)
    ensures Total(a, key, merge) == Total(b, key, merge)
  {
    TotalIsLeast(a, key, Total(b, key, merge), merge);
    TotalIsLeast(b, key, Total(a, key, merge), merge);
  }

  /** Totals depend on the set of rows only: not on their order, nor on how often they come. */
  lemma SameRowsSameTotal<K(!new), R(!new)>(a: seq<(K, R)>, b: seq<(K, R)>, key: K, merge: (R, R) -> R)
    requires Semilattice(merge) && forall x :: x in a <==> x in b
    ensures Total(a, key, merge) == Total(b, key, merge)
  {
    forall i | 0 <= i < |a| && a[i].0 == key
      ensures Join(Total(b, key, merge), Some(a[i].1), merge) == Total(b, key, merge) {
      assert a[i] in b;
      var j: nat :| j < |b| && b[j] == a[i];
      TotalAbsorbs(b, j, merge);
    }
    forall i | 0 <= i < |b| && b[i].0 == key
      ensures Join(Total(a, key, merge), Some(b[i].1), merge) == Total(a, key, merge) {
      assert b[i] in a;
      var j: nat :| j < |a| && a[j] == b[i];
      TotalAbsorbs(a, j, merge);
    }
    MutualTotals(a, b, key, merge);
  }

  // ---------------------------------------------------------------- what a table and a pending log hold together

  /** The table, once the pending log is applied to it, holds exactly the pieces. */
  ghost predicate Accounts<K(!new), R(!new)>(table: map<K, R>, pending: seq<(K, R)>, pieces: seq<(K, R)>,
      merge: (R, R) -> R) {
    forall k :: AccountsAt(table, pending, pieces, merge, k)
  }

  ghost predicate AccountsAt<K(!new), R(!new)>(table: map<K, R>, pending: seq<(K, R)>, pieces: seq<(K, R)>,
      merge: (R, R) -> R, k: K) {
    Join(At(table, k), Total(pending, k, merge), merge) == Total(pieces, k, merge)
  }

  ghost predicate SameTotals<K(!new), R(!new)>(a: seq<(K, R)>, b: seq<(K, R)>, merge: (R, R) -> R) {
    forall k :: Total(a, k, merge) == Total(b, k, merge)
  }

  /** The database took a log that stands for more pieces. */
  lemma TakenIsAccounted<K(!new), R(!new)>(table: map<K, R>, pending: seq<(K, R)>, pieces: seq<(K, R)>,
                                           log: seq<(K, R)>, more: seq<(K, R)>, merge: (R, R) -> R)
    requires Semilattice(merge) && Accounts(table, pending, pieces, merge) && SameTotals(log, more, merge)
    ensures Accounts(Apply(table, log, merge), pending, pieces + more, merge)
  {
    var after, all := Apply(table, log, merge), pieces + more;
    forall k ensures AccountsAt(after, pending, all, merge, k) {
      assert AccountsAt(table, pending, pieces, merge, k);
      ApplyAt(table, log, k, merge);
      TotalAppends(pieces, more, k, merge);
      JoinSwaps(At(table, k), Total(log, k, merge), Total(pending, k, merge), merge);
    }
  }

  /** The log went to the end of the pending log instead. */
  lemma PendingIsAccounted<K(!new), R(!new)>(table: map<K, R>, pending: seq<(K, R)>, pieces: seq<(K, R)>,
                                             log: seq<(K, R)>, more: seq<(K, R)>, merge: (R, R) -> R)
    requires Semilattice(merge) && Accounts(table, pending, pieces, merge) && SameTotals(log, more, merge)
    ensures Accounts(table, pending + log, pieces + more, merge)
  {
    var after, all := pending + log, pieces + more;
    forall k ensures AccountsAt(table, after, all, merge, k) {
      assert AccountsAt(table, pending, pieces, merge, k);
      TotalAppends(pending, log, k, merge);
      TotalAppends(pieces, more, k, merge);
      JoinAssociates(At(table, k), Total(pending, k, merge), Total(log, k, merge), merge);
    }
  }

  /** A log that was taken may be pending as well: nothing is counted twice. */
  lemma PendingAgain<K(!new), R(!new)>(table: map<K, R>, pending: seq<(K, R)>, log: seq<(K, R)>, pieces: seq<(K, R)>,
      merge: (R, R) -> R)
    requires Semilattice(merge) && Accounts(table, pending + log, pieces, merge)
    ensures Accounts(Apply(table, log, merge), pending + log, pieces, merge)
  {
    var after, all := Apply(table, log, merge), pending + log;
    forall k ensures AccountsAt(after, all, pieces, merge, k) {
      assert AccountsAt(table, all, pieces, merge, k);
      ApplyAt(table, log, k, merge);
      TotalAppends(pending, log, k, merge);
      JoinSwaps(At(table, k), Total(log, k, merge), Total(all, k, merge), merge);
      AbsorbTwice(At(table, k), Total(pending, k, merge), Total(log, k, merge), merge);
    }
  }

  lemma AbsorbTwice<R(!new)>(x: Option<R>, p: Option<R>, l: Option<R>, merge: (R, R) -> R)
    requires Semilattice(merge)
    ensures Join(Join(x, Join(p, l, merge), merge), l, merge) == Join(x, Join(p, l, merge), merge)
  {
  }

  /** A replay that ran up to some point and kept the pending log. */
  lemma PartReplayed<K(!new), R(!new)>(table: map<K, R>, done: seq<(K, R)>, rest: seq<(K, R)>, pieces: seq<(K, R)>,
      merge: (R, R) -> R)
    requires Semilattice(merge) && Accounts(table, done + rest, pieces, merge)
    ensures Accounts(Apply(table, done, merge), done + rest, pieces, merge)
  {
    var after, all := Apply(table, done, merge), done + rest;
    forall k ensures AccountsAt(after, all, pieces, merge, k) {
      assert AccountsAt(table, all, pieces, merge, k);
      ApplyAt(table, done, k, merge);
      TotalAppends(done, rest, k, merge);
      AbsorbPrefix(At(table, k), Total(done, k, merge), Total(rest, k, merge), merge);
    }
  }

  /** A replay that ran through and emptied the pending log. */
  lemma Replayed<K(!new), R(!new)>(table: map<K, R>, pending: seq<(K, R)>, pieces: seq<(K, R)>, merge: (R, R) -> R)
    requires Semilattice(merge) && Accounts(table, pending, pieces, merge)
    ensures Accounts(Apply(table, pending, merge), [], pieces, merge)
  {
    var after := Apply(table, pending, merge);
    forall k ensures AccountsAt(after, [], pieces, merge, k) {
      assert AccountsAt(table, pending, pieces, merge, k);
      ApplyAt(table, pending, k, merge);
    }
  }
}
