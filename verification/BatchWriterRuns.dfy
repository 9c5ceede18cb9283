/** The batch writer as one machine: its bounded queue behind the duplicate cache, the batches its thread
    takes, what becomes of them, and the thread's end.  What is queued may be anything with an id. */
module BatchWriterRuns {
  import opened DedupCache
  import opened Numbers
  import opened Sequences

  datatype Item<T> = Item(id: string, valid: bool, body: T)

  /** `flushing` is the batch taken and not yet flushed.  Of everything `flushed`, `stored` says whether the
      database or the outbox took it; `queued` and `acknowledged` are histories. */
  datatype Writer<T> = Writer(
    pending: seq<Item<T>>, flushing: seq<Item<T>>, exited: bool,
    flushed: seq<Item<T>>, stored: seq<bool>,
    queued: seq<Item<T>>, acknowledged: seq<string>)

  datatype Outcome = Refused | Duplicate | Queued

  datatype Action<T> =
    | Submit(item: Item<T>)
    | Take
    | Flush(kept: bool)
    | Exit                     // the loop is left, and everything pending taken for the final flush

  function Idle<T>(): Writer<T> { Writer([], [], false, [], [], [], []) }

  function IdsOf<T>(items: seq<Item<T>>): (ids: seq<string>)
    ensures |ids| == |items|
  {
    seq(|items|, i requires 0 <= i < |items| => items[i].id)
  }

  function OutcomeOf<T>(maxQueueSize: nat, w: Writer<T>, item: Item<T>): Outcome {
    if !item.valid || |w.pending| >= maxQueueSize then Refused
    else if item.id in Recent(IdsOf(w.queued)) then Duplicate
    else Queued
  }

  predicate Enabled<T>(w: Writer<T>, a: Action<T>) {
    match a
    case Submit(_) => true
    case Take => !w.exited && w.flushing == []
    case Flush(_) => w.flushing != []
    case Exit => !w.exited && w.flushing == []
  }

  function Repeat(kept: bool, n: nat): seq<bool> { seq(n, _ => kept) }

  function Apply<T>(maxQueueSize: nat, batchSize: nat, w: Writer<T>, a: Action<T>): Writer<T>
    requires Enabled(w, a)
  {
    match a
    case Submit(item) =>
      (match OutcomeOf(maxQueueSize, w, item)
       case Refused => w
       case Duplicate => w.(acknowledged := w.acknowledged + [item.id])
       case Queued =>
         w.(pending := w.pending + [item], queued := w.queued + [item], acknowledged := w.acknowledged + [item.id]))
    case Take =>
      var n: nat := Min(|w.pending|, batchSize);
      w.(flushing := w.pending[..n], pending := w.pending[n..])
    case Flush(kept) =>
      w.(flushing := [], flushed := w.flushed + w.flushing, stored := w.stored + Repeat(kept, |w.flushing|))
    case Exit =>
      w.(flushing := w.pending, pending := [], exited := true)
  }

  predicate Possible<T>(maxQueueSize: nat, batchSize: nat, w: Writer<T>, run: seq<Action<T>>)
    decreases |run|
  {
    run == []
    || (Enabled(w, run[0]) && Possible(maxQueueSize, batchSize, Apply(maxQueueSize, batchSize, w, run[0]), run[1..]))
  }

  function After<T>(maxQueueSize: nat, batchSize: nat, w: Writer<T>, run: seq<Action<T>>): Writer<T>
    requires Possible(maxQueueSize, batchSize, w, run)
    decreases |run|
  {
    if run == [] then w else After(maxQueueSize, batchSize, Apply(maxQueueSize, batchSize, w, run[0]), run[1..])
  }

  // ---------------------------------------------------------------- the invariant

  ghost predicate SameIds<T>(acknowledged: seq<string>, queued: seq<Item<T>>) {
    forall id :: id in acknowledged <==> id in IdsOf(queued)
  }

  ghost predicate Inv<T>(maxQueueSize: nat, w: Writer<T>) {
    && w.flushed + w.flushing + w.pending == w.queued
    && |w.stored| == |w.flushed| && |w.pending| <= maxQueueSize
    && Spaced(IdsOf(w.queued)) && SameIds(w.acknowledged, w.queued)
  }

  lemma IdsOfOneMore<T>(items: seq<Item<T>>, item: Item<T>)
    ensures IdsOf(items + [item]) == IdsOf(items) + [item.id]
  {
    assert IdsOf(items + [item]) == IdsOf(items) + [item.id];
  }

  lemma RecentIsQueued(queued: seq<string>, id: string)
    requires id in Recent(queued)
    ensures id in queued
  {
  }

  lemma SubmitKeepsInv<T>(maxQueueSize: nat, batchSize: nat, w: Writer<T>, item: Item<T>)
    requires Inv(maxQueueSize, w)
    ensures Inv(maxQueueSize, Apply(maxQueueSize, batchSize, w, Submit(item)))
  {
    var ids := IdsOf(w.queued);
    IdsOfOneMore(w.queued, item);
    match OutcomeOf(maxQueueSize, w, item)
    case Refused =>
    case Duplicate => RecentIsQueued(ids, item.id);
    case Queued =>
      StaysSpaced(ids, item.id);
      Associate(w.flushed + w.flushing, w.pending, [item]);
  }

  lemma TakeKeepsInv<T>(maxQueueSize: nat, batchSize: nat, w: Writer<T>)
    requires Inv(maxQueueSize, w) && Enabled(w, Take)
    ensures Inv(maxQueueSize, Apply(maxQueueSize, batchSize, w, Take))
  {
    var n: nat := Min(|w.pending|, batchSize);
    AppendNothing(w.flushed);
    JoinSlices(w.pending, n, |w.pending|);
    WholeSlice(w.pending);
    Associate(w.flushed, w.pending[..n], w.pending[n..]);
  }

  lemma FlushKeepsInv<T>(maxQueueSize: nat, batchSize: nat, w: Writer<T>, kept: bool)
    requires Inv(maxQueueSize, w) && Enabled(w, Flush(kept))
    ensures Inv(maxQueueSize, Apply(maxQueueSize, batchSize, w, Flush(kept)))
  {
    AppendNothing(w.flushed + w.flushing);
  }

  lemma ExitKeepsInv<T>(maxQueueSize: nat, batchSize: nat, w: Writer<T>)
    requires Inv(maxQueueSize, w) && Enabled(w, Exit)
    ensures Inv(maxQueueSize, Apply(maxQueueSize, batchSize, w, Exit))
  {
    AppendNothing(w.flushed);
    AppendNothing(w.flushed + w.pending);
  }

  lemma StepKeepsInv<T>(maxQueueSize: nat, batchSize: nat, w: Writer<T>, a: Action<T>)
    requires Inv(maxQueueSize, w) && Enabled(w, a)
    ensures Inv(maxQueueSize, Apply(maxQueueSize, batchSize, w, a))
  {
    match a
    case Submit(item) => SubmitKeepsInv(maxQueueSize, batchSize, w, item);
    case Take => TakeKeepsInv(maxQueueSize, batchSize, w);
    case Flush(kept) => FlushKeepsInv(maxQueueSize, batchSize, w, kept);
    case Exit => ExitKeepsInv(maxQueueSize, batchSize, w);
  }

  lemma {:induction false} RunKeepsInv<T>(maxQueueSize: nat, batchSize: nat, w: Writer<T>, run: seq<Action<T>>)
    requires Inv(maxQueueSize, w) && Possible(maxQueueSize, batchSize, w, run)
    ensures Inv(maxQueueSize, After(maxQueueSize, batchSize, w, run))
    decreases |run|
  {
    if run != [] {
      StepKeepsInv(maxQueueSize, batchSize, w, run[0]);
      RunKeepsInv(maxQueueSize, batchSize, Apply(maxQueueSize, batchSize, w, run[0]), run[1..]);
    }
  }

  // ---------------------------------------------------------------- what an acknowledgement is worth

  predicate Waits<T>(w: Writer<T>, id: string) { id in IdsOf(w.flushing) || id in IdsOf(w.pending) }

  ghost predicate IsStored<T>(w: Writer<T>, id: string) {
    exists i :: 0 <= i < |w.flushed| && i < |w.stored| && w.stored[i] && w.flushed[i].id == id
  }

  /** A copy was in a batch that neither the database nor the outbox took. */
  predicate IsLost<T>(w: Writer<T>, i: nat) { i < |w.flushed| && i < |w.stored| && !w.stored[i] }

  ghost predicate HasCopy<T>(w: Writer<T>, id: string) {
    exists i: nat :: i < |w.queued| && w.queued[i].id == id && !IsLost(w, i)
  }

  lemma WhereCopiesAre<T>(w: Writer<T>, i: nat)
    requires w.flushed + w.flushing + w.pending == w.queued && i < |w.queued|
    ensures var f, t := |w.flushed|, |w.flushing|;
            w.queued[i] == if i < f then w.flushed[i] else if i < f + t then w.flushing[i - f] else w.pending[i - f - t]
  {
  }

  lemma CopyIsSafe<T>(maxQueueSize: nat, w: Writer<T>, i: nat)
    requires Inv(maxQueueSize, w) && i < |w.queued| && !IsLost(w, i)
    ensures Waits(w, w.queued[i].id) || IsStored(w, w.queued[i].id)
  {
    var f, t := |w.flushed|, |w.flushing|;
    WhereCopiesAre(w, i);
    if i < f {
      assert w.stored[i];
    } else if i < f + t {
      assert IdsOf(w.flushing)[i - f] == w.queued[i].id;
    } else {
      assert IdsOf(w.pending)[i - f - t] == w.queued[i].id;
    }
  }

  lemma SafeIsCopy<T>(maxQueueSize: nat, w: Writer<T>, id: string)
    requires Inv(maxQueueSize, w) && (Waits(w, id) || IsStored(w, id))
    ensures HasCopy(w, id)
  {
    var f, t := |w.flushed|, |w.flushing|;
    var i: nat;
    if IsStored(w, id) {
      i :| i < f && i < |w.stored| && w.stored[i] && w.flushed[i].id == id;
    } else if id in IdsOf(w.flushing) {
      var j: nat :| j < t && IdsOf(w.flushing)[j] == id;
      i := f + j;
    } else {
      var j: nat :| j < |w.pending| && IdsOf(w.pending)[j] == id;
      i := f + t + j;
    }
    WhereCopiesAre(w, i);
    assert w.queued[i].id == id && !IsLost(w, i);
  }

  lemma SafeIff<T>(maxQueueSize: nat, w: Writer<T>, id: string)
    requires Inv(maxQueueSize, w)
    ensures Waits(w, id) || IsStored(w, id) <==> HasCopy(w, id)
    ensures HasCopy(w, id) ==> id in w.acknowledged
  {
    if Waits(w, id) || IsStored(w, id) {
      SafeIsCopy(maxQueueSize, w, id);
    }
    if HasCopy(w, id) {
      var i: nat :| i < |w.queued| && w.queued[i].id == id && !IsLost(w, i);
      CopyIsSafe(maxQueueSize, w, i);
      assert IdsOf(w.queued)[i] == id;
    }
  }

  lemma IdleInv<T>(maxQueueSize: nat)
    ensures Inv<T>(maxQueueSize, Idle())
  {
  }

  /** In every run: an id was acknowledged exactly when it was queued at some time, and it still waits or is
      stored exactly when one of its queued copies was not in a batch that the database and the outbox both
      refused. */
  lemma AcknowledgedIsSafeIff<T>(maxQueueSize: nat, batchSize: nat, run: seq<Action<T>>, id: string)
    requires Possible(maxQueueSize, batchSize, Idle(), run)
    ensures var w := After(maxQueueSize, batchSize, Idle(), run);
            && (id in w.acknowledged <==> id in IdsOf(w.queued))
            && (Waits(w, id) || IsStored(w, id) <==> HasCopy(w, id))
            && (HasCopy(w, id) ==> id in w.acknowledged)
  {
    IdleInv<T>(maxQueueSize);
    RunKeepsInv(maxQueueSize, batchSize, Idle(), run);
    SafeIff(maxQueueSize, After(maxQueueSize, batchSize, Idle(), run), id);
  }

  lemma NoLaterCopy(ids: seq<string>, p: nat, i: nat)
    requires Spaced(ids) && p < i < |ids| && |ids| <= p + CACHE_LIMIT + 1
    ensures ids[i] != ids[p]
  {
  }

  lemma StillRecent(ids: seq<string>, p: nat)
    requires p < |ids| <= p + CACHE_LIMIT
    ensures ids[p] in Recent(ids)
  {
    if |ids| > CACHE_LIMIT {
      assert Recent(ids)[p - (|ids| - CACHE_LIMIT)] == ids[p];
    }
  }

  /** Once all copies of an id are lost, and as long as no more than a cache's length of others was queued
      since the last of them, the id is acknowledged but neither waits nor is stored, and submitting it again
      queues nothing, though it may well be acknowledged again. */
  lemma RetryIsSwallowed<T>(maxQueueSize: nat, batchSize: nat, run: seq<Action<T>>, p: nat, again: Item<T>)
    requires Possible(maxQueueSize, batchSize, Idle(), run)
    requires var w := After(maxQueueSize, batchSize, Idle(), run);
             && p < |w.queued| <= p + CACHE_LIMIT && again.id == w.queued[p].id
             && forall i: nat :: i <= p && w.queued[i].id == again.id ==> IsLost(w, i)
    ensures var w := After(maxQueueSize, batchSize, Idle(), run);
            && again.id in w.acknowledged && !Waits(w, again.id) && !IsStored(w, again.id)
            && OutcomeOf(maxQueueSize, w, again) != Queued
            && (OutcomeOf(maxQueueSize, w, again) == Duplicate <==> again.valid && |w.pending| < maxQueueSize)
  {
    var w := After(maxQueueSize, batchSize, Idle(), run);
    IdleInv<T>(maxQueueSize);
    RunKeepsInv(maxQueueSize, batchSize, Idle(), run);
    SafeIff(maxQueueSize, w, again.id);
    var ids := IdsOf(w.queued);
    assert ids[p] == again.id;
    StillRecent(ids, p);
    forall i: nat | i < |w.queued| && w.queued[i].id == again.id ensures IsLost(w, i) {
      if i > p {
        NoLaterCopy(ids, p, i);
      }
    }
  }

  /** The shortest case: submitted, taken, refused by the database and the outbox, and submitted again: both
      submissions are acknowledged, and nothing of them is left. */
  lemma AcknowledgedAndLost<T>(maxQueueSize: nat, batchSize: nat, item: Item<T>)
    requires item.valid && maxQueueSize > 0 && batchSize > 0
    ensures var run := [Submit(item), Take, Flush(false), Submit(item)];
            && Possible(maxQueueSize, batchSize, Idle(), run)
            && var w := After(maxQueueSize, batchSize, Idle(), run);
               w.acknowledged == [item.id, item.id] && !Waits(w, item.id) && !IsStored(w, item.id)
  {
    var w0: Writer<T> := Idle();
    var w1 := Apply(maxQueueSize, batchSize, w0, Submit(item));
    assert w1 == Writer([item], [], false, [], [], [item], [item.id]);
    var w2 := Apply(maxQueueSize, batchSize, w1, Take);
    assert w2 == Writer([], [item], false, [], [], [item], [item.id]);
    var w3 := Apply(maxQueueSize, batchSize, w2, Flush(false));
    assert w3 == Writer([], [], false, [item], [false], [item], [item.id]);
    assert IdsOf(w3.queued) == [item.id] && Recent([item.id]) == [item.id];
    var w4 := Apply(maxQueueSize, batchSize, w3, Submit(item));
    assert w4 == w3.(acknowledged := [item.id, item.id]);
    FirstAction(maxQueueSize, batchSize, w3, Submit(item), []);
    FirstAction(maxQueueSize, batchSize, w2, Flush(false), [Submit(item)]);
    FirstAction(maxQueueSize, batchSize, w1, Take, [Flush(false)] + [Submit(item)]);
    FirstAction(maxQueueSize, batchSize, w0, Submit(item), [Take] + ([Flush(false)] + [Submit(item)]));
    assert [Submit(item)] + ([Take] + ([Flush(false)] + [Submit(item)]))
        == [Submit(item), Take, Flush(false), Submit(item)];
    AppendNothing([Submit(item)]);
  }

  lemma FirstAction<T>(maxQueueSize: nat, batchSize: nat, w: Writer<T>, a: Action<T>, rest: seq<Action<T>>)
    requires Enabled(w, a) && Possible(maxQueueSize, batchSize, Apply(maxQueueSize, batchSize, w, a), rest)
    ensures Possible(maxQueueSize, batchSize, w, [a] + rest)
    ensures After(maxQueueSize, batchSize, w, [a] + rest)
         == After(maxQueueSize, batchSize, Apply(maxQueueSize, batchSize, w, a), rest)
  {
    SplitAppend([a], rest);
  }
}
