/** The batch writer put together: the intake, the tables and the outbox, run as one machine.  What an
    acknowledgement is worth is a question about both ends. */
module BatchWriter {
  import opened Weather
  import opened Aggregation
  import opened BatchWriterRuns
  import opened DedupCache
  import opened Outbox
  import opened Sequences
  import opened Upsert

  function ItemOf(e: Envelope): Item<Envelope> { Item(e.id, e.packet.Some?, e) }

  function ItemsOf(es: seq<Envelope>): (items: seq<Item<Envelope>>)
    ensures |items| == |es|
  {
    seq(|es|, i requires 0 <= i < |es| => ItemOf(es[i]))
  }

  /** Of the envelopes flushed, those of the batches that were stored. */
  function StoredOf(flushed: seq<Item<Envelope>>, stored: seq<bool>): seq<Envelope>
    requires |flushed| == |stored|
  {
    if flushed == [] then []
    else
      var n := |flushed| - 1;
      StoredOf(flushed[..n], stored[..n]) + (if stored[n] then [flushed[n].body] else [])
  }

  lemma {:induction false} SamplesAppend(a: seq<Envelope>, b: seq<Envelope>)
    ensures Samples(a + b) == Samples(a) + Samples(b)
    decreases |b|
  {
    if b == [] {
      AppendNothing(a);
      AppendNothing(Samples(a));
    } else {
      var n := |b| - 1;
      assert (a + b)[..|a + b| - 1] == a + b[..n];
      SamplesAppend(a, b[..n]);
      Associate(Samples(a), Samples(b[..n]), if b[n].packet.Some? then [SampleOf(b[n])] else []);
    }
  }

  /** A batch more, stored or not. */
  lemma {:induction false} StoredAppends(flushed: seq<Item<Envelope>>, stored: seq<bool>, batch: seq<Envelope>,
      kept: bool)
    requires |flushed| == |stored|
    ensures StoredOf(flushed + ItemsOf(batch), stored + Repeat(kept, |batch|))
         == StoredOf(flushed, stored) + (if kept then batch else [])
    decreases |batch|
  {
    if batch == [] {
      AppendNothing(flushed);
      AppendNothing(stored);
      AppendNothing(StoredOf(flushed, stored));
    } else {
      var n := |batch| - 1;
      var all, marks := flushed + ItemsOf(batch), stored + Repeat(kept, |batch|);
      StoredAppends(flushed, stored, batch[..n], kept);
      assert all[..|all| - 1] == flushed + ItemsOf(batch[..n]) && marks[..|marks| - 1] == stored + Repeat(kept, n);
      assert all[|all| - 1] == ItemOf(batch[n]) && marks[|marks| - 1] == kept;
      LastOfBatch(StoredOf(flushed, stored), batch, kept);
    }
  }

  lemma LastOfBatch(before: seq<Envelope>, batch: seq<Envelope>, kept: bool)
    requires batch != []
    ensures var n := |batch| - 1;
            before + (if kept then batch[..n] else []) + (if kept then [batch[n]] else [])
            == before + (if kept then batch else [])
  {
    NextPrefix(batch, |batch| - 1);
    WholeSlice(batch);
    AppendNothing(before);
  }

  // ---------------------------------------------------------------- the machine's state and the objects'

  /** Every item is made of its envelope, and the envelope's packet is valid. */
  predicate AllValid(items: seq<Item<Envelope>>) {
    forall i :: 0 <= i < |items| ==> items[i] == ItemOf(items[i].body) && items[i].valid
  }

  /** Between two rounds of the thread. */
  ghost predicate Agrees(maxQueueSize: nat, w: Writer<Envelope>, pending: seq<Envelope>, queued: seq<string>,
      recorded: seq<Sample>) {
    && Inv(maxQueueSize, w) && w.flushing == [] && AllValid(w.queued)
    && w.pending == ItemsOf(pending) && IdsOf(w.queued) == queued
    && recorded == Samples(StoredOf(w.flushed, w.stored))
  }

  /** One round of the thread: a batch is taken and, if there is one, flushed. */
  function Round(maxQueueSize: nat, batchSize: nat, w: Writer<Envelope>, kept: bool): Writer<Envelope>
    requires Enabled(w, Take)
  {
    var t := Apply(maxQueueSize, batchSize, w, Take);
    if t.flushing == [] then t else Apply(maxQueueSize, batchSize, t, Action.Flush(kept))
  }

  /** The end of the thread: what is pending is taken and flushed. */
  function Ending(maxQueueSize: nat, batchSize: nat, w: Writer<Envelope>, kept: bool): Writer<Envelope>
    requires Enabled(w, Exit)
  {
    var t := Apply(maxQueueSize, batchSize, w, Exit);
    if t.flushing == [] then t else Apply(maxQueueSize, batchSize, t, Action.Flush(kept))
  }

  lemma SubmitAgrees(maxQueueSize: nat, batchSize: nat, w: Writer<Envelope>, pending: seq<Envelope>,
      queued: seq<string>, recorded: seq<Sample>, e: Envelope)
    requires Agrees(maxQueueSize, w, pending, queued, recorded)
    ensures var outcome, after := OutcomeOf(maxQueueSize, w, ItemOf(e)),
              Apply(maxQueueSize, batchSize, w, Submit(ItemOf(e)));
            if outcome == Queued then Agrees(maxQueueSize, after, pending + [e], queued + [e.id], recorded)
            else Agrees(maxQueueSize, after, pending, queued, recorded)
  {
    SubmitKeepsInv(maxQueueSize, batchSize, w, ItemOf(e));
    IdsOfOneMore(w.queued, ItemOf(e));
    assert ItemsOf(pending + [e]) == ItemsOf(pending) + [ItemOf(e)];
  }

  function Flushed(w: Writer<Envelope>, batch: seq<Envelope>, rest: seq<Envelope>, kept: bool, exited: bool)
      : Writer<Envelope> {
    w.(pending := ItemsOf(rest), flushed := w.flushed + ItemsOf(batch), stored := w.stored + Repeat(kept, |batch|),
       exited := exited)
  }

  lemma MoveToFlushed<T>(flushed: seq<T>, batch: seq<T>, rest: seq<T>)
    ensures flushed + batch + [] + rest == flushed + [] + (batch + rest)
  {
  }

  lemma ItemsAppend(a: seq<Envelope>, b: seq<Envelope>)
    ensures ItemsOf(a + b) == ItemsOf(a) + ItemsOf(b)
  {
    assert ItemsOf(a + b) == ItemsOf(a) + ItemsOf(b);
  }

  lemma RecordedAfter(flushed: seq<Item<Envelope>>, stored: seq<bool>, batch: seq<Envelope>, kept: bool)
    requires |flushed| == |stored|
    ensures var before := Samples(StoredOf(flushed, stored));
            Samples(StoredOf(flushed + ItemsOf(batch), stored + Repeat(kept, |batch|)))
            == before + (if kept then Samples(batch) else [])
  {
    StoredAppends(flushed, stored, batch, kept);
    SamplesAppend(StoredOf(flushed, stored), batch);
    AppendNothing(StoredOf(flushed, stored));
    AppendNothing(Samples(StoredOf(flushed, stored)));
  }

  /** A batch left the front of the queue and was flushed. */
  lemma FlushAgrees(maxQueueSize: nat, w: Writer<Envelope>, batch: seq<Envelope>, rest: seq<Envelope>,
      queued: seq<string>, recorded: seq<Sample>, kept: bool, exited: bool)
    requires Agrees(maxQueueSize, w, batch + rest, queued, recorded)
    ensures Agrees(maxQueueSize, Flushed(w, batch, rest, kept, exited), rest, queued,
                   recorded + (if kept then Samples(batch) else []))
  {
    ItemsAppend(batch, rest);
    MoveToFlushed(w.flushed, ItemsOf(batch), ItemsOf(rest));
    RecordedAfter(w.flushed, w.stored, batch, kept);
  }

  lemma RoundIsFlush(maxQueueSize: nat, batchSize: nat, w: Writer<Envelope>, batch: seq<Envelope>,
      rest: seq<Envelope>, kept: bool)
    requires w.pending == ItemsOf(batch + rest) && w.flushing == [] && !w.exited
    requires |batch| == if |batch + rest| <= batchSize then |batch + rest| else batchSize
    ensures Round(maxQueueSize, batchSize, w, kept) == Flushed(w, batch, rest, kept, false)
  {
    ItemsAppend(batch, rest);
    SplitAppend(ItemsOf(batch), ItemsOf(rest));
    AppendNothing(w.flushed);
    AppendNothing(w.stored);
  }

  lemma EndingIsFlush(maxQueueSize: nat, batchSize: nat, w: Writer<Envelope>, batch: seq<Envelope>, kept: bool)
    requires w.pending == ItemsOf(batch) && w.flushing == [] && !w.exited
    ensures Ending(maxQueueSize, batchSize, w, kept) == Flushed(w, batch, [], kept, true)
  {
    AppendNothing(w.flushed);
    AppendNothing(w.stored);
  }

  lemma RoundAgrees(maxQueueSize: nat, batchSize: nat, w: Writer<Envelope>, batch: seq<Envelope>,
      rest: seq<Envelope>, queued: seq<string>, recorded: seq<Sample>, kept: bool)
    requires Agrees(maxQueueSize, w, batch + rest, queued, recorded) && !w.exited
    requires |batch| == if |batch + rest| <= batchSize then |batch + rest| else batchSize
    ensures Agrees(maxQueueSize, Round(maxQueueSize, batchSize, w, kept), rest, queued,
                   recorded + (if kept then Samples(batch) else []))
  {
    FlushAgrees(maxQueueSize, w, batch, rest, queued, recorded, kept, false);
    RoundIsFlush(maxQueueSize, batchSize, w, batch, rest, kept);
  }

  lemma EndingAgrees(maxQueueSize: nat, batchSize: nat, w: Writer<Envelope>, batch: seq<Envelope>,
      queued: seq<string>, recorded: seq<Sample>, kept: bool)
    requires Agrees(maxQueueSize, w, batch, queued, recorded) && !w.exited
    ensures var after := Ending(maxQueueSize, batchSize, w, kept);
            && Agrees(maxQueueSize, after, [], queued, recorded + (if kept then Samples(batch) else []))
            && after.exited && after.pending == []
  {
    AppendNothing(batch);
    FlushAgrees(maxQueueSize, w, batch, [], queued, recorded, kept, true);
    EndingIsFlush(maxQueueSize, batchSize, w, batch, kept);
  }

  // ---------------------------------------------------------------- the writer

  class TimescaleBatchWriter {
    const intake: Intake
    const outbox: OutboxWriter
    /** The machine's state that the objects stand for. */
    ghost var state: Writer<Envelope>

    ghost predicate Valid()
      reads this, intake, outbox
    {
      && intake.Valid() && outbox.Valid()
      && Agrees(intake.maxQueueSize, state, intake.pending, intake.queued, outbox.recorded)
    }

    constructor (maxQueueSize: nat, batchSize: nat)
      ensures Valid() && fresh(intake) && fresh(outbox) && state == Idle()
      ensures intake.maxQueueSize == maxQueueSize && intake.batchSize == batchSize
    {
      intake := new Intake(maxQueueSize, batchSize);
      outbox := new OutboxWriter();
      state := Idle();
      new;
      IdleInv<Envelope>(maxQueueSize);
    }

    method Submit(e: Envelope) returns (ok: bool)
      requires Valid()
      modifies this, intake
      ensures Valid() && ok == (OutcomeOf(intake.maxQueueSize, old(state), ItemOf(e)) != Refused)
      ensures state == Apply(intake.maxQueueSize, intake.batchSize, old(state), BatchWriterRuns.Submit(ItemOf(e)))
    {
      SubmitAgrees(intake.maxQueueSize, intake.batchSize, state, intake.pending, intake.queued, outbox.recorded, e);
      ok := intake.Submit(e);
      state := Apply(intake.maxQueueSize, intake.batchSize, state, BatchWriterRuns.Submit(ItemOf(e)));
    }

    /** A batch is flushed, unless it is empty. */
    method FlushBatch(batch: seq<Envelope>, committed: bool, answered: bool, opens: bool)
      requires outbox.Valid() && (answered ==> committed)
      modifies outbox
      ensures outbox.Valid()
      ensures outbox.recorded
           == old(outbox.recorded) + (if committed || opens then Samples(batch) else [])
    {
      AppendNothing(outbox.recorded);
      if batch == [] {
        return;
      }
      var f := outbox.FlushBatch(batch, committed, answered, opens);
    }

    /** One round of the thread's loop. */
    method RunOnce(committed: bool, answered: bool, opens: bool)
      requires Valid() && !state.exited && (answered ==> committed)
      modifies this, intake, outbox
      ensures Valid()
      ensures state == Round(intake.maxQueueSize, intake.batchSize, old(state), committed || opens)
    {
      var batch := intake.TakeBatch();
      RoundAgrees(intake.maxQueueSize, intake.batchSize, state, batch, intake.pending, intake.queued, outbox.recorded,
                  committed || opens);
      FlushBatch(batch, committed, answered, opens);
      state := Round(intake.maxQueueSize, intake.batchSize, state, committed || opens);
    }

    /** What the thread does after its loop. */
    method Finish(committed: bool, answered: bool, opens: bool)
      requires Valid() && !state.exited && (answered ==> committed)
      modifies this, intake, outbox
      ensures Valid() && state.exited && state.pending == []
      ensures state == Ending(intake.maxQueueSize, intake.batchSize, old(state), committed || opens)
    {
      var batch := intake.FinalBatch();
      EndingAgrees(intake.maxQueueSize, intake.batchSize, state, batch, intake.queued, outbox.recorded,
                   committed || opens);
      FlushBatch(batch, committed, answered, opens);
      state := Ending(intake.maxQueueSize, intake.batchSize, state, committed || opens);
    }

    method ReplayOutbox(count: nat, emptied: bool)
      requires Valid() && count <= |outbox.outbox|
      modifies outbox
      ensures Valid() && outbox.recorded == old(outbox.recorded)
      ensures outbox.db == ExecuteAll(old(outbox.db), old(outbox.outbox)[..count])
      ensures outbox.outbox == if count == |old(outbox.outbox)| && emptied then [] else old(outbox.outbox)
    {
      outbox.ReplayOutbox(count, emptied);
    }
  }

  // ---------------------------------------------------------------- what an acknowledgement is worth

  predicate IsPending(pending: seq<Envelope>, id: string) { exists i :: 0 <= i < |pending| && pending[i].id == id }

  ghost predicate IsRecorded(recorded: seq<Sample>, id: string) { exists s :: s in recorded && s.id == id }

  predicate AnyStored(flushed: seq<Item<Envelope>>, stored: seq<bool>, id: string)
    requires |flushed| == |stored|
  {
    exists i :: 0 <= i < |flushed| && stored[i] && flushed[i].id == id
  }

  lemma RecordedOfOneMore(samples: seq<Sample>, s: Sample, id: string)
    ensures IsRecorded(samples + [s], id) <==> IsRecorded(samples, id) || s.id == id
  {
    if s.id == id {
      assert s in samples + [s];
    }
    if x :| x in samples && x.id == id {
      assert x in samples + [s];
    }
  }

  lemma PendingOfOneMore(es: seq<Envelope>, e: Envelope, id: string)
    ensures IsPending(es + [e], id) <==> IsPending(es, id) || e.id == id
  {
    if i :| 0 <= i < |es| && es[i].id == id {
      assert (es + [e])[i] == es[i];
    }
    if e.id == id {
      assert (es + [e])[|es|] == e;
    }
  }

  lemma StoredOfOneMore(flushed: seq<Item<Envelope>>, stored: seq<bool>, id: string)
    requires |flushed| == |stored| > 0
    ensures var n := |flushed| - 1;
            AnyStored(flushed, stored, id)
            <==> AnyStored(flushed[..n], stored[..n], id) || (stored[n] && flushed[n].id == id)
  {
    var n := |flushed| - 1;
    if i :| 0 <= i < n && stored[i] && flushed[i].id == id {
      assert stored[..n][i] && flushed[..n][i].id == id;
    }
  }

  lemma {:induction false} IdsOfSamples(es: seq<Envelope>, id: string)
    requires forall i :: 0 <= i < |es| ==> es[i].packet.Some?
    ensures IsRecorded(Samples(es), id) <==> IsPending(es, id)
    decreases |es|
  {
    if es != [] {
      var n := |es| - 1;
      IdsOfSamples(es[..n], id);
      RecordedOfOneMore(Samples(es[..n]), SampleOf(es[n]), id);
      PendingOfOneMore(es[..n], es[n], id);
      NextPrefix(es, n);
      WholeSlice(es);
    }
  }

  lemma {:induction false} StoredAreValid(flushed: seq<Item<Envelope>>, stored: seq<bool>)
    requires |flushed| == |stored| && AllValid(flushed)
    ensures forall i :: 0 <= i < |StoredOf(flushed, stored)| ==> StoredOf(flushed, stored)[i].packet.Some?
    decreases |flushed|
  {
    if flushed != [] {
      StoredAreValid(flushed[..|flushed| - 1], stored[..|flushed| - 1]);
    }
  }

  lemma {:induction false} StoredMembers(flushed: seq<Item<Envelope>>, stored: seq<bool>, id: string)
    requires |flushed| == |stored| && AllValid(flushed)
    ensures IsPending(StoredOf(flushed, stored), id) <==> AnyStored(flushed, stored, id)
    decreases |flushed|
  {
    if flushed != [] {
      var n := |flushed| - 1;
      StoredMembers(flushed[..n], stored[..n], id);
      StoredOfOneMore(flushed, stored, id);
      AppendNothing(StoredOf(flushed[..n], stored[..n]));
      PendingOfOneMore(StoredOf(flushed[..n], stored[..n]), flushed[n].body, id);
    }
  }

  lemma PendingWaits(w: Writer<Envelope>, pending: seq<Envelope>, id: string)
    requires w.pending == ItemsOf(pending) && w.flushing == []
    ensures IsPending(pending, id) <==> Waits(w, id)
  {
    var ids := IdsOf(w.pending);
    assert forall i :: 0 <= i < |pending| ==> ids[i] == pending[i].id;
    if i :| 0 <= i < |pending| && pending[i].id == id {
      assert ids[i] == id;
    }
    if id in ids {
      var i: nat :| i < |ids| && ids[i] == id;
      assert pending[i].id == id;
    }
  }

  lemma RecordedIsStored(maxQueueSize: nat, w: Writer<Envelope>, pending: seq<Envelope>, queued: seq<string>,
      recorded: seq<Sample>, id: string)
    requires Agrees(maxQueueSize, w, pending, queued, recorded)
    ensures IsRecorded(recorded, id) <==> IsStored(w, id)
  {
    assert forall i :: 0 <= i < |w.flushed| ==> w.flushed[i] == w.queued[i];
    StoredMembers(w.flushed, w.stored, id);
    StoredAreValid(w.flushed, w.stored);
    IdsOfSamples(StoredOf(w.flushed, w.stored), id);
  }

  /** Of the batch writer as a whole, between two rounds: an id is pending or recorded exactly when one of its
      queued copies was not in a batch that the database and the outbox both refused; only acknowledged ids
      are; and an acknowledged id of which every copy was in such a batch is neither. */
  lemma AcknowledgedIsKeptIff(writer: TimescaleBatchWriter, id: string)
    requires writer.Valid()
    ensures IsPending(writer.intake.pending, id) || IsRecorded(writer.outbox.recorded, id)
       <==> HasCopy(writer.state, id)
    ensures id in writer.state.acknowledged <==> id in writer.intake.queued
    ensures HasCopy(writer.state, id) ==> id in writer.state.acknowledged
  {
    var max := writer.intake.maxQueueSize;
    PendingWaits(writer.state, writer.intake.pending, id);
    RecordedIsStored(max, writer.state, writer.intake.pending, writer.intake.queued, writer.outbox.recorded, id);
    SafeIff(max, writer.state, id);
  }
}
