/** The batch writer's intake: a bounded queue behind a bounded first-in, first-out cache of the
    message ids already queued. */
module DedupCache {
  import opened Weather
  import opened Sequences

  const CACHE_LIMIT := 10000

  function SetOf(ids: seq<string>): set<string> {
    set id | id in ids
  }

  /** Equal ids are more than a cache's length apart. */
  ghost predicate Spaced(queued: seq<string>) {
    forall i, j :: 0 <= i < j < |queued| && queued[i] == queued[j] ==> j - i > CACHE_LIMIT
  }

  /** The ids a cache of the last ones holds. */
  function Recent(queued: seq<string>): seq<string> {
    if |queued| <= CACHE_LIMIT then queued else queued[|queued| - CACHE_LIMIT..]
  }

  function Ids(es: seq<Envelope>): (ids: seq<string>)
    ensures |ids| == |es|
  {
    seq(|es|, i requires 0 <= i < |es| => es[i].id)
  }

  lemma {:induction false} DistinctHaveSetSize(ids: seq<string>)
    requires Distinct(ids)
    ensures |SetOf(ids)| == |ids|
    decreases |ids|
  {
    if ids != [] {
      var front, last := ids[..|ids| - 1], ids[|ids| - 1];
      DistinctHaveSetSize(front);
      assert ids == front + [last];
      assert SetOf(ids) == SetOf(front) + {last} && last !in SetOf(front);
    }
  }

  lemma RecentAreDistinct(queued: seq<string>)
    requires Spaced(queued)
    ensures Distinct(Recent(queued)) && |SetOf(Recent(queued))| == |Recent(queued)|
  {
    DistinctHaveSetSize(Recent(queued));
  }

  lemma StaysSpaced(queued: seq<string>, id: string)
    requires Spaced(queued) && id !in Recent(queued)
    ensures Spaced(queued + [id])
  {
  }

  /** Queueing an id: the oldest recent one gives way when there are already enough. */
  lemma QueueOne(queued: seq<string>, id: string)
    ensures Recent(queued + [id])
         == (if |Recent(queued)| >= CACHE_LIMIT then Recent(queued)[1..] else Recent(queued)) + [id]
  {
  }

  lemma SetAfterQueueing(recent: seq<string>, id: string)
    requires Distinct(recent)
    ensures SetOf(recent + [id]) == SetOf(recent) + {id}
    ensures recent != [] ==> SetOf(recent[1..]) == SetOf(recent) - {recent[0]}
  {
  }

  /** The cache's update for a new id: the oldest one leaves a full cache, the new one joins. */
  lemma CacheUpdate(queued: seq<string>, id: string)
    requires Spaced(queued) && id !in Recent(queued)
    ensures var order, seen := Recent(queued), SetOf(Recent(queued));
            var full := |seen| >= CACHE_LIMIT;
            && (full ==> order != [] && order[0] in seen)
            && Spaced(queued + [id])
            && Recent(queued + [id]) == (if full then order[1..] else order) + [id]
            && SetOf(Recent(queued + [id])) == (if full then seen - {order[0]} else seen) + {id}
  {
    var order := Recent(queued);
    RecentAreDistinct(queued);
    QueueOne(queued, id);
    StaysSpaced(queued, id);
    SetAfterQueueing(order, id);
    if |order| >= CACHE_LIMIT {
      SetAfterQueueing(order[1..], id);
    }
  }

  /** The same id is queued a second time only after at least ten thousand others, which are pairwise
      distinct and different from it. */
  lemma RepeatsAreFarApart(queued: seq<string>, i: nat, j: nat)
    requires Spaced(queued) && i < j < |queued| && queued[i] == queued[j]
    ensures j - i - 1 >= 10000
    ensures var between := queued[j - 10000..j];
            Distinct(between) && queued[j] !in between
  {
  }

  /** An id counts as a duplicate exactly when it is one of the last ten thousand queued. */
  lemma DuplicateMeansRecent(queued: seq<string>, id: string)
    ensures id in SetOf(Recent(queued))
       <==> exists i :: 0 <= i < |queued| && i >= |queued| - 10000 && queued[i] == id
  {
  }

  class Intake {
    const maxQueueSize: nat
    const batchSize: nat
    var pending: seq<Envelope>
    var seenIds: set<string>
    var idOrder: seq<string>
    ghost var queued: seq<string>      // every id queued so far, in order
    ghost var taken: seq<Envelope>     // every envelope taken for flushing, in order

    ghost predicate Valid()
      reads this
    {
      && Spaced(queued)
      && idOrder == Recent(queued)
      && seenIds == SetOf(idOrder)
      && queued == Ids(taken) + Ids(pending)
      && |pending| <= maxQueueSize
    }

    constructor (maxQueueSize: nat, batchSize: nat)
      ensures Valid() && pending == [] && queued == [] && taken == []
      ensures this.maxQueueSize == maxQueueSize && this.batchSize == batchSize
    {
      this.maxQueueSize, this.batchSize := maxQueueSize, batchSize;
      pending, seenIds, idOrder := [], {}, [];
      queued, taken := [], [];
    }

    /** Refuses an invalid envelope and anything while the queue is full, leaving everything as it
        was; silently takes a recent duplicate; queues everything else. */
    method Submit(e: Envelope) returns (ok: bool)
      requires Valid()
      modifies this
      ensures Valid() && taken == old(taken)
      ensures ok == (e.packet.Some? && |old(pending)| < maxQueueSize)
      ensures !ok || e.id in old(seenIds) ==>
                pending == old(pending) && seenIds == old(seenIds) && idOrder == old(idOrder) && queued == old(queued)
      ensures ok && e.id !in old(seenIds) ==> pending == old(pending) + [e] && queued == old(queued) + [e.id]
    {
      if e.packet.None? {
        return false;
      }
      if |pending| >= maxQueueSize {
        return false;
      }
      if e.id in seenIds {
        return true;
      }
      CacheUpdate(queued, e.id);
      if |seenIds| >= CACHE_LIMIT {
        if idOrder[0] in seenIds {
          seenIds := seenIds - {idOrder[0]};
        }
        idOrder := idOrder[1..];
      }
      seenIds := seenIds + {e.id};
      idOrder := idOrder + [e.id];
      AppendId(taken, pending, e);
      pending := pending + [e];
      queued := queued + [e.id];
      return true;
    }

    /** The writer thread's loop under the lock: up to `batchSize` envelopes, oldest first. */
    method TakeBatch() returns (batch: seq<Envelope>)
      requires Valid()
      modifies this`pending, this`taken
      ensures Valid()
      ensures batch + pending == old(pending) && taken == old(taken) + batch
      ensures |batch| == if |old(pending)| <= batchSize then |old(pending)| else batchSize
    {
      batch := [];
      AppendNothing(pending);
      while pending != [] && |batch| < batchSize
        invariant batch + pending == old(pending)
        invariant |batch| <= batchSize
        modifies this`pending
        decreases |pending|
      {
        MoveFirst(batch, pending);
        batch := batch + [pending[0]];
        pending := pending[1..];
      }
      MoveIds(taken, batch, pending);
      taken := taken + batch;
    }

    /** The drain after the loop: everything still pending. */
    method FinalBatch() returns (batch: seq<Envelope>)
      requires Valid()
      modifies this`pending, this`taken
      ensures Valid()
      ensures batch == old(pending) && pending == [] && taken == old(taken) + batch
    {
      batch := [];
      AppendNothing(pending);
      while pending != []
        invariant batch + pending == old(pending)
        modifies this`pending
        decreases |pending|
      {
        MoveFirst(batch, pending);
        batch := batch + [pending[0]];
        pending := pending[1..];
      }
      AppendNothing(batch);
      MoveIds(taken, batch, pending);
      taken := taken + batch;
    }
  }

  lemma MoveFirst<T>(done: seq<T>, left: seq<T>)
    requires left != []
    ensures (done + [left[0]]) + left[1..] == done + left
  {
  }

  lemma AppendId(taken: seq<Envelope>, pending: seq<Envelope>, e: Envelope)
    ensures Ids(taken) + Ids(pending + [e]) == Ids(taken) + Ids(pending) + [e.id]
  {
  }

  lemma MoveIds(taken: seq<Envelope>, batch: seq<Envelope>, rest: seq<Envelope>)
    ensures Ids(taken + batch) + Ids(rest) == Ids(taken) + Ids(batch + rest)
  {
  }
}
