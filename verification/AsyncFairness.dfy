/** What round-robin batching promises a region: order, fairness, and exactly when nobody starves. */
module AsyncFairness {
  import opened AsyncQueue
  import opened Sequences

  // ---------------------------------------------------------------- one round

  ghost predicate Below(low: Region, qs: seq<Partition>) {
    forall i :: 0 <= i < |qs| ==> Less(low, qs[i].region)
  }

  lemma BelowTail(low: Region, qs: seq<Partition>)
    requires Below(low, qs) && qs != []
    ensures Below(low, qs[1..])
  {
  }

  lemma {:induction false} TailsKeepOrder(qs: seq<Partition>)
    requires WellFormed(qs)
    ensures WellFormed(Tails(qs))
    ensures forall low :: Below(low, qs) ==> Below(low, Tails(qs))
    decreases |qs|
  {
    if qs != [] {
      WellFormedTail(qs);
      TailsKeepOrder(qs[1..]);
      var rest, p := qs[0].messages[1..], qs[0];
      if |p.messages| > 1 {
        assert forall k :: 0 <= k < |rest| ==> rest[k] == p.messages[k + 1];
        assert Below(p.region, qs[1..]);
        WellFormedCons(Partition(p.region, rest), Tails(qs[1..]));
      }
      forall low | Below(low, qs) ensures Below(low, Tails(qs)) {
        BelowTail(low, qs);
      }
    }
  }

  lemma HeadsOfRegion(qs: seq<Partition>, r: Region)
    requires WellFormed(qs) && qs != []
    ensures OfRegion(Heads(qs), r)
         == (if qs[0].region == r then [qs[0].messages[0]] else []) + OfRegion(Heads(qs[1..]), r)
  {
    TailOfCons(qs[0].messages[0], Heads(qs[1..]));
  }

  lemma TailsOfRegion(qs: seq<Partition>, r: Region)
    requires WellFormed(qs) && qs != []
    ensures Waiting(Tails(qs), r)
         == if qs[0].region == r && |qs[0].messages| > 1 then qs[0].messages[1..] else Waiting(Tails(qs[1..]), r)
  {
    if |qs[0].messages| > 1 {
      TailOfCons(Partition(qs[0].region, qs[0].messages[1..]), Tails(qs[1..]));
    }
  }

  /** A round takes the oldest message of a region and leaves the others. */
  lemma {:induction false} RoundOfRegion(qs: seq<Partition>, r: Region)
    requires WellFormed(qs)
    ensures OfRegion(Heads(qs), r) + Waiting(Tails(qs), r) == Waiting(qs, r)
    ensures |OfRegion(Heads(qs), r)| == if Waiting(qs, r) == [] then 0 else 1
    decreases |qs|, 1
  {
    if qs != [] {
      WellFormedTail(qs);
      HeadsOfRegion(qs, r);
      TailsOfRegion(qs, r);
      if qs[0].region == r {
        FirstOfRegion(qs);
        FirstAndRest(qs[0].messages);
      } else {
        RoundOfRegion(qs[1..], r);
        AppendNothing(OfRegion(Heads(qs[1..]), r));
      }
    }
  }

  lemma FirstOfRegion(qs: seq<Partition>)
    requires WellFormed(qs) && qs != []
    ensures Waiting(qs[1..], qs[0].region) == [] && Waiting(Tails(qs[1..]), qs[0].region) == []
    ensures OfRegion(Heads(qs[1..]), qs[0].region) == []
    decreases |qs|, 0
  {
    WellFormedTail(qs);
    AboveIsAbsent(qs[1..], qs[0].region);
    TailsKeepOrder(qs[1..]);
    assert Below(qs[0].region, qs[1..]);
    AboveIsAbsent(Tails(qs[1..]), qs[0].region);
    RoundOfRegion(qs[1..], qs[0].region);
  }

  // ---------------------------------------------------------------- how much a region gets

  /** How many of a region's messages are among the first `n` in round-robin order. */
  function Served(qs: seq<Partition>, n: nat, r: Region): nat
    requires NoneEmpty(qs) && n <= |RoundRobin(qs)|
  {
    |OfRegion(RoundRobin(qs)[..n], r)|
  }

  lemma TakeBeyond<T>(a: seq<T>, b: seq<T>, n: nat)
    requires n <= |a| + |b|
    ensures n <= |a| ==> (a + b)[..n] == a[..n]
    ensures n >= |a| ==> (a + b)[..n] == a + b[..n - |a|]
  {
  }

  /** A batch within the first round. */
  lemma ServedInFirstRound(qs: seq<Partition>, n: nat, r: Region)
    requires NoneEmpty(qs) && qs != [] && n <= |qs| && n <= |RoundRobin(qs)|
    ensures n <= |Heads(qs)| && Served(qs, n, r) == |OfRegion(Heads(qs)[..n], r)|
  {
    HeadsLength(qs);
    TakeBeyond(Heads(qs), RoundRobin(Tails(qs)), n);
  }

  lemma BeyondFirstRound(qs: seq<Partition>, n: nat)
    requires NoneEmpty(qs) && qs != [] && |qs| <= n <= |RoundRobin(qs)|
    ensures n - |qs| <= |RoundRobin(Tails(qs))|
    ensures RoundRobin(qs)[..n] == Heads(qs) + RoundRobin(Tails(qs))[..n - |qs|]
  {
    HeadsLength(qs);
    TakeBeyond(Heads(qs), RoundRobin(Tails(qs)), n);
  }

  lemma HeadsCount(qs: seq<Partition>, r: Region)
    requires WellFormed(qs)
    ensures |OfRegion(Heads(qs), r)| == if Waiting(qs, r) == [] then 0 else 1
  {
    RoundOfRegion(qs, r);
  }

  /** A batch that goes beyond the first round. */
  lemma ServedBeyond(qs: seq<Partition>, n: nat, r: Region)
    requires WellFormed(qs) && qs != [] && |qs| <= n <= |RoundRobin(qs)|
    ensures n - |qs| <= |RoundRobin(Tails(qs))|
    ensures Served(qs, n, r) == (if Waiting(qs, r) == [] then 0 else 1) + Served(Tails(qs), n - |qs|, r)
  {
    BeyondFirstRound(qs, n);
    OfRegionAppends(Heads(qs), RoundRobin(Tails(qs))[..n - |qs|], r);
    HeadsCount(qs, r);
  }

  lemma {:induction false} HeadsServeOnce(qs: seq<Partition>, n: nat, r: Region)
    requires WellFormed(qs) && n <= |Heads(qs)|
    ensures |OfRegion(Heads(qs)[..n], r)| <= if Waiting(qs, r) == [] then 0 else 1
  {
    var heads := Heads(qs);
    assert heads == heads[..n] + heads[n..];
    OfRegionAppends(heads[..n], heads[n..], r);
    RoundOfRegion(qs, r);
  }

  /** What a region gets in a full round: one message, if any waits. */
  function Share(qs: seq<Partition>, r: Region): nat { if Waiting(qs, r) == [] then 0 else 1 }

  lemma RoundGives(qs: seq<Partition>, n: nat, r: Region)
    requires WellFormed(qs) && qs != [] && |qs| <= n <= |RoundRobin(qs)|
    ensures n - |qs| <= |RoundRobin(Tails(qs))|
    ensures Served(qs, n, r) == Share(qs, r) + Served(Tails(qs), n - |qs|, r)
    ensures |Waiting(qs, r)| == Share(qs, r) + |Waiting(Tails(qs), r)|
  {
    ServedBeyond(qs, n, r);
    RoundOfRegion(qs, r);
  }

  /** Fairness: whoever has messages left in the queue got at most one message less than anybody. */
  lemma {:induction false} NobodyIsTwoBehind(qs: seq<Partition>, n: nat, a: Region, b: Region)
    requires WellFormed(qs) && n <= |RoundRobin(qs)|
    requires Served(qs, n, a) < |Waiting(qs, a)|
    ensures Served(qs, n, b) <= Served(qs, n, a) + 1
    decreases n
  {
    if qs != [] {
      HeadsLength(qs);
      if n < |qs| {
        ServedInFirstRound(qs, n, b);
        HeadsServeOnce(qs, n, b);
      } else {
        RoundGives(qs, n, a);
        RoundGives(qs, n, b);
        TailsKeepOrder(qs);
        NobodyIsTwoBehind(Tails(qs), n - |qs|, a, b);
      }
    }
  }

  lemma HeadsPrefix(qs: seq<Partition>, n: nat, r: Region)
    requires WellFormed(qs) && qs != [] && 0 < n <= |Heads(qs)|
    ensures n - 1 <= |Heads(qs[1..])|
    ensures OfRegion(Heads(qs)[..n], r)
         == (if qs[0].region == r then [qs[0].messages[0]] else []) + OfRegion(Heads(qs[1..])[..n - 1], r)
  {
    var m, heads := qs[0].messages[0], Heads(qs[1..]);
    assert Heads(qs)[..n] == [m] + heads[..n - 1];
    OfRegionAppends([m], heads[..n - 1], r);
    OneOfRegion(m, r);
  }

  lemma LaterEntry(qs: seq<Partition>, i: nat)
    requires WellFormed(qs) && 0 < i < |qs|
    ensures qs[0].region != qs[i].region && qs[1..][i - 1] == qs[i] && WellFormed(qs[1..])
  {
    assert Less(qs[0].region, qs[i].region);
    LessIsIrreflexive(qs[i].region);
  }

  lemma {:induction false} HeadOfEntry(qs: seq<Partition>, n: nat, i: nat, r: Region)
    requires WellFormed(qs) && i < |qs| && qs[i].region == r && n <= |Heads(qs)|
    ensures (OfRegion(Heads(qs)[..n], r) != []) == (i < n)
    decreases |qs|
  {
    if n > 0 {
      HeadsPrefix(qs, n, r);
      if i > 0 {
        LaterEntry(qs, i);
        AppendNothing(OfRegion(Heads(qs[1..])[..n - 1], r));
        HeadOfEntry(qs[1..], n - 1, i - 1, r);
      }
    }
  }

  /** The region at position `i` of the map is served exactly when the batch has more than `i`
      messages. */
  lemma WhoIsServed(qs: seq<Partition>, n: nat, i: nat)
    requires WellFormed(qs) && i < |qs| && n <= |RoundRobin(qs)|
    ensures Served(qs, n, qs[i].region) >= 1 <==> i < n
  {
    HeadsLength(qs);
    if n < |qs| {
      ServedInFirstRound(qs, n, qs[i].region);
      HeadOfEntry(qs, n, i, qs[i].region);
    } else {
      ServedBeyond(qs, n, qs[i].region);
      RoundOfRegion(qs, qs[i].region);
      HeadOfEntry(qs, |qs|, i, qs[i].region);
      WholeSlice(Heads(qs));
    }
  }

  lemma {:induction false} EntriesAreFew(qs: seq<Partition>)
    requires NoneEmpty(qs)
    ensures |qs| <= Total(qs)
  {
    if qs != [] {
      EntriesAreFew(qs[1..]);
    }
  }

  // ---------------------------------------------------------------- what a batch promises

  /** In a batch, a region's messages come in order from the front of its queue, and fairness holds. */
  lemma BatchIsFair(before: seq<Partition>, size: nat, batch: seq<Message>, after: seq<Partition>, a: Region, b: Region)
    requires WellFormed(before) && DequeueSpec(before, size, batch, after)
    ensures OfRegion(batch, a) <= Waiting(before, a)
    ensures Waiting(after, a) != [] ==> |OfRegion(batch, b)| <= |OfRegion(batch, a)| + 1
  {
    assert OfRegion(batch, a) + Waiting(after, a) == Waiting(before, a);
    if Waiting(after, a) != [] {
      NobodyIsTwoBehind(before, |batch|, a, b);
    }
  }

  /** A batch serves every waiting region exactly when there are no more regions than the batch
      may have messages. */
  lemma NobodyStarvesIff(before: seq<Partition>, size: nat, batch: seq<Message>, after: seq<Partition>)
    requires WellFormed(before) && DequeueSpec(before, size, batch, after)
    ensures (forall i :: 0 <= i < |before| ==> OfRegion(batch, before[i].region) != []) <==> |before| <= size
  {
    EntriesAreFew(before);
    forall i | 0 <= i < |before| ensures OfRegion(batch, before[i].region) != [] <==> i < |batch| {
      WhoIsServed(before, |batch|, i);
    }
    if |before| > size {
      assert OfRegion(batch, before[size].region) == [];
    }
  }
}
