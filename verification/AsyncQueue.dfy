/** The asynchronous writer's bounded queue: messages partitioned by region, batches taken
    round-robin, back-pressure and the final drain. */
module AsyncQueue {
  import opened Numbers
  import opened Sequences
  import opened Wrappers

  type Region = string

  /** What the queue looks at in an envelope: the payload's region if it has one, and the source. */
  datatype Message = Message(id: string, source: string, payloadRegion: Option<Region>, body: int)

  function RegionOf(m: Message): Region {
    match m.payloadRegion
    case Some(region) => region
    case None => m.source
  }

  /** One entry of the map from regions to deques. */
  datatype Partition = Partition(region: Region, messages: seq<Message>)

  // ---------------------------------------------------------------- the order of map keys

  /** Lexicographic order of strings. */
  predicate Less(a: string, b: string) {
    if b == [] then false
    else if a == [] then true
    else a[0] < b[0] || (a[0] == b[0] && Less(a[1..], b[1..]))
  }

  lemma {:induction false} LessIsTotal(a: string, b: string)
    ensures Less(a, b) || a == b || Less(b, a)
  {
    if a != [] && b != [] && a[0] == b[0] {
      LessIsTotal(a[1..], b[1..]);
      assert a == [a[0]] + a[1..] && b == [b[0]] + b[1..];
    }
  }

  lemma {:induction false} LessIsTransitive(a: string, b: string, c: string)
    requires Less(a, b) && Less(b, c)
    ensures Less(a, c)
  {
    if a != [] && a[0] == b[0] && b[0] == c[0] {
      LessIsTransitive(a[1..], b[1..], c[1..]);
    }
  }

  lemma {:induction false} LessIsIrreflexive(a: string)
    ensures !Less(a, a)
  {
    if a != [] {
      LessIsIrreflexive(a[1..]);
    }
  }

  /** Two strings agree up to a position where one ends or has the smaller character. */
  predicate SplitsAt(a: string, b: string, n: nat) {
    n <= |a| && n < |b| && a[..n] == b[..n] && (n == |a| || a[n] < b[n])
  }

  /** A string is less than another one exactly when it is a part of its beginning or has the smaller
      character where they first differ. */
  lemma {:induction false} LessMeaning(a: string, b: string)
    ensures Less(a, b) <==> exists n: nat :: SplitsAt(a, b, n)
    decreases |a|
  {
    if a == [] || b == [] || a[0] != b[0] {
      assert Less(a, b) ==> SplitsAt(a, b, 0);
    } else {
      LessMeaning(a[1..], b[1..]);
      if Less(a, b) {
        var n: nat :| SplitsAt(a[1..], b[1..], n);
        assert a[..n + 1] == [a[0]] + a[1..][..n] && b[..n + 1] == [b[0]] + b[1..][..n];
        assert SplitsAt(a, b, n + 1);
      }
      forall n: nat | SplitsAt(a, b, n) ensures Less(a, b) {
        SplitsLater(a, b, n);
      }
    }
  }

  lemma SplitsLater(a: string, b: string, n: nat)
    requires SplitsAt(a, b, n) && a != [] && b != [] && a[0] == b[0]
    ensures n > 0 && SplitsAt(a[1..], b[1..], n - 1)
  {
    assert a[1..][..n - 1] == a[..n][1..] && b[1..][..n - 1] == b[..n][1..];
  }

  /** The map's entries: keys in increasing order, no deque empty, every message in its region. */
  ghost predicate WellFormed(qs: seq<Partition>) {
    && (forall i, j :: 0 <= i < j < |qs| ==> Less(qs[i].region, qs[j].region))
    && (forall i :: 0 <= i < |qs| ==> qs[i].messages != [])
    && (forall i, k :: 0 <= i < |qs| && 0 <= k < |qs[i].messages| ==> RegionOf(qs[i].messages[k]) == qs[i].region)
  }

  // ---------------------------------------------------------------- what the map holds

  function Total(qs: seq<Partition>): nat {
    if qs == [] then 0 else |qs[0].messages| + Total(qs[1..])
  }

  /** The messages waiting for a region, oldest first. */
  function Waiting(qs: seq<Partition>, region: Region): seq<Message> {
    if qs == [] then []
    else if qs[0].region == region then qs[0].messages
    else Waiting(qs[1..], region)
  }

  /** The messages of a region in a list of messages. */
  function OfRegion(ms: seq<Message>, region: Region): seq<Message> {
    if ms == [] then []
    else (if RegionOf(ms[0]) == region then [ms[0]] else []) + OfRegion(ms[1..], region)
  }

  /** A message belongs where its payload's region says, and to its source if that says nothing. */
  predicate Belongs(m: Message, region: Region) {
    m.payloadRegion == Some(region) || (m.payloadRegion.None? && m.source == region)
  }

  /** The messages of a region are those that belong there. */
  lemma {:induction false} OfRegionMeaning(ms: seq<Message>, region: Region, m: Message)
    ensures m in OfRegion(ms, region) <==> m in ms && Belongs(m, region)
    decreases |ms|
  {
    if ms != [] {
      OfRegionMeaning(ms[1..], region, m);
      assert ms == [ms[0]] + ms[1..];
    }
  }

  /** What waits for a region belongs there. */
  lemma {:induction false} WaitingBelongs(qs: seq<Partition>, region: Region, m: Message)
    requires WellFormed(qs) && m in Waiting(qs, region)
    ensures Belongs(m, region)
    decreases |qs|
  {
    if qs[0].region != region {
      WaitingBelongs(qs[1..], region, m);
    } else {
      var k :| 0 <= k < |qs[0].messages| && qs[0].messages[k] == m;
    }
  }

  lemma {:induction false} OfRegionAppends(a: seq<Message>, b: seq<Message>, region: Region)
    ensures OfRegion(a + b, region) == OfRegion(a, region) + OfRegion(b, region)
    decreases |a|
  {
    if a == [] {
      AppendNothing(b);
      AppendNothing(OfRegion(b, region));
    } else {
      assert (a + b)[1..] == a[1..] + b;
      OfRegionAppends(a[1..], b, region);
      Associate(if RegionOf(a[0]) == region then [a[0]] else [], OfRegion(a[1..], region), OfRegion(b, region));
    }
  }

  // ---------------------------------------------------------------- round robin, declaratively

  /** The oldest message of every region, in key order. */
  function Heads(qs: seq<Partition>): seq<Message>
    requires forall i :: 0 <= i < |qs| ==> qs[i].messages != []
  {
    if qs == [] then [] else [qs[0].messages[0]] + Heads(qs[1..])
  }

  /** What is left of the map after one message of every region; emptied entries are gone. */
  function Tails(qs: seq<Partition>): (r: seq<Partition>)
    requires forall i :: 0 <= i < |qs| ==> qs[i].messages != []
    ensures forall i :: 0 <= i < |r| ==> r[i].messages != []
    ensures Total(r) + |qs| == Total(qs)
  {
    if qs == [] then []
    else
      var rest := Tails(qs[1..]);
      if |qs[0].messages| == 1 then rest
      else [Partition(qs[0].region, qs[0].messages[1..])] + rest
  }

  /** All messages in round-robin order: round after round, one message of each region still
      waiting, in key order. */
  function RoundRobin(qs: seq<Partition>): seq<Message>
    requires forall i :: 0 <= i < |qs| ==> qs[i].messages != []
    decreases Total(qs)
  {
    if qs == [] then [] else Heads(qs) + RoundRobin(Tails(qs))
  }

  // ---------------------------------------------------------------- what the operations promise

  /** A batch is the next `batchSize` messages in round-robin order, or all of them; what was
      waiting for a region is its part of the batch followed by what still waits. */
  ghost predicate DequeueSpec(before: seq<Partition>, batchSize: nat, batch: seq<Message>, after: seq<Partition>)
    requires WellFormed(before)
  {
    && WellFormed(after)
    && |RoundRobin(before)| == Total(before)
    && |batch| == Min(batchSize, Total(before))
    && batch == RoundRobin(before)[..|batch|]
    && |batch| + Total(after) == Total(before)
    && forall r :: OfRegion(batch, r) + Waiting(after, r) == Waiting(before, r)
  }

  /** An accepted message is the last of its region; nothing else moves. */
  ghost predicate SubmitSpec(before: seq<Partition>, m: Message, after: seq<Partition>)
  {
    && WellFormed(after)
    && Total(after) == Total(before) + 1
    && forall r :: Waiting(after, r) == Waiting(before, r) + (if Belongs(m, r) then [m] else [])
  }

  /** The drain empties the map, region after region in key order. */
  function Flatten(qs: seq<Partition>): seq<Message> {
    if qs == [] then [] else qs[0].messages + Flatten(qs[1..])
  }

  // ---------------------------------------------------------------- submitting

  /** `queues_[region].push_back(m)` on the ordered map. */
  function PushBack(qs: seq<Partition>, region: Region, m: Message): seq<Partition> {
    if qs == [] || Less(region, qs[0].region) then [Partition(region, [m])] + qs
    else if qs[0].region == region then [Partition(region, qs[0].messages + [m])] + qs[1..]
    else [qs[0]] + PushBack(qs[1..], region, m)
  }

  lemma WellFormedTail(qs: seq<Partition>)
    requires WellFormed(qs) && qs != []
    ensures WellFormed(qs[1..])
    ensures forall i :: 0 <= i < |qs[1..]| ==> Less(qs[0].region, qs[1..][i].region)
  {
  }

  lemma WellFormedCons(p: Partition, qs: seq<Partition>)
    requires WellFormed(qs) && p.messages != []
    requires forall k :: 0 <= k < |p.messages| ==> RegionOf(p.messages[k]) == p.region
    requires forall i :: 0 <= i < |qs| ==> Less(p.region, qs[i].region)
    ensures WellFormed([p] + qs)
  {
  }

  lemma {:induction false} NotWaiting(qs: seq<Partition>, region: Region)
    requires forall i :: 0 <= i < |qs| ==> qs[i].region != region
    ensures Waiting(qs, region) == []
  {
    if qs != [] {
      NotWaiting(qs[1..], region);
    }
  }

  /** Keys above `region` are not `region`. */
  lemma AboveIsAbsent(qs: seq<Partition>, region: Region)
    requires forall i :: 0 <= i < |qs| ==> Less(region, qs[i].region)
    ensures Waiting(qs, region) == []
  {
    LessIsIrreflexive(region);
    NotWaiting(qs, region);
  }

  lemma {:induction false} PushBackStaysAbove(qs: seq<Partition>, region: Region, m: Message, low: Region)
    requires Less(low, region) && forall i :: 0 <= i < |qs| ==> Less(low, qs[i].region)
    ensures forall i :: 0 <= i < |PushBack(qs, region, m)| ==> Less(low, PushBack(qs, region, m)[i].region)
    decreases |qs|
  {
    if qs != [] && !Less(region, qs[0].region) && qs[0].region != region {
      PushBackStaysAbove(qs[1..], region, m, low);
    }
  }

  lemma AboveFirst(qs: seq<Partition>, region: Region)
    requires WellFormed(qs) && qs != [] && Less(region, qs[0].region)
    ensures forall i :: 0 <= i < |qs| ==> Less(region, qs[i].region)
  {
    forall i | 0 <= i < |qs| ensures Less(region, qs[i].region) {
      if i > 0 {
        LessIsTransitive(region, qs[0].region, qs[i].region);
      }
    }
  }

  lemma {:induction false} PushBackKeepsOrder(qs: seq<Partition>, region: Region, m: Message)
    requires WellFormed(qs) && RegionOf(m) == region
    ensures WellFormed(PushBack(qs, region, m))
    decreases |qs|
  {
    if qs == [] {
    } else if Less(region, qs[0].region) {
      AboveFirst(qs, region);
      WellFormedCons(Partition(region, [m]), qs);
    } else if qs[0].region == region {
      WellFormedTail(qs);
      WellFormedCons(Partition(region, qs[0].messages + [m]), qs[1..]);
    } else {
      WellFormedTail(qs);
      LessIsTotal(qs[0].region, region);
      PushBackKeepsOrder(qs[1..], region, m);
      PushBackStaysAbove(qs[1..], region, m, qs[0].region);
      WellFormedCons(qs[0], PushBack(qs[1..], region, m));
    }
  }

  lemma {:induction false} PushBackAppends(qs: seq<Partition>, region: Region, m: Message, r: Region)
    requires WellFormed(qs)
    ensures Total(PushBack(qs, region, m)) == Total(qs) + 1
    ensures Waiting(PushBack(qs, region, m), r) == Waiting(qs, r) + (if r == region then [m] else [])
    decreases |qs|
  {
    AppendNothing(Waiting(qs, r));
    if qs == [] {
    } else if Less(region, qs[0].region) {
      if r == region {
        AboveFirst(qs, region);
        AboveIsAbsent(qs, region);
      }
    } else if qs[0].region == region {
    } else {
      WellFormedTail(qs);
      PushBackAppends(qs[1..], region, m, r);
      assert PushBack(qs, region, m)[1..] == PushBack(qs[1..], region, m);
    }
  }

  lemma PushBackMeetsSpec(qs: seq<Partition>, m: Message)
    requires WellFormed(qs)
    ensures SubmitSpec(qs, m, PushBack(qs, RegionOf(m), m))
  {
    PushBackKeepsOrder(qs, RegionOf(m), m);
    forall r {
      PushBackAppends(qs, RegionOf(m), m, r);
    }
    PushBackAppends(qs, RegionOf(m), m, RegionOf(m));
  }

  // ---------------------------------------------------------------- taking one message

  /** The map after the oldest message of entry `i` is taken; an emptied entry is erased. */
  function PopAt(qs: seq<Partition>, i: nat): seq<Partition>
    requires i < |qs| && qs[i].messages != []
  {
    if |qs[i].messages| == 1 then qs[..i] + qs[i + 1..]
    else qs[..i] + [Partition(qs[i].region, qs[i].messages[1..])] + qs[i + 1..]
  }

  lemma PopAtFront(qs: seq<Partition>, i: nat)
    requires 0 < i < |qs| && qs[i].messages != []
    ensures PopAt(qs, i) == [qs[0]] + PopAt(qs[1..], i - 1)
  {
  }

  lemma EraseKeepsOrder(qs: seq<Partition>, i: nat)
    requires WellFormed(qs) && i < |qs|
    ensures WellFormed(qs[..i] + qs[i + 1..])
  {
  }

  lemma ReplaceKeepsOrder(qs: seq<Partition>, i: nat)
    requires WellFormed(qs) && i < |qs| && |qs[i].messages| > 1
    ensures WellFormed(qs[i := Partition(qs[i].region, qs[i].messages[1..])])
  {
  }

  lemma PopAtKeepsOrder(qs: seq<Partition>, i: nat)
    requires WellFormed(qs) && i < |qs|
    ensures WellFormed(PopAt(qs, i))
  {
    if |qs[i].messages| == 1 {
      EraseKeepsOrder(qs, i);
    } else {
      ReplaceKeepsOrder(qs, i);
      assert PopAt(qs, i) == qs[i := Partition(qs[i].region, qs[i].messages[1..])];
    }
  }

  /** Taking from a later entry leaves the first one as it is. */
  lemma PopAtLater(qs: seq<Partition>, i: nat, r: Region)
    requires WellFormed(qs) && 0 < i < |qs|
    ensures Total(PopAt(qs, i)) == |qs[0].messages| + Total(PopAt(qs[1..], i - 1))
    ensures Waiting(PopAt(qs, i), r) == if qs[0].region == r then Waiting(qs, r) else Waiting(PopAt(qs[1..], i - 1), r)
    ensures qs[0].region == r ==> RegionOf(qs[i].messages[0]) != r
    ensures [] + Waiting(qs, r) == Waiting(qs, r)
  {
    PopAtFront(qs, i);
    SplitAppend([qs[0]], PopAt(qs[1..], i - 1));
    assert Less(qs[0].region, qs[i].region);
    LessIsIrreflexive(r);
  }

  lemma PopFirst(qs: seq<Partition>, r: Region)
    requires WellFormed(qs) && qs != []
    ensures Waiting(qs, r) == OfRegion([qs[0].messages[0]], r) + Waiting(PopAt(qs, 0), r)
    ensures Total(PopAt(qs, 0)) + 1 == Total(qs)
  {
    WellFormedTail(qs);
    OneOfRegion(qs[0].messages[0], r);
    AboveIsAbsent(qs[1..], qs[0].region);
    FrontTaken(qs, r);
  }

  /** Exactly the taken message leaves its region. */
  lemma {:induction false} PopAtTakes(qs: seq<Partition>, i: nat, r: Region)
    requires WellFormed(qs) && i < |qs|
    ensures var h := qs[i].messages[0];
            Waiting(qs, r) == OfRegion([h], r) + Waiting(PopAt(qs, i), r)
    ensures Total(PopAt(qs, i)) + 1 == Total(qs)
    decreases i
  {
    if i == 0 {
      PopFirst(qs, r);
    } else {
      WellFormedTail(qs);
      OneOfRegion(qs[i].messages[0], r);
      PopAtTakes(qs[1..], i - 1, r);
      PopAtLater(qs, i, r);
    }
  }

  lemma OneOfRegion(m: Message, r: Region)
    ensures OfRegion([m], r) == if RegionOf(m) == r then [m] else []
  {
  }

  lemma FrontTaken(qs: seq<Partition>, r: Region)
    requires qs != [] && qs[0].messages != [] && Waiting(qs[1..], qs[0].region) == []
    ensures Waiting(qs, r) == (if qs[0].region == r then [qs[0].messages[0]] else []) + Waiting(PopAt(qs, 0), r)
    ensures Total(PopAt(qs, 0)) + 1 == Total(qs)
  {
    var p := qs[0];
    assert qs[..0] == [];
    FirstAndRest(p.messages);
    AppendNothing(Waiting(qs, r));
    if |p.messages| == 1 {
      AppendNothing(qs[1..]);
    } else {
      var q := Partition(p.region, p.messages[1..]);
      AppendNothing([q]);
      TailOfCons(q, qs[1..]);
    }
  }

  lemma FirstAndRest<T>(s: seq<T>)
    requires s != []
    ensures s == [s[0]] + s[1..]
    ensures |s| == 1 ==> s == [s[0]] && s[1..] == []
  {
  }

  lemma TailOfCons<T>(x: T, s: seq<T>)
    ensures ([x] + s)[1..] == s && ([x] + s)[0] == x
  {
  }

  // ---------------------------------------------------------------- the loop's bookkeeping

  ghost predicate NoneEmpty(qs: seq<Partition>) {
    forall i :: 0 <= i < |qs| ==> qs[i].messages != []
  }

  /** What is still to come when the entries before `i` have had their turn in this round. */
  ghost function ToCome(qs: seq<Partition>, i: nat): seq<Message>
    requires NoneEmpty(qs) && i <= |qs|
  {
    Heads(qs[i..]) + RoundRobin(qs[..i] + Tails(qs[i..]))
  }

  lemma RoundBegins(qs: seq<Partition>)
    requires NoneEmpty(qs) && qs != []
    ensures ToCome(qs, 0) == RoundRobin(qs)
  {
    WholeSlice(qs);
    assert qs[..0] == [];
    AppendNothing(Tails(qs));
  }

  lemma RoundEnds(qs: seq<Partition>)
    requires NoneEmpty(qs)
    ensures ToCome(qs, |qs|) == RoundRobin(qs)
  {
    WholeSlice(qs);
    AppendNothing(qs);
    AppendNothing(RoundRobin(qs));
  }

  /** The turn of entry `i`: its oldest message is the next to come. */
  lemma TurnTaken(qs: seq<Partition>, i: nat)
    requires NoneEmpty(qs) && i < |qs|
    ensures NoneEmpty(PopAt(qs, i))
    ensures var next := if |qs[i].messages| == 1 then i else i + 1;
            next <= |PopAt(qs, i)| && ToCome(qs, i) == [qs[i].messages[0]] + ToCome(PopAt(qs, i), next)
  {
    var h, todo, done := qs[i].messages[0], qs[i + 1..], qs[..i];
    assert qs[i..][0] == qs[i] && qs[i..][1..] == todo;
    var r := PopAt(qs, i);
    if |qs[i].messages| == 1 {
      assert r[..i] == done && r[i..] == todo;
      Associate([h], Heads(todo), RoundRobin(done + Tails(todo)));
    } else {
      var p := Partition(qs[i].region, qs[i].messages[1..]);
      assert r[..i + 1] == done + [p] && r[i + 1..] == todo;
      Associate(done, [p], Tails(todo));
      Associate([h], Heads(todo), RoundRobin(done + [p] + Tails(todo)));
    }
  }

  /** Where the batching loops stand with respect to the map they started from: everybody's
      messages are accounted for, and the batch is a prefix of the round-robin order. */
  ghost predicate Accounted(start: seq<Partition>, limit: nat, qs: seq<Partition>, batch: seq<Message>) {
    && NoneEmpty(start) && WellFormed(qs)
    && |batch| <= limit && |batch| + Total(qs) == Total(start)
    && batch <= RoundRobin(start)
    && forall r :: OfRegion(batch, r) + Waiting(qs, r) == Waiting(start, r)
  }

  /** Between rounds, the rest of the order is what the map would give from the first region on. */
  ghost predicate BetweenRounds(start: seq<Partition>, qs: seq<Partition>, batch: seq<Message>)
    requires NoneEmpty(start) && NoneEmpty(qs)
  {
    batch + RoundRobin(qs) == RoundRobin(start)
  }

  /** Within a round, entries before `it` have had their turn. */
  ghost predicate WithinRound(start: seq<Partition>, qs: seq<Partition>, batch: seq<Message>, it: nat)
    requires NoneEmpty(start) && NoneEmpty(qs)
  {
    it <= |qs| && batch + ToCome(qs, it) == RoundRobin(start)
  }

  /** One turn keeps the account and the place in the round. */
  lemma TurnKeepsAccount(start: seq<Partition>, limit: nat, qs: seq<Partition>, batch: seq<Message>, it: nat)
    requires Accounted(start, limit, qs, batch) && WithinRound(start, qs, batch, it)
    requires it < |qs| && |batch| < limit
    ensures var h, next := qs[it].messages[0], if |qs[it].messages| == 1 then it else it + 1;
            && Accounted(start, limit, PopAt(qs, it), batch + [h])
            && WithinRound(start, PopAt(qs, it), batch + [h], next)
  {
    var h, next := qs[it].messages[0], if |qs[it].messages| == 1 then it else it + 1;
    TurnTaken(qs, it);
    PopAtKeepsOrder(qs, it);
    Associate(batch, [h], ToCome(PopAt(qs, it), next));
    RegionsConserved(start, qs, it, batch);
    PrefixOfSum(batch + [h], ToCome(PopAt(qs, it), next));
  }

  lemma PrefixOfSum<T>(a: seq<T>, b: seq<T>)
    ensures a <= a + b
  {
  }

  lemma BatchDone(start: seq<Partition>, limit: nat, qs: seq<Partition>, batch: seq<Message>)
    requires WellFormed(start) && Accounted(start, limit, qs, batch)
    requires |batch| == limit || qs == []
    ensures DequeueSpec(start, limit, batch, qs)
  {
    RoundRobinLength(start);
  }

  lemma BatchBegins(start: seq<Partition>, limit: nat)
    requires WellFormed(start)
    ensures Accounted(start, limit, start, []) && BetweenRounds(start, start, [])
  {
  }

  // ---------------------------------------------------------------- the class

  class AsyncQueueWriter {
    const maxQueueSize: nat
    const batchSize: nat
    var queues: seq<Partition>
    var queueDepth: nat
    var regionPartitions: nat
    var backpressureEvents: nat
    var messagesProcessed: nat
    var writeErrors: nat
    var batchesFlushed: nat

    ghost predicate Valid()
      reads this
    {
      WellFormed(queues) && Total(queues) <= maxQueueSize
    }

    constructor (maxQueueSize: nat, batchSize: nat)
      ensures Valid() && queues == []
      ensures this.maxQueueSize == maxQueueSize && this.batchSize == batchSize
      ensures messagesProcessed == writeErrors == backpressureEvents == batchesFlushed == 0
    {
      this.maxQueueSize, this.batchSize := maxQueueSize, batchSize;
      queues, queueDepth, regionPartitions := [], 0, 0;
      backpressureEvents, messagesProcessed, writeErrors, batchesFlushed := 0, 0, 0, 0;
    }

    method GetTotalQueueSize() returns (total: nat)
      ensures total == Total(queues)
    {
      total := 0;
      var i := 0;
      WholeSlice(queues);
      while i < |queues|
        invariant 0 <= i <= |queues|
        invariant total + Total(queues[i..]) == Total(queues)
      {
        DropNext(queues, i);
        total := total + |queues[i].messages|;
        i := i + 1;
      }
    }

    /** Queues the message unless `maxQueueSize` messages are waiting; a refusal changes nothing
        but the count of back-pressure events. */
    method Submit(m: Message) returns (ok: bool)
      requires Valid()
      modifies this`queues, this`queueDepth, this`backpressureEvents
      ensures Valid()
      ensures ok == (Total(old(queues)) < maxQueueSize)
      ensures ok ==> SubmitSpec(old(queues), m, queues) && queueDepth == Total(queues)
                     && backpressureEvents == old(backpressureEvents)
      ensures !ok ==> queues == old(queues) && queueDepth == old(queueDepth)
                      && backpressureEvents == old(backpressureEvents) + 1
    {
      var totalQueued := GetTotalQueueSize();
      if totalQueued >= maxQueueSize {
        backpressureEvents := backpressureEvents + 1;
        return false;
      }
      PushBackMeetsSpec(queues, m);
      queues := PushBack(queues, RegionOf(m), m);
      queueDepth := GetTotalQueueSize();
      return true;
    }

    /** The turn of one region: its oldest message goes into the batch, an emptied partition is
        erased.  No partition is ever empty, so the source's branch that steps over one is dead. */
    method TakeTurn(batch: seq<Message>, it: nat, ghost start: seq<Partition>) returns (more: seq<Message>, next: nat)
      requires Accounted(start, batchSize, queues, batch) && WithinRound(start, queues, batch, it)
      requires it < |queues| && |batch| < batchSize
      modifies this`queues
      ensures Accounted(start, batchSize, queues, more) && WithinRound(start, queues, more, next)
      ensures |more| == |batch| + 1 && Total(queues) < Total(old(queues))
    {
      TurnKeepsAccount(start, batchSize, queues, batch, it);
      more := batch + [queues[it].messages[0]];
      if |queues[it].messages| == 1 {
        queues := queues[..it] + queues[it + 1..];
        next := it;
      } else {
        queues := queues[..it] + [Partition(queues[it].region, queues[it].messages[1..])] + queues[it + 1..];
        next := it + 1;
      }
    }

    /** One pass of the inner loop over the regions, stopping early when the batch is full. */
    method TakeRound(batch: seq<Message>, ghost start: seq<Partition>) returns (more: seq<Message>)
      requires Accounted(start, batchSize, queues, batch) && BetweenRounds(start, queues, batch)
      requires queues != [] && |batch| < batchSize
      modifies this`queues
      ensures Accounted(start, batchSize, queues, more) && |more| > |batch|
      ensures |more| < batchSize ==> BetweenRounds(start, queues, more)
    {
      RoundBegins(queues);
      more := batch;
      var it: nat := 0;
      while it < |queues| && |more| < batchSize
        invariant Accounted(start, batchSize, queues, more)
        invariant WithinRound(start, queues, more, it)
        invariant |batch| <= |more| && (|more| == |batch| ==> it == 0 && queues != [])
        decreases Total(queues)
      {
        more, it := TakeTurn(more, it, start);
      }
      if |more| < batchSize {
        RoundEnds(queues);
      }
    }

    /** Takes a batch, one message a region in turn, until it is full or nothing is left. */
    method DequeueBatch() returns (batch: seq<Message>)
      requires Valid()
      modifies this`queues, this`queueDepth, this`regionPartitions
      ensures Valid()
      ensures DequeueSpec(old(queues), batchSize, batch, queues)
      ensures queueDepth == Total(queues)
      ensures regionPartitions == if batch == [] then old(regionPartitions) else |queues|
    {
      batch := [];
      BatchBegins(queues, batchSize);
      while queues != [] && |batch| < batchSize
        invariant Accounted(old(queues), batchSize, queues, batch)
        invariant |batch| < batchSize ==> BetweenRounds(old(queues), queues, batch)
        invariant regionPartitions == old(regionPartitions)
        decreases batchSize - |batch|
      {
        batch := TakeRound(batch, old(queues));
      }
      BatchDone(old(queues), batchSize, queues, batch);
      queueDepth := GetTotalQueueSize();
      if batch != [] {
        regionPartitions := |queues|;
      }
    }

    /** Hands a batch to the batch writer, which accepts or refuses each message. */
    method SubmitBatch(batch: seq<Message>, accepts: Message -> bool) returns (ghost refused: seq<Message>)
      modifies this`messagesProcessed, this`writeErrors, this`batchesFlushed
      ensures batchesFlushed == old(batchesFlushed) + 1
      ensures messagesProcessed + writeErrors == old(messagesProcessed + writeErrors) + |batch|
      ensures writeErrors == old(writeErrors) + |refused|
      ensures refused == Refused(batch, accepts)
    {
      refused := [];
      var i := 0;
      while i < |batch|
        invariant 0 <= i <= |batch|
        invariant messagesProcessed + writeErrors == old(messagesProcessed + writeErrors) + i
        invariant writeErrors == old(writeErrors) + |refused|
        invariant refused == Refused(batch[..i], accepts)
        invariant batchesFlushed == old(batchesFlushed)
      {
        NextPrefix(batch, i);
        if accepts(batch[i]) {
          messagesProcessed := messagesProcessed + 1;
        } else {
          writeErrors := writeErrors + 1;
          refused := refused + [batch[i]];
        }
        i := i + 1;
      }
      WholeSlice(batch);
      batchesFlushed := batchesFlushed + 1;
    }

    /** Pops every message of one partition into the batch. */
    method MoveAll(batch: seq<Message>, messages: seq<Message>) returns (more: seq<Message>)
      ensures more == batch + messages
    {
      more := batch;
      var left := messages;
      while left != []
        invariant more + left == batch + messages
        decreases |left|
      {
        FirstAndRest(left);
        Associate(more, [left[0]], left[1..]);
        more := more + [left[0]];
        left := left[1..];
      }
      AppendNothing(more);
    }

    /** The loops that move the messages of all partitions, one partition after another. */
    method MoveQueues() returns (finalBatch: seq<Message>)
      ensures finalBatch == Flatten(queues)
    {
      finalBatch := [];
      var i := 0;
      WholeSlice(queues);
      AppendNothing(Flatten(queues));
      while i < |queues|
        invariant 0 <= i <= |queues|
        invariant finalBatch + Flatten(queues[i..]) == Flatten(queues)
      {
        DropNext(queues, i);
        Associate(finalBatch, queues[i].messages, Flatten(queues[i + 1..]));
        finalBatch := MoveAll(finalBatch, queues[i].messages);
        i := i + 1;
      }
      AppendNothing(finalBatch);
    }

    /** Empties the queue, region after region, and hands everything over. */
    method DrainAndSubmit(accepts: Message -> bool) returns (finalBatch: seq<Message>)
      requires Valid()
      modifies this`queues, this`messagesProcessed, this`writeErrors, this`batchesFlushed
      ensures Valid() && queues == []
      ensures finalBatch == Flatten(old(queues))
      ensures messagesProcessed + writeErrors == old(messagesProcessed + writeErrors) + |finalBatch|
      ensures writeErrors == old(writeErrors) + |Refused(finalBatch, accepts)|
      ensures batchesFlushed == old(batchesFlushed) + (if finalBatch == [] then 0 else 1)
    {
      finalBatch := MoveQueues();
      queues := [];
      if finalBatch != [] {
        ghost var refused := SubmitBatch(finalBatch, accepts);
      }
    }
  }

  /** The messages of a batch that the batch writer refuses. */
  function Refused(batch: seq<Message>, accepts: Message -> bool): seq<Message> {
    if batch == [] then []
    else
      var last := batch[|batch| - 1];
      Refused(batch[..|batch| - 1], accepts) + (if accepts(last) then [] else [last])
  }

  lemma {:induction false} RoundRobinLength(qs: seq<Partition>)
    requires NoneEmpty(qs)
    ensures |RoundRobin(qs)| == Total(qs)
    decreases Total(qs)
  {
    if qs != [] {
      HeadsLength(qs);
      RoundRobinLength(Tails(qs));
    }
  }

  lemma {:induction false} HeadsLength(qs: seq<Partition>)
    requires NoneEmpty(qs)
    ensures |Heads(qs)| == |qs|
  {
    if qs != [] {
      HeadsLength(qs[1..]);
    }
  }

  /** Taking the next message of entry `i` into the batch keeps every region's account. */
  lemma RegionsConserved(start: seq<Partition>, qs: seq<Partition>, i: nat, batch: seq<Message>)
    requires WellFormed(qs) && i < |qs|
    requires forall r :: OfRegion(batch, r) + Waiting(qs, r) == Waiting(start, r)
    ensures Total(PopAt(qs, i)) + 1 == Total(qs)
    ensures forall r :: OfRegion(batch + [qs[i].messages[0]], r) + Waiting(PopAt(qs, i), r) == Waiting(start, r)
  {
    var h := qs[i].messages[0];
    PopAtTakes(qs, i, RegionOf(h));
    forall r ensures OfRegion(batch + [h], r) + Waiting(PopAt(qs, i), r) == Waiting(start, r) {
      PopAtTakes(qs, i, r);
      OfRegionAppends(batch, [h], r);
      Associate(OfRegion(batch, r), OfRegion([h], r), Waiting(PopAt(qs, i), r));
    }
  }
}
