/** The ring buffer with one producer thread and one consumer thread, one atomic access a step.

    Every load of the other thread's index may return any value that index has held since this
    thread last loaded it, so a run of this machine may see older values than a sequentially
    consistent one.  Writing a slot is not atomic: while the producer is at it, the slot may hold
    anything.  The histories `pushed` and `popped` and the counts `seenHead` and `seenTail` are
    bookkeeping; no step's outcome reads them except to name which value a load returned. */
module Spsc {
  import opened RingBuffer
  import opened Sequences

  datatype Producer<T> =
    | Idle
    | TailLoaded(item: T, tail: nat)
    | SpaceSeen(item: T, tail: nat, next: nat)
    | SlotWritten(item: T, next: nat)

  datatype Consumer<T> =
    | Resting
    | HeadLoaded(head: nat)
    | ItemSeen(head: nat)
    | SlotRead(head: nat, item: T)

  datatype State<T> = State(
    capacity: nat, buffer: seq<T>, head: nat, tail: nat,
    producer: Producer<T>, consumer: Consumer<T>,
    pushed: seq<T>, popped: seq<T>, seenHead: nat, seenTail: nat)

  datatype Action<T> =
    | BeginPush(item: T)      // tail_.load(relaxed)
    | LoadHead(count: nat)    // head_.load(acquire), returning the index of this pop count
    | ScribbleSlot(junk: T)   // part of writing the slot
    | WriteSlot               // the slot holds the item
    | PublishTail             // tail_.store(release)
    | BeginPop                // head_.load(relaxed)
    | LoadTail(count: nat)    // tail_.load(acquire), returning the index of this push count
    | ReadSlot                // copying the slot
    | PublishHead             // head_.store(release)

  /** The index that a counter reaches after `count` increments. */
  function Index(count: nat, capacity: nat): (i: nat)
    requires capacity >= 1
    ensures i < capacity
  {
    if count == 0 then 0 else Next(Index(count - 1, capacity), capacity)
  }

  function Initial<T>(capacity: nat, buffer: seq<T>): State<T> {
    State(capacity, buffer, 0, 0, Idle, Resting, [], [], 0, 0)
  }

  predicate Enabled<T>(s: State<T>, a: Action<T>) {
    match a
    case BeginPush(_) => s.producer.Idle?
    case LoadHead(count) => s.producer.TailLoaded? && s.seenHead <= count <= |s.popped| && s.capacity >= 1
    case ScribbleSlot(_) => s.producer.SpaceSeen? && s.producer.tail < |s.buffer|
    case WriteSlot => s.producer.SpaceSeen? && s.producer.tail < |s.buffer|
    case PublishTail => s.producer.SlotWritten?
    case BeginPop => s.consumer.Resting?
    case LoadTail(count) => s.consumer.HeadLoaded? && s.seenTail <= count <= |s.pushed| && s.capacity >= 1
    case ReadSlot => s.consumer.ItemSeen? && s.consumer.head < |s.buffer|
    case PublishHead => s.consumer.SlotRead?
  }

  function Apply<T>(s: State<T>, a: Action<T>): State<T>
    requires Enabled(s, a)
  {
    match a
    case BeginPush(item) => s.(producer := TailLoaded(item, s.tail))
    case LoadHead(count) =>
      var next := Next(s.producer.tail, s.capacity);
      if next == Index(count, s.capacity) then s.(producer := Idle, seenHead := count)
      else s.(producer := SpaceSeen(s.producer.item, s.producer.tail, next), seenHead := count)
    case ScribbleSlot(junk) => s.(buffer := s.buffer[s.producer.tail := junk])
    case WriteSlot =>
      s.(buffer := s.buffer[s.producer.tail := s.producer.item],
         producer := SlotWritten(s.producer.item, s.producer.next))
    case PublishTail => s.(tail := s.producer.next, producer := Idle, pushed := s.pushed + [s.producer.item])
    case BeginPop => s.(consumer := HeadLoaded(s.head))
    case LoadTail(count) =>
      if s.consumer.head == Index(count, s.capacity) then s.(consumer := Resting, seenTail := count)
      else s.(consumer := ItemSeen(s.consumer.head), seenTail := count)
    case ReadSlot => s.(consumer := SlotRead(s.consumer.head, s.buffer[s.consumer.head]))
    case PublishHead =>
      s.(head := Next(s.consumer.head, s.capacity), consumer := Resting, popped := s.popped + [s.consumer.item])
  }

  /** The steps can be taken one after the other. */
  predicate Possible<T>(s: State<T>, run: seq<Action<T>>)
    decreases |run|
  {
    run == [] || (Enabled(s, run[0]) && Possible(Apply(s, run[0]), run[1..]))
  }

  function After<T>(s: State<T>, run: seq<Action<T>>): State<T>
    requires Possible(s, run)
    decreases |run|
  {
    if run == [] then s else After(Apply(s, run[0]), run[1..])
  }

  // ---------------------------------------------------------------- the abstract queue

  /** The items pushed and not yet popped. */
  function Queue<T>(s: State<T>): seq<T>
    requires |s.popped| <= |s.pushed|
  {
    s.pushed[|s.popped|..]
  }

  // ---------------------------------------------------------------- the invariant

  ghost predicate Counters<T>(s: State<T>) {
    && s.capacity >= 1 && |s.buffer| == s.capacity
    && |s.popped| <= |s.pushed|
    && s.tail == Index(|s.pushed|, s.capacity) && s.head == Index(|s.popped|, s.capacity)
    && s.seenHead <= |s.popped| <= s.seenTail <= |s.pushed| < s.seenHead + s.capacity
    && s.popped == s.pushed[..|s.popped|]
  }

  ghost predicate Slots<T>(s: State<T>)
    requires Counters(s)
  {
    forall k :: |s.popped| <= k < |s.pushed| ==> s.buffer[Index(k, s.capacity)] == s.pushed[k]
  }

  ghost predicate ProducerConsistent<T>(s: State<T>)
    requires Counters(s)
  {
    match s.producer
    case Idle => true
    case TailLoaded(_, tail) => tail == s.tail
    case SpaceSeen(_, tail, next) =>
      tail == s.tail && next == Next(tail, s.capacity) && |s.pushed| - s.seenHead < s.capacity - 1
    case SlotWritten(item, next) =>
      next == Next(s.tail, s.capacity) && |s.pushed| - s.seenHead < s.capacity - 1 && s.buffer[s.tail] == item
  }

  ghost predicate ConsumerConsistent<T>(s: State<T>)
    requires Counters(s)
  {
    match s.consumer
    case Resting => true
    case HeadLoaded(head) => head == s.head
    case ItemSeen(head) => head == s.head && s.seenTail > |s.popped|
    case SlotRead(head, item) => head == s.head && s.seenTail > |s.popped| && item == s.pushed[|s.popped|]
  }

  ghost predicate Inv<T>(s: State<T>) {
    Counters(s) && Slots(s) && ProducerConsistent(s) && ConsumerConsistent(s)
  }

  // ---------------------------------------------------------------- index arithmetic

  /** Going on from a count, the index advances and wraps around once within a lap. */
  lemma {:induction false} IndexAhead(count: nat, d: nat, capacity: nat)
    requires capacity >= 1 && d <= capacity
    ensures Index(count + d, capacity)
         == (var sum := Index(count, capacity) + d; if sum < capacity then sum else sum - capacity)
    decreases d
  {
    if d > 0 {
      IndexAhead(count, d - 1, capacity);
    }
  }

  // ---------------------------------------------------------------- what each step keeps

  lemma InitialInv<T>(capacity: nat, buffer: seq<T>)
    requires capacity >= 1 && |buffer| == capacity
    ensures Inv(Initial(capacity, buffer))
  {
  }

  /** The slot the producer is about to fill holds no waiting item. */
  lemma FreeSlot<T>(s: State<T>)
    requires Counters(s)
    ensures forall k :: |s.popped| <= k < |s.pushed| ==> Index(k, s.capacity) != s.tail
  {
    forall k | |s.popped| <= k < |s.pushed| ensures Index(k, s.capacity) != s.tail {
      IndexAhead(k, |s.pushed| - k, s.capacity);
    }
  }

  /** The load of the head decides: the push is refused exactly when `capacity - 1` items lie
      between the loaded head and the tail. */
  lemma LoadHeadDecides<T>(s: State<T>, count: nat)
    requires Inv(s) && Enabled(s, LoadHead(count))
    ensures Apply(s, LoadHead(count)).producer.Idle? <==> |s.pushed| - count == s.capacity - 1
  {
    IndexAhead(count, |s.pushed| + 1 - count, s.capacity);
  }

  /** The load of the tail decides: the pop is refused exactly when the loaded tail is the head. */
  lemma LoadTailDecides<T>(s: State<T>, count: nat)
    requires Inv(s) && Enabled(s, LoadTail(count))
    ensures Apply(s, LoadTail(count)).consumer.Resting? <==> count == |s.popped|
  {
    IndexAhead(|s.popped|, count - |s.popped|, s.capacity);
  }

  lemma ProducerStepKeepsInv<T>(s: State<T>, a: Action<T>)
    requires Inv(s) && Enabled(s, a)
    requires a.BeginPush? || a.LoadHead? || a.ScribbleSlot? || a.WriteSlot? || a.PublishTail?
    ensures Inv(Apply(s, a))
  {
    match a
    case BeginPush(_) =>
    case LoadHead(count) => LoadHeadDecides(s, count);
    case ScribbleSlot(_) => FreeSlot(s);
    case WriteSlot => FreeSlot(s);
    case PublishTail =>
  }

  lemma ConsumerStepKeepsInv<T>(s: State<T>, a: Action<T>)
    requires Inv(s) && Enabled(s, a)
    requires a.BeginPop? || a.LoadTail? || a.ReadSlot? || a.PublishHead?
    ensures Inv(Apply(s, a))
  {
    match a
    case BeginPop =>
    case LoadTail(count) => LoadTailDecides(s, count);
    case ReadSlot =>
    case PublishHead => NextPrefix(s.pushed, |s.popped|);
  }

  /** Every step of every interleaving keeps the invariant. */
  lemma StepKeepsInv<T>(s: State<T>, a: Action<T>)
    requires Inv(s) && Enabled(s, a)
    ensures Inv(Apply(s, a))
  {
    if a.BeginPop? || a.LoadTail? || a.ReadSlot? || a.PublishHead? {
      ConsumerStepKeepsInv(s, a);
    } else {
      ProducerStepKeepsInv(s, a);
    }
  }

  // ---------------------------------------------------------------- refinement

  /** Each step is a step of a bounded FIFO: publishing the tail enqueues the pushed item,
      publishing the head dequeues the oldest one, and every other step leaves the queue alone. */
  lemma StepRefinesFifo<T>(s: State<T>, a: Action<T>)
    requires Inv(s) && Enabled(s, a)
    ensures |s.popped| <= |s.pushed| && |Apply(s, a).popped| <= |Apply(s, a).pushed|
    ensures |Queue(s)| <= s.capacity - 1
    ensures a.PublishTail? ==> Queue(Apply(s, a)) == Queue(s) + [s.producer.item] && |Queue(s)| < s.capacity - 1
    ensures a.PublishHead? ==> Queue(s) == [s.consumer.item] + Queue(Apply(s, a))
    ensures !a.PublishTail? && !a.PublishHead? ==> Queue(Apply(s, a)) == Queue(s)
  {
  }

  /** A push that loads the current head is refused exactly when the queue is full; a pop that
      loads the current tail is refused exactly when it is empty. */
  lemma RefusalsAreExact<T>(s: State<T>)
    requires Inv(s)
    ensures Enabled(s, LoadHead(|s.popped|)) ==>
              (Apply(s, LoadHead(|s.popped|)).producer.Idle? <==> |Queue(s)| == s.capacity - 1)
    ensures Enabled(s, LoadTail(|s.pushed|)) ==>
              (Apply(s, LoadTail(|s.pushed|)).consumer.Resting? <==> Queue(s) == [])
  {
    if Enabled(s, LoadHead(|s.popped|)) {
      LoadHeadDecides(s, |s.popped|);
    }
    if Enabled(s, LoadTail(|s.pushed|)) {
      LoadTailDecides(s, |s.pushed|);
    }
  }

  /** However old the loaded value, a push on a full queue and a pop on an empty one are refused. */
  lemma FullAndEmptyAreRefused<T>(s: State<T>, count: nat)
    requires Inv(s)
    ensures Enabled(s, LoadHead(count)) && |Queue(s)| == s.capacity - 1 ==> Apply(s, LoadHead(count)).producer.Idle?
    ensures Enabled(s, LoadTail(count)) && Queue(s) == [] ==> Apply(s, LoadTail(count)).consumer.Resting?
  {
    if Enabled(s, LoadHead(count)) {
      LoadHeadDecides(s, count);
    }
    if Enabled(s, LoadTail(count)) {
      LoadTailDecides(s, count);
    }
  }

  /** The producer is between its first and last write to a slot while the consumer is between
      its first and last read of the same slot. */
  predicate Race<T>(s: State<T>) {
    s.producer.SpaceSeen? && s.consumer.ItemSeen? && s.producer.tail == s.consumer.head
  }

  lemma NoRace<T>(s: State<T>)
    requires Inv(s)
    ensures !Race(s)
  {
    if s.producer.SpaceSeen? && s.consumer.ItemSeen? {
      FreeSlot(s);
    }
  }

  // ---------------------------------------------------------------- whole runs

  lemma {:induction false} RunKeepsInv<T>(s: State<T>, run: seq<Action<T>>)
    requires Inv(s) && Possible(s, run)
    ensures Inv(After(s, run)) && After(s, run).capacity == s.capacity
    decreases |run|
  {
    if run != [] {
      StepKeepsInv(s, run[0]);
      RunKeepsInv(Apply(s, run[0]), run[1..]);
    }
  }

  /** What the two callers see of a run: the items of accepted pushes and of successful pops. */
  function Accepted<T>(s: State<T>, run: seq<Action<T>>): seq<T>
    requires Possible(s, run)
    decreases |run|
  {
    if run == [] then []
    else (if run[0].PublishTail? then [s.producer.item] else []) + Accepted(Apply(s, run[0]), run[1..])
  }

  function Delivered<T>(s: State<T>, run: seq<Action<T>>): seq<T>
    requires Possible(s, run)
    decreases |run|
  {
    if run == [] then []
    else (if run[0].PublishHead? then [s.consumer.item] else []) + Delivered(Apply(s, run[0]), run[1..])
  }

  lemma {:induction false} HistoriesAreResults<T>(s: State<T>, run: seq<Action<T>>)
    requires Possible(s, run)
    ensures After(s, run).pushed == s.pushed + Accepted(s, run)
    ensures After(s, run).popped == s.popped + Delivered(s, run)
    decreases |run|
  {
    if run == [] {
      AppendNothing(s.pushed);
      AppendNothing(s.popped);
    } else {
      var t := Apply(s, run[0]);
      HistoriesAreResults(t, run[1..]);
      Associate(s.pushed, if run[0].PublishTail? then [s.producer.item] else [], Accepted(t, run[1..]));
      Associate(s.popped, if run[0].PublishHead? then [s.consumer.item] else [], Delivered(t, run[1..]));
      AppendNothing(s.pushed);
      AppendNothing(s.popped);
    }
  }

  /** Under every interleaving of any length, with any admissible old values: what the consumer
      received is a prefix of what the producer put in, in order, no more than `capacity - 1` items
      are in between, and no slot is written while it is read. */
  lemma EveryRunIsFifo<T>(capacity: nat, buffer: seq<T>, run: seq<Action<T>>)
    requires capacity >= 1 && |buffer| == capacity
    requires Possible(Initial(capacity, buffer), run)
    ensures var s := Initial(capacity, buffer);
            && Delivered(s, run) <= Accepted(s, run)
            && |Accepted(s, run)| - |Delivered(s, run)| <= capacity - 1
            && !Race(After(s, run))
  {
    var s := Initial(capacity, buffer);
    InitialInv(capacity, buffer);
    RunKeepsInv(s, run);
    HistoriesAreResults(s, run);
    AppendNothing(Accepted(s, run));
    AppendNothing(Delivered(s, run));
    NoRace(After(s, run));
  }

  // ---------------------------------------------------------------- one thread alone

  /** The steps of a push that nobody interrupts and that loads the current head. */
  function PushSteps<T>(s: State<T>, item: T): seq<Action<T>> {
    [BeginPush(item), LoadHead(|s.popped|)]
      + (if Next(s.tail, s.capacity) == s.head then [] else [WriteSlot, PublishTail])
  }

  function PopSteps<T>(s: State<T>): seq<Action<T>> {
    [BeginPop, LoadTail(|s.pushed|)] + (if s.head == s.tail then [] else [ReadSlot, PublishHead])
  }

  lemma TwoSteps<T>(s: State<T>, a: Action<T>, b: Action<T>, rest: seq<Action<T>>)
    requires Enabled(s, a) && Enabled(Apply(s, a), b) && Possible(Apply(Apply(s, a), b), rest)
    ensures Possible(s, [a, b] + rest)
    ensures After(s, [a, b] + rest) == After(Apply(Apply(s, a), b), rest)
  {
    var run := [a, b] + rest;
    assert run[1..] == [b] + rest && run[1..][1..] == rest;
    assert Possible(Apply(s, a), run[1..]);
  }

  lemma FourSteps<T>(s: State<T>, a: Action<T>, b: Action<T>, c: Action<T>, d: Action<T>)
    requires Enabled(s, a) && Enabled(Apply(s, a), b) && Enabled(Apply(Apply(s, a), b), c)
    requires Enabled(Apply(Apply(Apply(s, a), b), c), d)
    ensures Possible(s, [a, b] + [c, d])
    ensures After(s, [a, b] + [c, d]) == Apply(Apply(Apply(Apply(s, a), b), c), d)
  {
    TwoSteps(Apply(Apply(s, a), b), c, d, []);
    AppendNothing([c, d]);
    TwoSteps(s, a, b, [c, d]);
  }

  lemma PushOutcome<T>(s: State<T>, item: T)
    requires Inv(s) && s.producer.Idle?
    ensures Possible(s, PushSteps(s, item))
    ensures var t := After(s, PushSteps(s, item));
            && t.producer.Idle? && t.popped == s.popped && t.capacity == s.capacity
            && t.pushed == if Next(s.tail, s.capacity) == s.head then s.pushed else s.pushed + [item]
  {
    if Next(s.tail, s.capacity) == s.head {
      TwoSteps(s, BeginPush(item), LoadHead(|s.popped|), []);
    } else {
      FourSteps(s, BeginPush(item), LoadHead(|s.popped|), WriteSlot, PublishTail);
    }
  }

  lemma DropOfAppend<T>(s: seq<T>, item: T, n: nat)
    requires n <= |s|
    ensures (s + [item])[n..] == s[n..] + [item]
  {
  }

  /** Uninterrupted, the steps of a push append the item unless the queue is full, as the class's
      `Push` does. */
  lemma PushAlone<T>(s: State<T>, item: T)
    requires Inv(s) && s.producer.Idle?
    ensures Possible(s, PushSteps(s, item))
    ensures Inv(After(s, PushSteps(s, item))) && After(s, PushSteps(s, item)).producer.Idle?
    ensures Queue(After(s, PushSteps(s, item)))
         == if |Queue(s)| == s.capacity - 1 then Queue(s) else Queue(s) + [item]
  {
    PushOutcome(s, item);
    RunKeepsInv(s, PushSteps(s, item));
    StepKeepsInv(s, BeginPush(item));
    LoadHeadDecides(Apply(s, BeginPush(item)), |s.popped|);
    DropOfAppend(s.pushed, item, |s.popped|);
  }

  /** Uninterrupted, the steps of a pop remove the oldest item if there is one, as the class's
      `Pop` does. */
  lemma PopAlone<T>(s: State<T>)
    requires Inv(s) && s.consumer.Resting?
    ensures Possible(s, PopSteps(s))
    ensures Inv(After(s, PopSteps(s))) && After(s, PopSteps(s)).consumer.Resting?
    ensures Queue(After(s, PopSteps(s))) == if Queue(s) == [] then [] else Queue(s)[1..]
    ensures After(s, PopSteps(s)).popped == s.popped + Queue(s)[..if Queue(s) == [] then 0 else 1]
  {
    var s1 := Apply(s, BeginPop);
    StepKeepsInv(s, BeginPop);
    LoadTailDecides(s1, |s.pushed|);
    if s.head == s.tail {
      TwoSteps(s, BeginPop, LoadTail(|s.pushed|), []);
    } else {
      FourSteps(s, BeginPop, LoadTail(|s.pushed|), ReadSlot, PublishHead);
    }
    RunKeepsInv(s, PopSteps(s));
  }
}
