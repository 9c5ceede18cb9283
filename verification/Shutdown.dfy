/** The asynchronous writer together with the batch writer behind it, up to the end of both threads: what
    reaches a flush, and what stays behind when the batch writer's thread ends first. */
module Shutdown {
  import opened AsyncQueue
  import opened Sequences
  import A = AsyncRuns
  import B = BatchWriterRuns

  /** The front: the queue and its thread.  Behind it the batch writer with its own thread.  Both threads
      leave their loops some time after `running` is cleared. */
  datatype System = System(front: A.State, writer: B.Writer<Message>, running: bool)

  const START := System(A.START, B.Idle(), true)

  datatype Step =
    | Submit(m: Message)
    | Dequeue
    | HandOver(valid: bool)    // the next message of the batch in hand, and whether its payload parses
    | Stop                     // `running` is cleared
    | Drain
    | Take
    | Flush(kept: bool)
    | Exit

  function ItemOf(m: Message, valid: bool): B.Item<Message> { B.Item(m.id, valid, m) }

  /** What the batch writer says to the next message in hand. */
  function Answer(maxQueueSize: nat, s: System, valid: bool): B.Outcome
    requires s.front.inFlight != []
  {
    B.OutcomeOf(maxQueueSize, s.writer, ItemOf(s.front.inFlight[0], valid))
  }

  /** A step of the batch writer's own thread. */
  predicate WriterStep(maxQueueSize: nat, batchSize: nat, s: System, a: B.Action<Message>, t: System) {
    B.Enabled(s.writer, a) && t == s.(writer := B.Apply(maxQueueSize, batchSize, s.writer, a))
  }

  ghost predicate FrontStep(maxQueueSize: nat, batchSize: nat, s: System, step: A.Step, t: System) {
    A.Next(maxQueueSize, batchSize, s.front, step, t.front) && t == s.(front := t.front)
  }

  /** One message goes from the front to the batch writer. */
  ghost predicate HandsOver(maxQueueSize: nat, batchSize: nat, s: System, valid: bool, t: System) {
    && s.front.inFlight != []
    && A.Next(maxQueueSize, batchSize, s.front, A.HandOver(Answer(maxQueueSize, s, valid) != B.Refused), t.front)
    && t.writer == B.Apply(maxQueueSize, batchSize, s.writer, B.Submit(ItemOf(s.front.inFlight[0], valid)))
    && t.running == s.running
  }

  ghost predicate Next(maxQueueSize: nat, batchSize: nat, s: System, step: Step, t: System) {
    match step
    case Submit(m) => FrontStep(maxQueueSize, batchSize, s, A.Submit(m), t)
    case Dequeue => FrontStep(maxQueueSize, batchSize, s, A.Dequeue, t)
    case HandOver(valid) => HandsOver(maxQueueSize, batchSize, s, valid, t)
    case Stop => t == s.(running := false)
    case Drain => !s.running && FrontStep(maxQueueSize, batchSize, s, A.Drain, t)
    case Take => WriterStep(maxQueueSize, batchSize, s, B.Take, t)
    case Flush(kept) => WriterStep(maxQueueSize, batchSize, s, B.Flush(kept), t)
    case Exit => !s.running && WriterStep(maxQueueSize, batchSize, s, B.Exit, t)
  }

  ghost predicate IsRun(maxQueueSize: nat, batchSize: nat, states: seq<System>, steps: seq<Step>) {
    && |states| == |steps| + 1 && states[0] == START
    && forall i :: 0 <= i < |steps| ==> Next(maxQueueSize, batchSize, states[i], steps[i], states[i + 1])
  }

  // ---------------------------------------------------------------- the invariant

  ghost predicate Inv(maxQueueSize: nat, s: System) {
    A.Inv(maxQueueSize, s.front) && B.Inv(maxQueueSize, s.writer) && s.front.processed == |s.writer.acknowledged|
  }

  lemma HandOverKeepsInv(maxQueueSize: nat, batchSize: nat, s: System, valid: bool, t: System)
    requires Inv(maxQueueSize, s) && HandsOver(maxQueueSize, batchSize, s, valid, t)
    ensures Inv(maxQueueSize, t)
  {
    var ok := Answer(maxQueueSize, s, valid) != B.Refused;
    A.StepKeepsInv(maxQueueSize, batchSize, s.front, A.HandOver(ok), t.front);
    B.SubmitKeepsInv(maxQueueSize, batchSize, s.writer, ItemOf(s.front.inFlight[0], valid));
  }

  lemma FrontKeepsInv(maxQueueSize: nat, batchSize: nat, s: System, step: A.Step, t: System)
    requires Inv(maxQueueSize, s) && FrontStep(maxQueueSize, batchSize, s, step, t) && !step.HandOver?
    ensures Inv(maxQueueSize, t)
  {
    A.StepKeepsInv(maxQueueSize, batchSize, s.front, step, t.front);
  }

  lemma WriterKeepsInv(maxQueueSize: nat, batchSize: nat, s: System, a: B.Action<Message>, t: System)
    requires Inv(maxQueueSize, s) && WriterStep(maxQueueSize, batchSize, s, a, t) && !a.Submit?
    ensures Inv(maxQueueSize, t)
  {
    B.StepKeepsInv(maxQueueSize, batchSize, s.writer, a);
  }

  lemma StepKeepsInv(maxQueueSize: nat, batchSize: nat, s: System, step: Step, t: System)
    requires Inv(maxQueueSize, s) && Next(maxQueueSize, batchSize, s, step, t)
    ensures Inv(maxQueueSize, t)
  {
    match step
    case Submit(m) => FrontKeepsInv(maxQueueSize, batchSize, s, A.Submit(m), t);
    case Dequeue => FrontKeepsInv(maxQueueSize, batchSize, s, A.Dequeue, t);
    case HandOver(valid) => HandOverKeepsInv(maxQueueSize, batchSize, s, valid, t);
    case Stop =>
    case Drain => FrontKeepsInv(maxQueueSize, batchSize, s, A.Drain, t);
    case Take => WriterKeepsInv(maxQueueSize, batchSize, s, B.Take, t);
    case Flush(kept) => WriterKeepsInv(maxQueueSize, batchSize, s, B.Flush(kept), t);
    case Exit => WriterKeepsInv(maxQueueSize, batchSize, s, B.Exit, t);
  }

  lemma StartInv(maxQueueSize: nat)
    ensures Inv(maxQueueSize, START)
  {
    B.IdleInv<Message>(maxQueueSize);
  }

  lemma {:induction false} RunKeepsInv(maxQueueSize: nat, batchSize: nat, states: seq<System>, steps: seq<Step>, k: nat)
    requires IsRun(maxQueueSize, batchSize, states, steps) && k < |states|
    ensures Inv(maxQueueSize, states[k])
    decreases k
  {
    if k == 0 {
      StartInv(maxQueueSize);
    } else {
      RunKeepsInv(maxQueueSize, batchSize, states, steps, k - 1);
      StepKeepsInv(maxQueueSize, batchSize, states[k - 1], steps[k - 1], states[k]);
    }
  }

  // ---------------------------------------------------------------- what is queued when

  /** What a step adds to the batch writer's queue: the message handed over, unless it is refused or a
      recent duplicate. */
  function QueuedBy(maxQueueSize: nat, s: System, step: Step): seq<B.Item<Message>> {
    if step.HandOver? && s.front.inFlight != [] && Answer(maxQueueSize, s, step.valid) == B.Queued
    then [ItemOf(s.front.inFlight[0], step.valid)] else []
  }

  /** What each step of a run adds. */
  function Additions(maxQueueSize: nat, states: seq<System>, steps: seq<Step>): (parts: seq<seq<B.Item<Message>>>)
    requires |steps| <= |states|
    ensures |parts| == |steps|
  {
    seq(|steps|, i requires 0 <= i < |steps| => QueuedBy(maxQueueSize, states[i], steps[i]))
  }

  /** What the steps from one up to another add together, in order. */
  function QueuedFrom(maxQueueSize: nat, states: seq<System>, steps: seq<Step>, since: nat, until: nat)
      : seq<B.Item<Message>>
    requires since <= until <= |steps| <= |states|
  {
    Concat(Additions(maxQueueSize, states, steps)[since..until])
  }

  lemma QueuedNext(maxQueueSize: nat, states: seq<System>, steps: seq<Step>, since: nat, until: nat)
    requires since <= until < |steps| <= |states|
    ensures QueuedFrom(maxQueueSize, states, steps, since, until + 1)
         == QueuedFrom(maxQueueSize, states, steps, since, until) + QueuedBy(maxQueueSize, states[until], steps[until])
  {
    ConcatOfOneMore(Additions(maxQueueSize, states, steps), since, until);
  }

  /** Only the batch writer's own thread takes from its queue. */
  predicate IsTaking(step: Step) { step.Take? || step.Exit? }

  lemma StepQueues(maxQueueSize: nat, batchSize: nat, s: System, step: Step, t: System)
    requires Next(maxQueueSize, batchSize, s, step, t)
    ensures t.writer.queued == s.writer.queued + QueuedBy(maxQueueSize, s, step)
    ensures !IsTaking(step) ==> t.writer.pending == s.writer.pending + QueuedBy(maxQueueSize, s, step)
    ensures s.writer.exited ==> t.writer.exited && !IsTaking(step)
    ensures step == Exit ==> t.writer.exited && t.writer.pending == []
  {
    AppendNothing(s.writer.queued);
    AppendNothing(s.writer.pending);
  }

  lemma {:induction false} QueuedSoFar(maxQueueSize: nat, batchSize: nat, states: seq<System>, steps: seq<Step>, k: nat)
    requires IsRun(maxQueueSize, batchSize, states, steps) && k < |states|
    ensures states[k].writer.queued == QueuedFrom(maxQueueSize, states, steps, 0, k)
    decreases k
  {
    if k > 0 {
      QueuedSoFar(maxQueueSize, batchSize, states, steps, k - 1);
      QueuedNext(maxQueueSize, states, steps, 0, k - 1);
      StepQueues(maxQueueSize, batchSize, states[k - 1], steps[k - 1], states[k]);
    }
  }

  // ---------------------------------------------------------------- the main results

  /** In every state of every run: what was flushed, what is being flushed and what is pending together are
      exactly the messages that the batch writer queued, in the order they were handed over; and every
      message counted as processed was acknowledged by it. */
  lemma FlushedInOrder(maxQueueSize: nat, batchSize: nat, states: seq<System>, steps: seq<Step>, k: nat)
    requires IsRun(maxQueueSize, batchSize, states, steps) && k < |states|
    ensures var w := states[k].writer;
            && w.flushed + w.flushing + w.pending == QueuedFrom(maxQueueSize, states, steps, 0, k)
            && states[k].front.processed == |w.acknowledged|
  {
    RunKeepsInv(maxQueueSize, batchSize, states, steps, k);
    QueuedSoFar(maxQueueSize, batchSize, states, steps, k);
  }

  lemma StepAt(maxQueueSize: nat, batchSize: nat, states: seq<System>, steps: seq<Step>, i: nat)
    requires IsRun(maxQueueSize, batchSize, states, steps) && i < |steps|
    ensures var s, step, t := states[i], steps[i], states[i + 1];
            && (s.writer.exited ==>
                 t.writer.exited && t.writer.pending == s.writer.pending + QueuedBy(maxQueueSize, s, step))
            && (step == Exit ==> t.writer.exited && t.writer.pending == [])
  {
    StepQueues(maxQueueSize, batchSize, states[i], steps[i], states[i + 1]);
  }

  lemma {:induction false} StaysTrue(flags: seq<bool>, since: nat, k: nat)
    requires since <= k < |flags| && flags[since]
    requires forall i :: since <= i < k ==> (flags[i] ==> flags[i + 1])
    ensures flags[k]
    decreases k
  {
    if k > since {
      StaysTrue(flags, since, k - 1);
    }
  }

  function Exits(states: seq<System>): seq<bool> {
    seq(|states|, i requires 0 <= i < |states| => states[i].writer.exited)
  }

  lemma StaysExited(maxQueueSize: nat, batchSize: nat, states: seq<System>, steps: seq<Step>, e: nat, k: nat)
    requires IsRun(maxQueueSize, batchSize, states, steps) && e < k < |states| && steps[e] == Exit
    ensures states[k].writer.exited
  {
    var flags := Exits(states);
    StepAt(maxQueueSize, batchSize, states, steps, e);
    forall i | e + 1 <= i < k ensures flags[i] ==> flags[i + 1] {
      StepAt(maxQueueSize, batchSize, states, steps, i);
    }
    StaysTrue(flags, e + 1, k);
  }

  function Pendings(states: seq<System>): seq<seq<B.Item<Message>>> {
    seq(|states|, i requires 0 <= i < |states| => states[i].writer.pending)
  }

  /** Once the batch writer's thread has left its loop, exactly what was queued since is pending. */
  lemma PendingAfterExit(maxQueueSize: nat, batchSize: nat, states: seq<System>, steps: seq<Step>, e: nat, k: nat)
    requires IsRun(maxQueueSize, batchSize, states, steps) && e < k < |states| && steps[e] == Exit
    ensures states[k].writer.pending == QueuedFrom(maxQueueSize, states, steps, e + 1, k)
  {
    var sums, parts := Pendings(states), Additions(maxQueueSize, states, steps);
    StepAt(maxQueueSize, batchSize, states, steps, e);
    forall i | e + 1 <= i < k ensures sums[i + 1] == sums[i] + parts[i] {
      StaysExited(maxQueueSize, batchSize, states, steps, e, i);
      StepAt(maxQueueSize, batchSize, states, steps, i);
    }
    Accumulates(sums, parts, e + 1, k);
  }

  lemma NoneQueued(maxQueueSize: nat, states: seq<System>, steps: seq<Step>, since: nat, until: nat)
    requires since <= until <= |steps| <= |states|
    ensures QueuedFrom(maxQueueSize, states, steps, since, until) == []
       <==> forall i :: since <= i < until ==> QueuedBy(maxQueueSize, states[i], steps[i]) == []
  {
    var parts := Additions(maxQueueSize, states, steps);
    ConcatIsEmpty(parts[since..until]);
    forall i | since <= i < until
      ensures parts[since..until][i - since] == QueuedBy(maxQueueSize, states[i], steps[i])
    {
    }
    assert forall j :: 0 <= j < until - since ==> parts[since..until][j] == parts[since + j];
  }

  /** So nothing is left behind exactly when no message was queued after the batch writer's thread had left
      its loop. */
  lemma NothingIsLeftIff(maxQueueSize: nat, batchSize: nat, states: seq<System>, steps: seq<Step>, e: nat, k: nat)
    requires IsRun(maxQueueSize, batchSize, states, steps) && e < k < |states| && steps[e] == Exit
    ensures states[k].writer.pending == []
       <==> forall i :: e < i < k ==> QueuedBy(maxQueueSize, states[i], steps[i]) == []
  {
    PendingAfterExit(maxQueueSize, batchSize, states, steps, e, k);
    NoneQueued(maxQueueSize, states, steps, e + 1, k);
  }

  lemma CancelEnd<T>(a: seq<T>, b: seq<T>, rest: seq<T>)
    requires a + rest == b + rest
    ensures a == b
  {
    SplitAppend(a, rest);
    SplitAppend(b, rest);
    assert |a| == |b|;
  }

  /** What comes after never reaches a flush: flushed or in the final flush is exactly what was queued before
      the thread left its loop, however long the run goes on. */
  lemma FlushedAfterExit(maxQueueSize: nat, batchSize: nat, states: seq<System>, steps: seq<Step>, e: nat, k: nat)
    requires IsRun(maxQueueSize, batchSize, states, steps) && e < k < |states| && steps[e] == Exit
    ensures states[k].writer.flushed + states[k].writer.flushing == QueuedFrom(maxQueueSize, states, steps, 0, e + 1)
  {
    FlushedInOrder(maxQueueSize, batchSize, states, steps, k);
    PendingAfterExit(maxQueueSize, batchSize, states, steps, e, k);
    ConcatSplits(Additions(maxQueueSize, states, steps), e + 1, k);
    CancelEnd(states[k].writer.flushed + states[k].writer.flushing, QueuedFrom(maxQueueSize, states, steps, 0, e + 1),
              states[k].writer.pending);
  }

  // ---------------------------------------------------------------- a run that leaves a message behind

  function Stranding(m: Message): seq<Step> { [Submit(m), Stop, Exit, Drain, HandOver(true)] }

  lemma OneInQueue(m: Message)
    ensures SubmitSpec([], m, PushBack([], RegionOf(m), m)) && Flatten(PushBack([], RegionOf(m), m)) == [m]
  {
    PushBackMeetsSpec([], m);
    AppendNothing([m]);
  }

  function Submitted(m: Message): System {
    START.(front := A.START.(queues := PushBack([], RegionOf(m), m), accepted := [m]))
  }

  function Stopped(m: Message): System { Submitted(m).(running := false) }

  function Exited(m: Message): System { Stopped(m).(writer := B.Idle().(exited := true)) }

  function Drained(m: Message): System {
    Exited(m).(front := Exited(m).front.(queues := [], inFlight := [m], phase := A.Drained))
  }

  function Stranded(m: Message): System {
    var d := Drained(m);
    d.(front := d.front.(inFlight := [], handed := [m], processed := 1),
       writer := d.writer.(pending := [ItemOf(m, true)], queued := [ItemOf(m, true)], acknowledged := [m.id]))
  }

  lemma FirstSteps(maxQueueSize: nat, batchSize: nat, m: Message)
    requires maxQueueSize > 0
    ensures Next(maxQueueSize, batchSize, START, Submit(m), Submitted(m))
    ensures Next(maxQueueSize, batchSize, Submitted(m), Stop, Stopped(m))
  {
    OneInQueue(m);
  }

  lemma WriterExits(maxQueueSize: nat, batchSize: nat, m: Message)
    ensures Next(maxQueueSize, batchSize, Stopped(m), Exit, Exited(m))
  {
  }

  lemma QueueIsDrained(maxQueueSize: nat, batchSize: nat, m: Message)
    ensures Next(maxQueueSize, batchSize, Exited(m), Drain, Drained(m))
  {
    OneInQueue(m);
  }

  lemma LateHandOver(maxQueueSize: nat, batchSize: nat, m: Message)
    requires maxQueueSize > 0
    ensures Next(maxQueueSize, batchSize, Drained(m), HandOver(true), Stranded(m))
  {
    assert Answer(maxQueueSize, Drained(m), true) == B.Queued;
  }

  /** The batch writer's thread leaves its loop before the front drains its queue: the drained message is
      counted as processed, and stays pending. */
  lemma MessageIsLeftBehind(maxQueueSize: nat, batchSize: nat, m: Message) returns (states: seq<System>)
    requires maxQueueSize > 0
    ensures IsRun(maxQueueSize, batchSize, states, Stranding(m))
    ensures var s := states[5];
            && s.front.processed == 1 && s.front.errors == 0 && s.front.queues == [] && s.front.inFlight == []
            && s.front.phase == A.Drained && s.writer.exited
            && s.writer.pending == [ItemOf(m, true)] && s.writer.flushed == s.writer.flushing == []
  {
    states := [START, Submitted(m), Stopped(m), Exited(m), Drained(m), Stranded(m)];
    FirstSteps(maxQueueSize, batchSize, m);
    WriterExits(maxQueueSize, batchSize, m);
    QueueIsDrained(maxQueueSize, batchSize, m);
    LateHandOver(maxQueueSize, batchSize, m);
    FiveSteps(maxQueueSize, batchSize, states, Stranding(m));
  }

  lemma FiveSteps(maxQueueSize: nat, batchSize: nat, states: seq<System>, steps: seq<Step>)
    requires |states| == 6 && |steps| == 5 && states[0] == START
    requires Next(maxQueueSize, batchSize, states[0], steps[0], states[1])
    requires Next(maxQueueSize, batchSize, states[1], steps[1], states[2])
    requires Next(maxQueueSize, batchSize, states[2], steps[2], states[3])
    requires Next(maxQueueSize, batchSize, states[3], steps[3], states[4])
    requires Next(maxQueueSize, batchSize, states[4], steps[4], states[5])
    ensures IsRun(maxQueueSize, batchSize, states, steps)
  {
  }
}
