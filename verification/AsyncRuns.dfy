/** Runs of the asynchronous writer: submissions, batches, hand-overs to the batch writer one message
    at a time, and the final drain, in any order its lock allows. */
module AsyncRuns {
  import opened AsyncQueue
  import opened Sequences

  datatype Phase = Batching | Drained

  /** `inFlight` is the part of the current batch not yet handed over; `accepted` and `handed` are
      histories of what `submit` took in and of what was handed on. */
  datatype State = State(
    queues: seq<Partition>, inFlight: seq<Message>, phase: Phase,
    processed: nat, errors: nat, refused: nat,
    accepted: seq<Message>, handed: seq<Message>)

  datatype Step =
    | Submit(m: Message)
    | Dequeue
    | HandOver(ok: bool)
    | Drain

  const START := State([], [], Batching, 0, 0, 0, [], [])

  /** Whether `t` can follow `s` by the given step. */
  ghost predicate Next(maxQueueSize: nat, batchSize: nat, s: State, step: Step, t: State) {
    match step
    case Submit(m) =>
      if Total(s.queues) >= maxQueueSize then t == s.(refused := s.refused + 1)
      else SubmitSpec(s.queues, m, t.queues) && t == s.(queues := t.queues, accepted := s.accepted + [m])
    case Dequeue =>
      && s.phase == Batching && s.inFlight == [] && WellFormed(s.queues)
      && DequeueSpec(s.queues, batchSize, t.inFlight, t.queues)
      && t == s.(queues := t.queues, inFlight := t.inFlight)
    case HandOver(ok) =>
      && s.inFlight != []
      && t == s.(inFlight := s.inFlight[1..], handed := s.handed + [s.inFlight[0]],
                 processed := if ok then s.processed + 1 else s.processed,
                 errors := if ok then s.errors else s.errors + 1)
    case Drain =>
      && s.phase == Batching && s.inFlight == []
      && t == s.(queues := [], inFlight := Flatten(s.queues), phase := Drained)
  }

  ghost predicate IsRun(maxQueueSize: nat, batchSize: nat, states: seq<State>, steps: seq<Step>) {
    && |states| == |steps| + 1 && states[0] == START
    && forall i :: 0 <= i < |steps| ==> Next(maxQueueSize, batchSize, states[i], steps[i], states[i + 1])
  }

  /** Everybody's messages, in order: handed on, in flight, waiting. */
  ghost predicate InOrder(s: State) {
    forall r :: OfRegion(s.handed, r) + OfRegion(s.inFlight, r) + Waiting(s.queues, r) == OfRegion(s.accepted, r)
  }

  ghost predicate Inv(maxQueueSize: nat, s: State) {
    && WellFormed(s.queues) && Total(s.queues) <= maxQueueSize
    && |s.accepted| == Total(s.queues) + |s.inFlight| + s.processed + s.errors
    && |s.handed| == s.processed + s.errors
    && InOrder(s)
  }

  lemma SubmitKeepsInv(maxQueueSize: nat, batchSize: nat, s: State, m: Message, t: State)
    requires Inv(maxQueueSize, s) && Next(maxQueueSize, batchSize, s, Submit(m), t)
    ensures Inv(maxQueueSize, t)
  {
    if Total(s.queues) < maxQueueSize {
      forall r
        ensures OfRegion(t.handed, r) + OfRegion(t.inFlight, r) + Waiting(t.queues, r) == OfRegion(t.accepted, r) {
        OfRegionAppends(s.accepted, [m], r);
        OneOfRegion(m, r);
        Associate(OfRegion(s.handed, r) + OfRegion(s.inFlight, r), Waiting(s.queues, r), OfRegion([m], r));
      }
    }
  }

  lemma DequeueKeepsInv(maxQueueSize: nat, batchSize: nat, s: State, t: State)
    requires Inv(maxQueueSize, s) && Next(maxQueueSize, batchSize, s, Dequeue, t)
    ensures Inv(maxQueueSize, t)
  {
  }

  lemma HandOverKeepsInv(maxQueueSize: nat, batchSize: nat, s: State, ok: bool, t: State)
    requires Inv(maxQueueSize, s) && Next(maxQueueSize, batchSize, s, HandOver(ok), t)
    ensures Inv(maxQueueSize, t)
  {
    var m, rest := s.inFlight[0], s.inFlight[1..];
    FirstAndRest(s.inFlight);
    forall r ensures OfRegion(t.handed, r) + OfRegion(t.inFlight, r) + Waiting(t.queues, r) == OfRegion(t.accepted, r) {
      OfRegionAppends(s.handed, [m], r);
      OfRegionAppends([m], rest, r);
      Associate(OfRegion(s.handed, r), OfRegion([m], r), OfRegion(rest, r));
    }
  }

  /** Draining keeps each region's order. */
  lemma {:induction false} FlattenOfRegion(qs: seq<Partition>, r: Region)
    requires WellFormed(qs)
    ensures OfRegion(Flatten(qs), r) == Waiting(qs, r)
    ensures |Flatten(qs)| == Total(qs)
    decreases |qs|
  {
    if qs != [] {
      WellFormedTail(qs);
      FlattenOfRegion(qs[1..], r);
      OfRegionAppends(qs[0].messages, Flatten(qs[1..]), r);
      OfOneRegion(qs[0].messages, qs[0].region, r);
      if qs[0].region == r {
        AboveIsAbsent(qs[1..], r);
        AppendNothing(qs[0].messages);
      } else {
        AppendNothing(Waiting(qs[1..], r));
      }
    }
  }

  lemma {:induction false} OfOneRegion(ms: seq<Message>, region: Region, r: Region)
    requires forall k :: 0 <= k < |ms| ==> RegionOf(ms[k]) == region
    ensures OfRegion(ms, r) == if region == r then ms else []
    decreases |ms|
  {
    if ms != [] {
      OfOneRegion(ms[1..], region, r);
      FirstAndRest(ms);
    }
  }

  lemma DrainKeepsInv(maxQueueSize: nat, batchSize: nat, s: State, t: State)
    requires Inv(maxQueueSize, s) && Next(maxQueueSize, batchSize, s, Drain, t)
    ensures Inv(maxQueueSize, t)
  {
    FlattenOfRegion(s.queues, "");
    forall r ensures OfRegion(t.handed, r) + OfRegion(t.inFlight, r) + Waiting(t.queues, r) == OfRegion(t.accepted, r) {
      FlattenOfRegion(s.queues, r);
      AppendNothing(OfRegion(s.handed, r));
      AppendNothing(OfRegion(s.handed, r) + Waiting(s.queues, r));
    }
  }

  lemma StepKeepsInv(maxQueueSize: nat, batchSize: nat, s: State, step: Step, t: State)
    requires Inv(maxQueueSize, s) && Next(maxQueueSize, batchSize, s, step, t)
    ensures Inv(maxQueueSize, t)
  {
    match step
    case Submit(m) => SubmitKeepsInv(maxQueueSize, batchSize, s, m, t);
    case Dequeue => DequeueKeepsInv(maxQueueSize, batchSize, s, t);
    case HandOver(ok) => HandOverKeepsInv(maxQueueSize, batchSize, s, ok, t);
    case Drain => DrainKeepsInv(maxQueueSize, batchSize, s, t);
  }

  lemma {:induction false} RunKeepsInv(maxQueueSize: nat, batchSize: nat, states: seq<State>, steps: seq<Step>, k: nat)
    requires IsRun(maxQueueSize, batchSize, states, steps) && k < |states|
    ensures Inv(maxQueueSize, states[k])
    decreases k
  {
    if k > 0 {
      RunKeepsInv(maxQueueSize, batchSize, states, steps, k - 1);
      StepKeepsInv(maxQueueSize, batchSize, states[k - 1], steps[k - 1], states[k]);
    }
  }

  /** In every state of every run: the queue stays within its bound and holds no empty entry; every
      accepted message is waiting, in flight, processed or counted as a write error; and what was
      handed on of a region is a prefix of what was accepted of it. */
  lemma EveryRunConserves(maxQueueSize: nat, batchSize: nat, states: seq<State>, steps: seq<Step>, k: nat, r: Region)
    requires IsRun(maxQueueSize, batchSize, states, steps) && k < |states|
    ensures var s := states[k];
            && Total(s.queues) <= maxQueueSize && NoneEmpty(s.queues)
            && |s.accepted| == Total(s.queues) + |s.inFlight| + s.processed + s.errors
            && OfRegion(s.handed, r) <= OfRegion(s.accepted, r)
            && OfRegion(s.handed, r) + OfRegion(s.inFlight, r) + Waiting(s.queues, r) == OfRegion(s.accepted, r)
  {
    RunKeepsInv(maxQueueSize, batchSize, states, steps, k);
    var s := states[k];
    PrefixOfSum(OfRegion(s.handed, r), OfRegion(s.inFlight, r) + Waiting(s.queues, r));
    Associate(OfRegion(s.handed, r), OfRegion(s.inFlight, r), Waiting(s.queues, r));
  }

  /** After the drain and its hand-overs, with no submission since, everything accepted was handed
      on: nothing stays behind. */
  lemma {:induction false} DrainLeavesNothing(maxQueueSize: nat, batchSize: nat, states: seq<State>, steps: seq<Step>,
      d: nat, k: nat)
    requires IsRun(maxQueueSize, batchSize, states, steps) && d < k < |states| && steps[d] == Drain
    requires forall i :: d < i < k ==> !steps[i].Submit?
    ensures states[k].queues == [] && states[k].phase == Drained
    ensures states[k].inFlight == [] ==> |states[k].accepted| == states[k].processed + states[k].errors
    decreases k
  {
    RunKeepsInv(maxQueueSize, batchSize, states, steps, k);
    if k > d + 1 {
      DrainLeavesNothing(maxQueueSize, batchSize, states, steps, d, k - 1);
      assert Next(maxQueueSize, batchSize, states[k - 1], steps[k - 1], states[k]);
    } else {
      assert Next(maxQueueSize, batchSize, states[d], steps[d], states[k]);
    }
  }
}
