/** With more regions waiting than a batch has messages, a region can wait for ever: every batch starts
    again at the first region, and submissions keep the regions before it filled. */
module AsyncStarvation {
  import opened AsyncQueue
  import opened AsyncRuns
  import opened Sequences

  // ---------------------------------------------------------------- one message in every region

  ghost predicate Ascending(ms: seq<Message>) {
    forall i, j :: 0 <= i < j < |ms| ==> Less(RegionOf(ms[i]), RegionOf(ms[j]))
  }

  /** The map with one message in each of some regions. */
  function Singles(ms: seq<Message>): seq<Partition> {
    seq(|ms|, i requires 0 <= i < |ms| => Partition(RegionOf(ms[i]), [ms[i]]))
  }

  lemma SinglesTail(ms: seq<Message>)
    requires ms != []
    ensures Singles(ms)[1..] == Singles(ms[1..])
  {
  }

  lemma SinglesAreWellFormed(ms: seq<Message>)
    requires Ascending(ms)
    ensures WellFormed(Singles(ms))
  {
  }

  lemma {:induction false} NoneOfRegion(ms: seq<Message>, r: Region)
    requires forall i :: 0 <= i < |ms| ==> RegionOf(ms[i]) != r
    ensures OfRegion(ms, r) == []
    decreases |ms|
  {
    if ms != [] {
      NoneOfRegion(ms[1..], r);
    }
  }

  lemma LaterAreOthers(ms: seq<Message>)
    requires ms != [] && Ascending(ms)
    ensures OfRegion(ms[1..], RegionOf(ms[0])) == []
  {
    forall i | 0 <= i < |ms[1..]| ensures RegionOf(ms[1..][i]) != RegionOf(ms[0]) {
      assert Less(RegionOf(ms[0]), RegionOf(ms[i + 1]));
      LessIsIrreflexive(RegionOf(ms[0]));
    }
    NoneOfRegion(ms[1..], RegionOf(ms[0]));
  }

  lemma {:induction false} SinglesHold(ms: seq<Message>, r: Region)
    requires Ascending(ms)
    ensures Total(Singles(ms)) == |ms| && Waiting(Singles(ms), r) == OfRegion(ms, r)
    decreases |ms|
  {
    if ms != [] {
      SinglesTail(ms);
      SinglesHold(ms[1..], r);
      LaterAreOthers(ms);
      AppendNothing(OfRegion(ms[1..], r));
    }
  }

  lemma {:induction false} RoundOfSingles(ms: seq<Message>)
    requires NoneEmpty(Singles(ms))
    ensures Heads(Singles(ms)) == ms && Tails(Singles(ms)) == []
    decreases |ms|
  {
    if ms != [] {
      SinglesTail(ms);
      RoundOfSingles(ms[1..]);
      FirstAndRest(ms);
    }
  }

  /** A message for a new region just below the last one. */
  lemma SubmitSingle(lows: seq<Message>, m: Message, high: Message)
    requires Ascending(lows + [m] + [high]) && Ascending(lows + [high])
    ensures SubmitSpec(Singles(lows + [high]), m, Singles(lows + [m] + [high]))
  {
    var before, after := lows + [high], lows + [m] + [high];
    SinglesAreWellFormed(after);
    SinglesHold(before, "");
    SinglesHold(after, "");
    forall r
      ensures Waiting(Singles(after), r) == Waiting(Singles(before), r) + (if r == RegionOf(m) then [m] else [])
    {
      SinglesHold(before, r);
      SinglesHold(after, r);
      OneMoreOfRegion(lows, m, high, r);
    }
  }

  lemma OneMoreOfRegion(lows: seq<Message>, m: Message, high: Message, r: Region)
    requires Ascending(lows + [m] + [high])
    ensures OfRegion(lows + [m] + [high], r) == OfRegion(lows + [high], r) + (if r == RegionOf(m) then [m] else [])
  {
    OfRegionAppends(lows, [high], r);
    OfRegionAppends(lows + [m], [high], r);
    OfRegionAppends(lows, [m], r);
    OneOfRegion(m, r);
    OneOfRegion(high, r);
    if r == RegionOf(m) {
      OnlyOne(lows, m, high);
    }
    AppendNothing(OfRegion(lows, r));
    AppendNothing(OfRegion(lows + [high], r));
  }

  lemma OnlyOne(lows: seq<Message>, m: Message, high: Message)
    requires Ascending(lows + [m] + [high])
    ensures OfRegion(lows, RegionOf(m)) == [] && RegionOf(high) != RegionOf(m)
  {
    var all := lows + [m] + [high];
    LessIsIrreflexive(RegionOf(m));
    assert all[|lows|] == m && all[|lows| + 1] == high;
    forall i | 0 <= i < |lows| ensures RegionOf(lows[i]) != RegionOf(m) {
      assert all[i] == lows[i];
    }
    NoneOfRegion(lows, RegionOf(m));
  }

  /** A batch that takes every region but the last. */
  lemma DequeueLows(lows: seq<Message>, high: Message)
    requires Ascending(lows + [high])
    ensures WellFormed(Singles(lows + [high]))
    ensures DequeueSpec(Singles(lows + [high]), |lows|, lows, Singles([high]))
  {
    var all := lows + [high];
    SinglesAreWellFormed(all);
    SinglesAreWellFormed([high]);
    SinglesHold(all, "");
    SinglesHold([high], "");
    RoundOfSingles(all);
    RoundRobinLength(Singles(all));
    AppendNothing(all);
    SplitAppend(lows, [high]);
    forall r ensures OfRegion(lows, r) + Waiting(Singles([high]), r) == Waiting(Singles(all), r) {
      SinglesHold(all, r);
      SinglesHold([high], r);
      OfRegionAppends(lows, [high], r);
    }
  }

  // ---------------------------------------------------------------- the run

  /** A region's first message waits in the queue, and none of the region was handed on. */
  ghost predicate PassedOver(s: State, high: Message) {
    && s.phase == Batching && Waiting(s.queues, RegionOf(high)) == [high]
    && OfRegion(s.inFlight, RegionOf(high)) == [] && OfRegion(s.handed, RegionOf(high)) == []
  }

  /** A run in which the message is accepted first and passed over ever after. */
  ghost predicate Starves(maxQueueSize: nat, batchSize: nat, states: seq<State>, steps: seq<Step>, high: Message) {
    && IsRun(maxQueueSize, batchSize, states, steps) && |steps| > 0 && steps[0] == Submit(high)
    && forall i :: 1 <= i < |states| ==> PassedOver(states[i], high)
  }

  function Batches(steps: seq<Step>): nat {
    if steps == [] then 0 else Batches(steps[..|steps| - 1]) + (if steps[|steps| - 1] == Dequeue then 1 else 0)
  }

  lemma StepOfLonger(maxQueueSize: nat, batchSize: nat, states: seq<State>, steps: seq<Step>, step: Step, t: State,
      i: nat)
    requires IsRun(maxQueueSize, batchSize, states, steps) && i <= |steps|
    requires Next(maxQueueSize, batchSize, states[|states| - 1], step, t)
    ensures Next(maxQueueSize, batchSize, (states + [t])[i], (steps + [step])[i], (states + [t])[i + 1])
  {
    if i < |steps| {
      assert Next(maxQueueSize, batchSize, states[i], steps[i], states[i + 1]);
    }
  }

  lemma LongerRun(maxQueueSize: nat, batchSize: nat, states: seq<State>, steps: seq<Step>, step: Step, t: State)
    requires IsRun(maxQueueSize, batchSize, states, steps)
    requires Next(maxQueueSize, batchSize, states[|states| - 1], step, t)
    ensures IsRun(maxQueueSize, batchSize, states + [t], steps + [step])
  {
    var all, more := states + [t], steps + [step];
    forall i | 0 <= i < |more| ensures Next(maxQueueSize, batchSize, all[i], more[i], all[i + 1]) {
      StepOfLonger(maxQueueSize, batchSize, states, steps, step, t, i);
    }
  }

  lemma OneStepMore(maxQueueSize: nat, batchSize: nat, states: seq<State>, steps: seq<Step>, high: Message,
      step: Step, t: State)
    requires Starves(maxQueueSize, batchSize, states, steps, high)
    requires Next(maxQueueSize, batchSize, states[|states| - 1], step, t) && PassedOver(t, high)
    ensures Starves(maxQueueSize, batchSize, states + [t], steps + [step], high)
    ensures Batches(steps + [step]) == Batches(steps) + (if step == Dequeue then 1 else 0)
  {
    LongerRun(maxQueueSize, batchSize, states, steps, step, t);
    SplitAppend(steps, [step]);
  }

  /** Where a run stands between two batches, and how it got on: some lower regions are filled, the rest
      of the last batch is still to be handed over. */
  ghost predicate At(s: State, filled: seq<Message>, inFlight: seq<Message>, high: Message) {
    s.queues == Singles(filled + [high]) && s.inFlight == inFlight && PassedOver(s, high)
  }

  ghost predicate Stands(maxQueueSize: nat, batchSize: nat, states: seq<State>, steps: seq<Step>,
      filled: seq<Message>, inFlight: seq<Message>, high: Message) {
    Starves(maxQueueSize, batchSize, states, steps, high) && At(states[|states| - 1], filled, inFlight, high)
  }

  lemma StandsAfter(maxQueueSize: nat, batchSize: nat, states: seq<State>, steps: seq<Step>, step: Step, t: State,
      filled: seq<Message>, inFlight: seq<Message>, high: Message)
    requires Starves(maxQueueSize, batchSize, states, steps, high) && At(t, filled, inFlight, high)
    requires Next(maxQueueSize, batchSize, states[|states| - 1], step, t)
    ensures Stands(maxQueueSize, batchSize, states + [t], steps + [step], filled, inFlight, high)
    ensures Batches(steps + [step]) == Batches(steps) + (if step == Dequeue then 1 else 0)
  {
    OneStepMore(maxQueueSize, batchSize, states, steps, high, step, t);
    SplitAppend(states, [t]);
  }

  lemma PrefixIsAscending(lows: seq<Message>, n: nat, high: Message)
    requires n <= |lows| && Ascending(lows + [high])
    ensures Ascending(lows[..n] + [high])
  {
    var all, part := lows + [high], lows[..n] + [high];
    forall i, j | 0 <= i < j < |part| ensures Less(RegionOf(part[i]), RegionOf(part[j])) {
      assert part[i] == all[i];
      assert part[j] == if j < n then all[j] else all[|lows|];
    }
  }

  lemma SubmitLow(maxQueueSize: nat, batchSize: nat, s: State, lows: seq<Message>, n: nat, high: Message)
      returns (t: State)
    requires Ascending(lows + [high]) && n < |lows| < maxQueueSize
    requires At(s, lows[..n], [], high)
    ensures Next(maxQueueSize, batchSize, s, Submit(lows[n]), t) && At(t, lows[..n + 1], [], high)
  {
    var before, after := lows[..n], lows[..n + 1];
    NextPrefix(lows, n);
    PrefixIsAscending(lows, n, high);
    PrefixIsAscending(lows, n + 1, high);
    SubmitSingle(before, lows[n], high);
    SinglesHold(before + [high], "");
    t := s.(queues := Singles(after + [high]), accepted := s.accepted + [lows[n]]);
    SinglesHold(after + [high], RegionOf(high));
    LowsAreOthers(after, high);
  }

  lemma LowsAreOthers(lows: seq<Message>, high: Message)
    requires Ascending(lows + [high])
    ensures OfRegion(lows, RegionOf(high)) == [] && OfRegion(lows + [high], RegionOf(high)) == [high]
    ensures forall i :: 0 <= i < |lows| ==> RegionOf(lows[i]) != RegionOf(high)
  {
    var all := lows + [high];
    LessIsIrreflexive(RegionOf(high));
    assert all[|lows|] == high;
    forall i | 0 <= i < |lows| ensures RegionOf(lows[i]) != RegionOf(high) {
      assert all[i] == lows[i];
    }
    NoneOfRegion(lows, RegionOf(high));
    OfRegionAppends(lows, [high], RegionOf(high));
    OneOfRegion(high, RegionOf(high));
  }

  lemma FillNext(maxQueueSize: nat, states: seq<State>, steps: seq<Step>, lows: seq<Message>, n: nat, high: Message)
      returns (states': seq<State>, steps': seq<Step>)
    requires Ascending(lows + [high]) && n < |lows| < maxQueueSize
    requires Stands(maxQueueSize, |lows|, states, steps, lows[..n], [], high)
    ensures Stands(maxQueueSize, |lows|, states', steps', lows[..n + 1], [], high) && Batches(steps') == Batches(steps)
  {
    var t := SubmitLow(maxQueueSize, |lows|, states[|states| - 1], lows, n, high);
    states', steps' := states + [t], steps + [Submit(lows[n])];
    StandsAfter(maxQueueSize, |lows|, states, steps, Submit(lows[n]), t, lows[..n + 1], [], high);
  }

  /** Submissions fill the lower regions. */
  lemma {:induction false} Fill(maxQueueSize: nat, states: seq<State>, steps: seq<Step>, lows: seq<Message>, n: nat,
      high: Message) returns (states': seq<State>, steps': seq<Step>)
    requires Ascending(lows + [high]) && n <= |lows| < maxQueueSize
    requires Stands(maxQueueSize, |lows|, states, steps, [], [], high)
    ensures Stands(maxQueueSize, |lows|, states', steps', lows[..n], [], high) && Batches(steps') == Batches(steps)
    decreases n
  {
    if n == 0 {
      assert lows[..0] == [];
      states', steps' := states, steps;
    } else {
      states', steps' := Fill(maxQueueSize, states, steps, lows, n - 1, high);
      states', steps' := FillNext(maxQueueSize, states', steps', lows, n - 1, high);
    }
  }

  /** A batch takes all of them. */
  lemma TakeLows(maxQueueSize: nat, s: State, lows: seq<Message>, high: Message) returns (t: State)
    requires Ascending(lows + [high]) && At(s, lows, [], high)
    ensures Next(maxQueueSize, |lows|, s, Dequeue, t) && At(t, [], lows, high)
  {
    DequeueLows(lows, high);
    t := s.(queues := Singles([high]), inFlight := lows);
    AppendNothing([high]);
    SinglesHold([high], RegionOf(high));
    OneOfRegion(high, RegionOf(high));
    LowsAreOthers(lows, high);
  }

  lemma TakeNext(maxQueueSize: nat, states: seq<State>, steps: seq<Step>, lows: seq<Message>, high: Message)
      returns (states': seq<State>, steps': seq<Step>)
    requires Ascending(lows + [high]) && Stands(maxQueueSize, |lows|, states, steps, lows, [], high)
    ensures Stands(maxQueueSize, |lows|, states', steps', [], lows, high) && Batches(steps') == Batches(steps) + 1
  {
    var t := TakeLows(maxQueueSize, states[|states| - 1], lows, high);
    states', steps' := states + [t], steps + [Dequeue];
    StandsAfter(maxQueueSize, |lows|, states, steps, Dequeue, t, [], lows, high);
  }

  lemma HandLow(maxQueueSize: nat, s: State, lows: seq<Message>, n: nat, high: Message) returns (t: State)
    requires Ascending(lows + [high]) && n < |lows| && At(s, [], lows[n..], high)
    ensures Next(maxQueueSize, |lows|, s, HandOver(true), t) && At(t, [], lows[n + 1..], high)
  {
    DropNext(lows, n);
    t := s.(inFlight := lows[n + 1..], handed := s.handed + [lows[n]], processed := s.processed + 1);
    LowsAreOthers(lows, high);
    OneOfRegion(lows[n], RegionOf(high));
    OfRegionAppends(s.handed, [lows[n]], RegionOf(high));
    NoneOfRegion(lows[n + 1..], RegionOf(high));
  }

  lemma HandNext(maxQueueSize: nat, states: seq<State>, steps: seq<Step>, lows: seq<Message>, n: nat, high: Message)
      returns (states': seq<State>, steps': seq<Step>)
    requires Ascending(lows + [high]) && n < |lows|
    requires Stands(maxQueueSize, |lows|, states, steps, [], lows[n..], high)
    ensures Stands(maxQueueSize, |lows|, states', steps', [], lows[n + 1..], high) && Batches(steps') == Batches(steps)
  {
    var t := HandLow(maxQueueSize, states[|states| - 1], lows, n, high);
    states', steps' := states + [t], steps + [HandOver(true)];
    StandsAfter(maxQueueSize, |lows|, states, steps, HandOver(true), t, [], lows[n + 1..], high);
  }

  /** They are handed over one by one. */
  lemma {:induction false} HandAll(maxQueueSize: nat, states: seq<State>, steps: seq<Step>, lows: seq<Message>, n: nat,
      high: Message) returns (states': seq<State>, steps': seq<Step>)
    requires Ascending(lows + [high]) && n <= |lows|
    requires Stands(maxQueueSize, |lows|, states, steps, [], lows, high)
    ensures Stands(maxQueueSize, |lows|, states', steps', [], lows[n..], high) && Batches(steps') == Batches(steps)
    decreases n
  {
    if n == 0 {
      WholeSlice(lows);
      states', steps' := states, steps;
    } else {
      states', steps' := HandAll(maxQueueSize, states, steps, lows, n - 1, high);
      states', steps' := HandNext(maxQueueSize, states', steps', lows, n - 1, high);
    }
  }

  /** One batch more, from a queue with the waiting region alone to the same. */
  lemma OneBatchMore(maxQueueSize: nat, states: seq<State>, steps: seq<Step>, lows: seq<Message>, high: Message)
      returns (states': seq<State>, steps': seq<Step>)
    requires Ascending(lows + [high]) && |lows| < maxQueueSize
    requires Stands(maxQueueSize, |lows|, states, steps, [], [], high)
    ensures Stands(maxQueueSize, |lows|, states', steps', [], [], high) && Batches(steps') == Batches(steps) + 1
  {
    WholeSlice(lows);
    states', steps' := Fill(maxQueueSize, states, steps, lows, |lows|, high);
    states', steps' := TakeNext(maxQueueSize, states', steps', lows, high);
    states', steps' := HandAll(maxQueueSize, states', steps', lows, |lows|, high);
  }

  lemma FirstSubmission(high: Message)
    ensures SubmitSpec([], high, Singles([high])) && Waiting(Singles([high]), RegionOf(high)) == [high]
  {
    SinglesAreWellFormed([high]);
    SinglesHold([high], RegionOf(high));
    OneOfRegion(high, RegionOf(high));
    forall r ensures Waiting(Singles([high]), r) == Waiting([], r) + (if r == RegionOf(high) then [high] else []) {
      SinglesHold([high], r);
      OneOfRegion(high, r);
    }
  }

  /** The first step: the message is accepted. */
  lemma HighIsAccepted(maxQueueSize: nat, batchSize: nat, high: Message) returns (s: State)
    requires maxQueueSize > 0
    ensures Starves(maxQueueSize, batchSize, [START, s], [Submit(high)], high) && At(s, [], [], high)
  {
    s := START.(queues := Singles([high]), accepted := [high]);
    AppendNothing([high]);
    FirstSubmission(high);
    assert Next(maxQueueSize, batchSize, START, Submit(high), s);
  }

  /** For every batch size, as many regions before a waiting one, room for one message of each, and every
      number of batches, there is a run with that many batches in which the waiting region is passed over
      by all of them. */
  lemma {:induction false} WaitingRegionIsPassedOver(maxQueueSize: nat, lows: seq<Message>, high: Message, n: nat)
      returns (states: seq<State>, steps: seq<Step>)
    requires Ascending(lows + [high]) && |lows| < maxQueueSize
    ensures Stands(maxQueueSize, |lows|, states, steps, [], [], high) && Batches(steps) == n
    decreases n
  {
    if n == 0 {
      var s := HighIsAccepted(maxQueueSize, |lows|, high);
      states, steps := [START, s], [Submit(high)];
    } else {
      states, steps := WaitingRegionIsPassedOver(maxQueueSize, lows, high, n - 1);
      states, steps := OneBatchMore(maxQueueSize, states, steps, lows, high);
    }
  }
}
