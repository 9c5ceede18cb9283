/** The personal comparator: telemetry server, real-time comparator and database worker as three
    threads over two ring buffers, one atomic access a step. */
module Comparator {
  import opened Spsc
  import opened Sequences

  // ---------------------------------------------------------------- events and records

  const NAME_SIZE := 32

  datatype Event = Event(profile: seq<char>, value: real, timestamp: int)

  datatype Record = Record(
    timestamp: int, profile: seq<char>, live: real, baseline: real, variance: real, active: bool)

  /** The loaded profile, and the hour of the local day of a time in seconds. */
  datatype Config = Config(name: seq<char>, threshold: real, baselines: seq<real>, hour: int -> int)

  ghost predicate Loaded(cfg: Config) {
    |cfg.baselines| == 24 && forall t :: 0 <= cfg.hour(t) < 24
  }

  /** `strncpy(dst, src, 31); dst[31] = '\0'`: up to 31 characters before the first NUL, the rest NUL. */
  function CopyName(src: seq<char>): (dst: seq<char>)
    ensures |dst| == NAME_SIZE
  {
    seq(NAME_SIZE, i requires i >= 0 => if i < NAME_SIZE - 1 && i < NameLength(src) then src[i] else '\0')
  }

  /** The characters before the first NUL. */
  function NameLength(src: seq<char>): (n: nat)
    ensures n <= |src|
    ensures n < |src| ==> src[n] == '\0'
    ensures forall i :: 0 <= i < n ==> src[i] != '\0'
  {
    if src == [] || src[0] == '\0' then 0 else 1 + NameLength(src[1..])
  }

  /** Copying a copied name changes nothing, so the comparator keeps the server's name. */
  lemma CopyIsIdempotent(src: seq<char>)
    ensures CopyName(CopyName(src)) == CopyName(src)
  {
    var dst := CopyName(src);
    var n := if NameLength(src) < NAME_SIZE - 1 then NameLength(src) else NAME_SIZE - 1;
    assert forall i :: 0 <= i < n ==> dst[i] == src[i] && dst[i] != '\0';
    assert dst[n] == '\0';
    assert NameLength(dst) == n;
  }

  /** Division of C's `long` by 1000: towards zero. */
  function Seconds(timestamp: int): int {
    if timestamp >= 0 then timestamp / 1000 else -((-timestamp) / 1000)
  }

  function Distance(x: real, y: real): real {
    if x >= y then x - y else y - x
  }

  /** The whole second that a time in milliseconds falls in; before 1970, the one after it. */
  predicate IsSecondOf(s: int, timestamp: int) {
    if timestamp >= 0 then 1000 * s <= timestamp < 1000 * (s + 1) else 1000 * (s - 1) < timestamp <= 1000 * s
  }

  lemma SecondsAreUnique(s: int, timestamp: int)
    ensures IsSecondOf(s, timestamp) <==> s == Seconds(timestamp)
  {
  }

  /** The baseline of the hour of the event's second. */
  ghost predicate IsBaseline(cfg: Config, timestamp: int, baseline: real)
    requires Loaded(cfg)
  {
    forall s :: IsSecondOf(s, timestamp) ==> baseline == cfg.baselines[cfg.hour(s)]
  }

  /** The record the comparator makes of an event. */
  function Compare(cfg: Config, event: Event): Record
    requires Loaded(cfg)
  {
    var baseline := cfg.baselines[cfg.hour(Seconds(event.timestamp))];
    var variance := Distance(event.value, baseline);
    Record(event.timestamp, CopyName(event.profile), event.value, baseline, variance, variance > cfg.threshold)
  }

  /** A record of an event says whose, when and what was measured, and how far that is from the hour's baseline. */
  ghost predicate Reports(cfg: Config, record: Record, event: Event)
    requires Loaded(cfg)
  {
    && record.timestamp == event.timestamp && record.live == event.value && record.profile == CopyName(event.profile)
    && IsBaseline(cfg, event.timestamp, record.baseline)
    && record.variance == (if event.value < record.baseline then record.baseline - event.value
                           else event.value - record.baseline)
    && (record.active <==>
         event.value > record.baseline + cfg.threshold || event.value < record.baseline - cfg.threshold)
  }

  lemma CompareMeaning(cfg: Config, event: Event)
    requires Loaded(cfg)
    ensures Reports(cfg, Compare(cfg, event), event)
  {
    forall s | IsSecondOf(s, event.timestamp)
      ensures Compare(cfg, event).baseline == cfg.baselines[cfg.hour(s)]
    {
      SecondsAreUnique(s, event.timestamp);
    }
  }

  method CopyProfile(src: seq<char>) returns (dst: seq<char>)
    ensures dst == CopyName(src)
    ensures |dst| == 32 && dst[31] == '\0'
    ensures forall i :: 0 <= i < 31 && i < |src| && '\0' !in src[..i + 1] ==> dst[i] == src[i]
    ensures forall i, j :: 0 <= i <= j < 32 && (i == |src| || (i < |src| && src[i] == '\0')) ==> dst[j] == '\0'
  {
    dst := [];
    var i := 0;
    var ended := false;
    while i < NAME_SIZE - 1
      invariant 0 <= i <= NAME_SIZE - 1 && |dst| == i
      invariant ended == (i > NameLength(src))
      invariant dst == CopyName(src)[..i]
    {
      if !ended {
        NameEndsAt(src, i);
      }
      if !ended && (i >= |src| || src[i] == '\0') {
        ended := true;
      }
      dst := dst + [if ended then '\0' else src[i]];
      i := i + 1;
    }
    dst := dst + ['\0'];
  }

  lemma NameEndsAt(src: seq<char>, i: nat)
    requires i <= NameLength(src)
    ensures i == NameLength(src) <==> i >= |src| || src[i] == '\0'
  {
  }

  /** The comparator's loop body between pop and push: fills the record field by field and says
      whether the actuator is triggered. */
  method FillRecord(cfg: Config, event: Event) returns (record: Record, limitViolated: bool)
    requires Loaded(cfg)
    ensures record == Compare(cfg, event) && limitViolated == record.active
    ensures record.active <==>
              event.value > record.baseline + cfg.threshold || event.value < record.baseline - cfg.threshold
    ensures record.timestamp == event.timestamp && record.live == event.value
    ensures IsBaseline(cfg, event.timestamp, record.baseline)
    ensures record.variance == (if event.value < record.baseline then record.baseline - event.value
                                else event.value - record.baseline)
  {
    CompareMeaning(cfg, event);
    var hour := cfg.hour(Seconds(event.timestamp));
    var baseline := cfg.baselines[hour];
    var difference := event.value - baseline;
    var variance := if difference < 0.0 then -difference else difference;
    limitViolated := variance > cfg.threshold;
    var profile := CopyProfile(event.profile);
    record := Record(event.timestamp, profile, event.value, baseline, variance, limitViolated);
  }

  function CompareAll(cfg: Config, events: seq<Event>): (records: seq<Record>)
    requires Loaded(cfg)
    ensures |records| == |events|
    ensures forall i :: 0 <= i < |events| ==> records[i] == Compare(cfg, events[i])
  {
    seq(|events|, i requires 0 <= i < |events| => Compare(cfg, events[i]))
  }

  lemma CompareAllAppends(cfg: Config, a: seq<Event>, b: seq<Event>)
    requires Loaded(cfg)
    ensures CompareAll(cfg, a + b) == CompareAll(cfg, a) + CompareAll(cfg, b)
  {
  }

  /** The records that exceed the threshold. */
  function Alarms(records: seq<Record>): seq<Record> {
    if records == [] then []
    else
      var last := records[|records| - 1];
      Alarms(records[..|records| - 1]) + (if last.active then [last] else [])
  }

  lemma AlarmsAppend(records: seq<Record>, r: Record)
    ensures Alarms(records + [r]) == Alarms(records) + (if r.active then [r] else [])
  {
  }

  // ---------------------------------------------------------------- the machine

  /** Where the comparator thread is in its loop. */
  datatype Loop =
    | Polling                    // in ingestQueue.pop()
    | Holding(event: Event)      // popped, not yet compared
    | Ready(record: Record)      // about to call syncQueue.push
    | Pushing(record: Record)    // in syncQueue.push
    | Refused(record: Record)    // push returned false
    | Stopped

  datatype Pipeline = Pipeline(
    ingest: State<Event>, sync: State<Record>, loop: Loop, running: bool,
    fired: seq<Record>, dropped: seq<Record>)

  datatype Step =
    | Server(ingestAction: Action<Event>)
    | Poll(ingestAction: Action<Event>)
    | CompareEvent
    | Offer(syncAction: Action<Record>)
    | AfterRefusal
    | Quit
    | Worker(syncAction: Action<Record>)
    | Stop

  predicate IsProducerAction<T>(a: Action<T>) {
    a.BeginPush? || a.LoadHead? || a.ScribbleSlot? || a.WriteSlot? || a.PublishTail?
  }

  function Start(ingest: State<Event>, sync: State<Record>): Pipeline {
    Pipeline(ingest, sync, Polling, true, [], [])
  }

  predicate CanStep(p: Pipeline, step: Step) {
    match step
    case Server(a) => IsProducerAction(a) && Enabled(p.ingest, a)
    case Poll(a) => p.loop.Polling? && !IsProducerAction(a) && Enabled(p.ingest, a)
    case CompareEvent => p.loop.Holding?
    case Offer(a) =>
      && IsProducerAction(a) && Enabled(p.sync, a)
      && ((p.loop.Ready? && a == BeginPush(p.loop.record)) || (p.loop.Pushing? && !a.BeginPush?))
    case AfterRefusal => p.loop.Refused?
    case Quit => p.loop.Polling? && p.ingest.consumer.Resting? && !p.running
    case Worker(a) => !IsProducerAction(a) && Enabled(p.sync, a)
    case Stop => true
  }

  function Take(cfg: Config, p: Pipeline, step: Step): Pipeline
    requires Loaded(cfg) && CanStep(p, step)
  {
    match step
    case Server(a) => p.(ingest := Apply(p.ingest, a))
    case Poll(a) =>
      p.(ingest := Apply(p.ingest, a),
         loop := if a.PublishHead? then Holding(p.ingest.consumer.item) else Polling)
    case CompareEvent =>
      var record := Compare(cfg, p.loop.event);
      p.(loop := Ready(record), fired := if record.active then p.fired + [record] else p.fired)
    case Offer(a) =>
      var sync := Apply(p.sync, a);
      p.(sync := sync,
         loop := if a.PublishTail? then Polling
                 else if a.LoadHead? && sync.producer.Idle? then Refused(p.loop.record)
                 else Pushing(p.loop.record))
    case AfterRefusal =>
      if p.running then p.(loop := Ready(p.loop.record))
      else p.(loop := Stopped, dropped := p.dropped + [p.loop.record])
    case Quit => p.(loop := Stopped)
    case Worker(a) => p.(sync := Apply(p.sync, a))
    case Stop => p.(running := false)
  }

  predicate Possible(cfg: Config, p: Pipeline, run: seq<Step>)
    requires Loaded(cfg)
    decreases |run|
  {
    run == [] || (CanStep(p, run[0]) && Possible(cfg, Take(cfg, p, run[0]), run[1..]))
  }

  function After(cfg: Config, p: Pipeline, run: seq<Step>): Pipeline
    requires Loaded(cfg) && Possible(cfg, p, run)
    decreases |run|
  {
    if run == [] then p else After(cfg, Take(cfg, p, run[0]), run[1..])
  }

  // ---------------------------------------------------------------- the invariant

  /** The record the comparator holds, or will make of the event it holds. */
  function InHand(cfg: Config, loop: Loop): seq<Record>
    requires Loaded(cfg)
  {
    match loop
    case Polling => []
    case Holding(event) => [Compare(cfg, event)]
    case Ready(record) => [record]
    case Pushing(record) => [record]
    case Refused(record) => [record]
    case Stopped => []
  }

  /** The compared records, in order: all that were popped as events but the one still uncompared. */
  function Compared(cfg: Config, p: Pipeline): seq<Record>
    requires Loaded(cfg)
  {
    if p.loop.Holding? then p.sync.pushed else p.sync.pushed + InHand(cfg, p.loop) + p.dropped
  }

  ghost predicate Consistent(p: Pipeline) {
    && (p.loop.Pushing? ==> !p.sync.producer.Idle? && p.sync.producer.item == p.loop.record)
    && (!p.loop.Pushing? ==> p.sync.producer.Idle?)
    && (!p.loop.Polling? ==> p.ingest.consumer.Resting?)
    && (p.dropped != [] ==> p.loop.Stopped? && |p.dropped| == 1 && !p.running)
  }

  ghost predicate Conserved(cfg: Config, p: Pipeline)
    requires Loaded(cfg)
  {
    && p.sync.pushed + InHand(cfg, p.loop) + p.dropped == CompareAll(cfg, p.ingest.popped)
    && p.fired == Alarms(Compared(cfg, p))
  }

  ghost predicate Good(cfg: Config, p: Pipeline)
    requires Loaded(cfg)
  {
    Inv(p.ingest) && Inv(p.sync) && Consistent(p) && Conserved(cfg, p)
  }

  ghost predicate Accounted(cfg: Config, p: Pipeline)
    requires Loaded(cfg)
  {
    Consistent(p) && Conserved(cfg, p)
  }

  lemma StartIsGood(cfg: Config, capacity: nat, ingestSlots: seq<Event>, syncSlots: seq<Record>)
    requires Loaded(cfg) && capacity >= 1 && |ingestSlots| == |syncSlots| == capacity
    ensures Good(cfg, Start(Initial(capacity, ingestSlots), Initial(capacity, syncSlots)))
  {
  }

  lemma RingsStayGood(cfg: Config, p: Pipeline, step: Step)
    requires Loaded(cfg) && Inv(p.ingest) && Inv(p.sync) && CanStep(p, step)
    ensures Inv(Take(cfg, p, step).ingest) && Inv(Take(cfg, p, step).sync)
  {
    if step.Server? || step.Poll? {
      StepKeepsInv(p.ingest, step.ingestAction);
    } else if step.Offer? || step.Worker? {
      StepKeepsInv(p.sync, step.syncAction);
    }
  }

  lemma ProducerKeepsConsumer<T>(s: State<T>, a: Action<T>)
    requires IsProducerAction(a) && Enabled(s, a)
    ensures Apply(s, a).popped == s.popped && Apply(s, a).consumer == s.consumer
  {
  }

  lemma ConsumerKeepsProducer<T>(s: State<T>, a: Action<T>)
    requires !IsProducerAction(a) && Enabled(s, a)
    ensures Apply(s, a).pushed == s.pushed && Apply(s, a).producer == s.producer
  {
  }

  /** The account speaks only of what was taken from the first ring and put into the second, and of the
      comparator's own state. */
  lemma SameAccount(cfg: Config, p: Pipeline, q: Pipeline)
    requires Loaded(cfg) && Accounted(cfg, p)
    requires q.ingest.popped == p.ingest.popped && q.ingest.consumer == p.ingest.consumer
    requires q.sync.pushed == p.sync.pushed && q.sync.producer == p.sync.producer
    requires q.loop == p.loop && q.running == p.running && q.fired == p.fired && q.dropped == p.dropped
    ensures Accounted(cfg, q)
  {
    assert Compared(cfg, q) == Compared(cfg, p);
  }

  lemma ServerKeepsAccount(cfg: Config, p: Pipeline, a: Action<Event>)
    requires Loaded(cfg) && Accounted(cfg, p) && CanStep(p, Server(a))
    ensures Accounted(cfg, Take(cfg, p, Server(a)))
  {
    ProducerKeepsConsumer(p.ingest, a);
    SameAccount(cfg, p, Take(cfg, p, Server(a)));
  }

  lemma PollKeepsAccount(cfg: Config, p: Pipeline, a: Action<Event>)
    requires Loaded(cfg) && Accounted(cfg, p) && CanStep(p, Poll(a))
    ensures Accounted(cfg, Take(cfg, p, Poll(a)))
  {
    if a.PublishHead? {
      var event := p.ingest.consumer.item;
      CompareAllAppends(cfg, p.ingest.popped, [event]);
      AppendNothing(p.sync.pushed);
      AppendNothing(p.sync.pushed + [Compare(cfg, event)]);
    }
  }

  lemma CompareKeepsAccount(cfg: Config, p: Pipeline)
    requires Loaded(cfg) && Accounted(cfg, p) && CanStep(p, CompareEvent)
    ensures Accounted(cfg, Take(cfg, p, CompareEvent))
  {
    var record := Compare(cfg, p.loop.event);
    var q := Take(cfg, p, CompareEvent);
    assert Consistent(q) && p.dropped == [];
    ComparedNext(cfg, p, q, record);
    AlarmsAppend(p.sync.pushed, record);
    AppendNothing(p.fired);
  }

  lemma ComparedNext(cfg: Config, p: Pipeline, q: Pipeline, record: Record)
    requires Loaded(cfg) && p.loop.Holding? && q.loop == Ready(record) && p.dropped == q.dropped == []
    requires q.sync == p.sync && record == Compare(cfg, p.loop.event)
    ensures Compared(cfg, p) == p.sync.pushed && Compared(cfg, q) == p.sync.pushed + [record]
    ensures InHand(cfg, p.loop) == InHand(cfg, q.loop) == [record]
  {
    AppendNothing(p.sync.pushed + [record]);
  }

  /** With nothing dropped yet, a record moves from the hand to the queue or to the dropped ones
      without changing what is held together. */
  lemma HandOver<T>(queued: seq<T>, record: T, dropped: seq<T>)
    requires dropped == []
    ensures (queued + [record]) + [] + dropped == queued + [record] + dropped
    ensures queued + [] + (dropped + [record]) == queued + [record] + dropped
  {
  }

  lemma PublishKeepsAccount(cfg: Config, p: Pipeline)
    requires Loaded(cfg) && Accounted(cfg, p) && CanStep(p, Offer(PublishTail))
    ensures Accounted(cfg, Take(cfg, p, Offer(PublishTail)))
  {
    var q := Take(cfg, p, Offer(PublishTail));
    HandOver(p.sync.pushed, p.loop.record, p.dropped);
    assert Compared(cfg, q) == Compared(cfg, p);
  }

  lemma OfferKeepsAccount(cfg: Config, p: Pipeline, a: Action<Record>)
    requires Loaded(cfg) && Accounted(cfg, p) && CanStep(p, Offer(a)) && !a.PublishTail?
    ensures Accounted(cfg, Take(cfg, p, Offer(a)))
  {
    var q := Take(cfg, p, Offer(a));
    assert q.sync.pushed == p.sync.pushed && InHand(cfg, q.loop) == InHand(cfg, p.loop);
    assert Compared(cfg, q) == Compared(cfg, p);
  }

  lemma RefusalKeepsAccount(cfg: Config, p: Pipeline)
    requires Loaded(cfg) && Accounted(cfg, p) && CanStep(p, AfterRefusal)
    ensures Accounted(cfg, Take(cfg, p, AfterRefusal))
  {
    var q := Take(cfg, p, AfterRefusal);
    if p.running {
      assert Compared(cfg, q) == Compared(cfg, p);
    } else {
      HandOver(p.sync.pushed, p.loop.record, p.dropped);
      assert q.dropped == p.dropped + [p.loop.record] && InHand(cfg, q.loop) == [];
      assert Compared(cfg, q) == Compared(cfg, p);
    }
  }

  lemma WorkerKeepsAccount(cfg: Config, p: Pipeline, a: Action<Record>)
    requires Loaded(cfg) && Accounted(cfg, p) && CanStep(p, Worker(a))
    ensures Accounted(cfg, Take(cfg, p, Worker(a)))
  {
    ConsumerKeepsProducer(p.sync, a);
    SameAccount(cfg, p, Take(cfg, p, Worker(a)));
  }

  /** Every step of any of the three threads keeps the account. */
  lemma StepKeepsAccount(cfg: Config, p: Pipeline, step: Step)
    requires Loaded(cfg) && Accounted(cfg, p) && CanStep(p, step)
    ensures Accounted(cfg, Take(cfg, p, step))
  {
    match step
    case Server(a) => ServerKeepsAccount(cfg, p, a);
    case Poll(a) => PollKeepsAccount(cfg, p, a);
    case CompareEvent => CompareKeepsAccount(cfg, p);
    case Offer(a) => if a.PublishTail? { PublishKeepsAccount(cfg, p); } else { OfferKeepsAccount(cfg, p, a); }
    case AfterRefusal => RefusalKeepsAccount(cfg, p);
    case Quit =>
    case Worker(a) => WorkerKeepsAccount(cfg, p, a);
    case Stop =>
  }

  lemma {:induction false} RunKeepsGood(cfg: Config, p: Pipeline, run: seq<Step>)
    requires Loaded(cfg) && Good(cfg, p) && Possible(cfg, p, run)
    ensures Good(cfg, After(cfg, p, run))
    decreases |run|
  {
    if run != [] {
      RingsStayGood(cfg, p, run[0]);
      StepKeepsAccount(cfg, p, run[0]);
      RunKeepsGood(cfg, Take(cfg, p, run[0]), run[1..]);
    }
  }

  // ---------------------------------------------------------------- the main results

  /** In every state of every run: the records the worker took, then the queued ones, then the one
      in the comparator's hand, then a dropped one, then the comparisons of the events still queued
      are exactly the comparisons of the accepted events, in order.  Nothing is dropped while
      `running` holds, and at most one record ever is.  The actuator fired for exactly the compared
      records above the threshold, in order. */
  lemma NothingIsLost(cfg: Config, capacity: nat, ingestSlots: seq<Event>, syncSlots: seq<Record>, run: seq<Step>)
    requires Loaded(cfg) && capacity >= 1 && |ingestSlots| == |syncSlots| == capacity
    requires Possible(cfg, Start(Initial(capacity, ingestSlots), Initial(capacity, syncSlots)), run)
    ensures var p := After(cfg, Start(Initial(capacity, ingestSlots), Initial(capacity, syncSlots)), run);
            && |p.sync.popped| <= |p.sync.pushed| && |p.ingest.popped| <= |p.ingest.pushed|
            && p.sync.popped + Queue(p.sync) + InHand(cfg, p.loop) + p.dropped + CompareAll(cfg, Queue(p.ingest))
               == CompareAll(cfg, p.ingest.pushed)
            && (p.running ==> p.dropped == []) && |p.dropped| <= 1
            && p.fired == Alarms(Compared(cfg, p))
  {
    var s := Start(Initial(capacity, ingestSlots), Initial(capacity, syncSlots));
    StartIsGood(cfg, capacity, ingestSlots, syncSlots);
    RunKeepsGood(cfg, s, run);
    Accounting(cfg, After(cfg, s, run));
  }

  // ---------------------------------------------------------------- what the actuator fired for

  /** An event outside the band around its hour's baseline. */
  ghost predicate Violates(cfg: Config, event: Event)
    requires Loaded(cfg)
  {
    exists s :: IsSecondOf(s, event.timestamp)
             && (event.value > cfg.baselines[cfg.hour(s)] + cfg.threshold
                 || event.value < cfg.baselines[cfg.hour(s)] - cfg.threshold)
  }

  ghost function Violators(cfg: Config, events: seq<Event>): seq<Event>
    requires Loaded(cfg)
  {
    if events == [] then []
    else
      var last := events[|events| - 1];
      Violators(cfg, events[..|events| - 1]) + (if Violates(cfg, last) then [last] else [])
  }

  lemma ActiveIffViolates(cfg: Config, event: Event)
    requires Loaded(cfg)
    ensures Compare(cfg, event).active <==> Violates(cfg, event)
  {
    CompareMeaning(cfg, event);
    SecondsAreUnique(Seconds(event.timestamp), event.timestamp);
    if Violates(cfg, event) {
      var s :| IsSecondOf(s, event.timestamp)
            && (event.value > cfg.baselines[cfg.hour(s)] + cfg.threshold
                || event.value < cfg.baselines[cfg.hour(s)] - cfg.threshold);
      SecondsAreUnique(s, event.timestamp);
    }
  }

  /** Records and events correspond one to one, in order. */
  ghost predicate AllReport(cfg: Config, records: seq<Record>, events: seq<Event>)
    requires Loaded(cfg)
  {
    |records| == |events| && forall i :: 0 <= i < |records| ==> Reports(cfg, records[i], events[i])
  }

  lemma {:induction false} AlarmsOfViolators(cfg: Config, events: seq<Event>)
    requires Loaded(cfg)
    ensures AllReport(cfg, Alarms(CompareAll(cfg, events)), Violators(cfg, events))
    decreases |events|
  {
    if events != [] {
      var n := |events| - 1;
      var last := events[n];
      AlarmsOfViolators(cfg, events[..n]);
      NextPrefix(events, n);
      WholeSlice(events);
      CompareAllAppends(cfg, events[..n], [last]);
      AlarmsAppend(CompareAll(cfg, events[..n]), Compare(cfg, last));
      assert CompareAll(cfg, [last]) == [Compare(cfg, last)];
      ActiveIffViolates(cfg, last);
      CompareMeaning(cfg, last);
      AllReportOneMore(cfg, Alarms(CompareAll(cfg, events[..n])), Violators(cfg, events[..n]), last);
    }
  }

  lemma AllReportOneMore(cfg: Config, records: seq<Record>, events: seq<Event>, last: Event)
    requires Loaded(cfg) && AllReport(cfg, records, events)
    ensures AllReport(cfg, records + [Compare(cfg, last)], events + [last])
    ensures AllReport(cfg, records + [], events + [])
  {
    CompareMeaning(cfg, last);
    AppendNothing(records);
    AppendNothing(events);
  }

  /** How many events were compared: those taken from the first ring, but for one still in hand. */
  function NumberCompared(p: Pipeline): int { |p.ingest.popped| - (if p.loop.Holding? then 1 else 0) }

  lemma ComparedIsPrefix(cfg: Config, p: Pipeline)
    requires Loaded(cfg) && Accounted(cfg, p)
    ensures 0 <= NumberCompared(p) <= |p.ingest.popped|
    ensures Compared(cfg, p) == CompareAll(cfg, p.ingest.popped[..NumberCompared(p)])
  {
    var n, popped := NumberCompared(p), p.ingest.popped;
    AppendNothing(p.sync.pushed);
    if p.loop.Holding? {
      AppendNothing(p.sync.pushed + InHand(cfg, p.loop));
      assert |popped| == |p.sync.pushed| + 1;
      NextPrefix(popped, n);
      WholeSlice(popped);
      CompareAllAppends(cfg, popped[..n], [popped[n]]);
      SplitAppend(CompareAll(cfg, popped[..n]), CompareAll(cfg, [popped[n]]));
      SplitAppend(p.sync.pushed, InHand(cfg, p.loop));
    } else {
      WholeSlice(popped);
    }
  }

  /** In every state of every run, the actuator fired for exactly the compared events outside the band around
      the baseline of their hour, once each and in the order they came, with a record of each. */
  lemma FiredForViolators(cfg: Config, capacity: nat, ingestSlots: seq<Event>, syncSlots: seq<Record>, run: seq<Step>)
    requires Loaded(cfg) && capacity >= 1 && |ingestSlots| == |syncSlots| == capacity
    requires Possible(cfg, Start(Initial(capacity, ingestSlots), Initial(capacity, syncSlots)), run)
    ensures var p := After(cfg, Start(Initial(capacity, ingestSlots), Initial(capacity, syncSlots)), run);
            && 0 <= NumberCompared(p) <= |p.ingest.popped| && p.ingest.popped <= p.ingest.pushed
            && AllReport(cfg, p.fired, Violators(cfg, p.ingest.pushed[..NumberCompared(p)]))
  {
    var s := Start(Initial(capacity, ingestSlots), Initial(capacity, syncSlots));
    StartIsGood(cfg, capacity, ingestSlots, syncSlots);
    RunKeepsGood(cfg, s, run);
    var p := After(cfg, s, run);
    ComparedIsPrefix(cfg, p);
    assert p.ingest.pushed[..NumberCompared(p)] == p.ingest.popped[..NumberCompared(p)];
    AlarmsOfViolators(cfg, p.ingest.popped[..NumberCompared(p)]);
  }

  lemma Accounting(cfg: Config, p: Pipeline)
    requires Loaded(cfg) && Good(cfg, p)
    ensures p.sync.popped + Queue(p.sync) + InHand(cfg, p.loop) + p.dropped + CompareAll(cfg, Queue(p.ingest))
         == CompareAll(cfg, p.ingest.pushed)
  {
    PrefixAndRest(p.sync.pushed, |p.sync.popped|);
    PrefixAndRest(p.ingest.pushed, |p.ingest.popped|);
    CompareAllAppends(cfg, p.ingest.popped, Queue(p.ingest));
  }

  lemma PrefixAndRest<T>(s: seq<T>, n: nat)
    requires n <= |s|
    ensures s[..n] + s[n..] == s
  {
  }

  /** The worker only ever takes comparisons of accepted events, in the order they were accepted. */
  lemma WorkerSeesPrefix(cfg: Config, capacity: nat, ingestSlots: seq<Event>, syncSlots: seq<Record>, run: seq<Step>)
    requires Loaded(cfg) && capacity >= 1 && |ingestSlots| == |syncSlots| == capacity
    requires Possible(cfg, Start(Initial(capacity, ingestSlots), Initial(capacity, syncSlots)), run)
    ensures var p := After(cfg, Start(Initial(capacity, ingestSlots), Initial(capacity, syncSlots)), run);
            p.sync.popped <= CompareAll(cfg, p.ingest.pushed)
  {
    NothingIsLost(cfg, capacity, ingestSlots, syncSlots, run);
  }
}
