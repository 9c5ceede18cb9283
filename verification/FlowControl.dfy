/** The token bucket: refilled from the clock, at most `burst` full, drained by grants.  Times are
    nanoseconds of a steady clock; token counts are unsigned 64-bit numbers, which wrap around. */
module FlowControl {
  import opened Numbers
  import opened Sequences

  datatype Bucket = Bucket(rate: Size, burst: Size, tokens: Size, lastUpdate: int)

  function Full(rate: Size, burst: Size, now: int): Bucket { Bucket(rate, burst, burst, now) }

  // ---------------------------------------------------------------- one call

  /** Nanoseconds cast to microseconds, towards zero. */
  function Micros(nanos: int): int {
    if nanos >= 0 then nanos / 1000 else -(-nanos / 1000)
  }

  function Earned(micros: nat, rate: nat): nat { micros * rate }

  /** Tokens for the time since the last update; the product is taken modulo the word. */
  function NewTokens(b: Bucket, now: int): nat {
    var duration := Micros(now - b.lastUpdate);
    if duration > 1000 then Earned(duration, b.rate) % WORD / 1000000 else 0
  }

  /** `updateTokens`: nothing happens within a millisecond, or while less than a token is due. */
  function Refill(b: Bucket, now: int): Bucket {
    if NewTokens(b, now) > 0 then
      b.(tokens := Min(b.burst, (b.tokens + NewTokens(b, now)) % WORD), lastUpdate := now)
    else b
  }

  /** One attempt at taking tokens; the compare-and-swap of `acquire` may fail without a reason. */
  datatype Attempt = Attempt(amount: Size, now: int, spurious: bool)

  predicate Granted(b: Bucket, a: Attempt) { Refill(b, a.now).tokens >= a.amount && !a.spurious }

  function Step(b: Bucket, a: Attempt): Bucket {
    var r := Refill(b, a.now);
    if Granted(b, a) then r.(tokens := r.tokens - a.amount) else r
  }

  class FlowController {
    const rate: Size
    const burst: Size
    var tokens: Size
    var lastUpdate: int

    function State(): Bucket
      reads this
    {
      Bucket(rate, burst, tokens, lastUpdate)
    }

    constructor (ratePerSecond: Size, burstSize: Size, now: int)
      ensures State() == Full(ratePerSecond, burstSize, now)
    {
      rate, burst, tokens, lastUpdate := ratePerSecond, burstSize, burstSize, now;
    }

    method UpdateTokens(now: int)
      modifies this
      ensures State() == Refill(old(State()), now)
    {
      var duration := Micros(now - lastUpdate);
      if duration > 1000 {
        var newTokens := Earned(duration, rate) % WORD / 1000000;
        if newTokens > 0 {
          var current := tokens;
          tokens := Min(burst, (current + newTokens) % WORD);
          lastUpdate := now;
        }
      }
    }

    method TryAcquire(amount: Size, now: int) returns (granted: bool)
      modifies this
      ensures var a := Attempt(amount, now, false);
              granted == Granted(old(State()), a) && State() == Step(old(State()), a)
      ensures var filled := Refill(old(State()), now).tokens;
              && granted == (amount <= filled)
              && tokens == if granted then filled - amount else filled
    {
      UpdateTokens(now);
      var current := tokens;
      if current >= amount {
        tokens := current - amount;
        return true;
      }
      return false;
    }

    /** One round of `acquire`'s loop, whose compare-and-swap is a weak one. */
    method AcquireOnce(a: Attempt) returns (granted: bool)
      modifies this
      ensures granted == Granted(old(State()), a) && State() == Step(old(State()), a)
      ensures tokens == Refill(old(State()), a.now).tokens - (if granted then a.amount else 0)
    {
      UpdateTokens(a.now);
      var current := tokens;
      if current >= a.amount {
        if !a.spurious {
          tokens := current - a.amount;
          return true;
        }
      }
      return false;
    }

    /** The loop of `acquire`, for as many clock readings as are given: round after round until one is
        granted. */
    method Acquire(readings: seq<Attempt>) returns (granted: bool, used: nat)
      modifies this
      ensures used <= |readings| && State() == Run(old(State()), readings[..used])
      ensures granted ==> used > 0 && GrantedAt(old(State()), readings, used - 1)
      ensures granted ==> tokens == Before(old(State()), readings, used - 1) - readings[used - 1].amount
      ensures !granted ==> used == |readings| && RefusedBefore(old(State()), readings, used)
    {
      used := 0;
      granted := false;
      ghost var start := State();
      while used < |readings|
        invariant 0 <= used <= |readings|
        invariant State() == Run(start, readings[..used])
        invariant RefusedBefore(start, readings, used)
      {
        RunOfOneMore(start, readings, used);
        RefusedOnceMore(start, readings, used);
        granted := AcquireOnce(readings[used]);
        used := used + 1;
        if granted {
          return;
        }
      }
    }
  }

  // ---------------------------------------------------------------- runs

  function Run(b: Bucket, calls: seq<Attempt>): Bucket {
    if calls == [] then b else Step(Run(b, calls[..|calls| - 1]), calls[|calls| - 1])
  }

  /** The tokens granted in a run. */
  function Total(b: Bucket, calls: seq<Attempt>): nat {
    if calls == [] then 0
    else
      var last := calls[|calls| - 1];
      Total(b, calls[..|calls| - 1]) + (if Granted(Run(b, calls[..|calls| - 1]), last) then last.amount else 0)
  }

  /** None of the first n attempts is granted. */
  predicate RefusedBefore(b: Bucket, calls: seq<Attempt>, n: nat)
    requires n <= |calls|
  {
    forall i :: 0 <= i < n ==> !Granted(Run(b, calls[..i]), calls[i])
  }

  /** An attempt takes exactly what it grants. */
  lemma StepTakes(b: Bucket, a: Attempt)
    ensures Step(b, a).tokens == Refill(b, a.now).tokens - (if Granted(b, a) then a.amount else 0)
    ensures Step(b, a).rate == b.rate && Step(b, a).burst == b.burst
    ensures Step(b, a).lastUpdate == Refill(b, a.now).lastUpdate
  {
  }

  /** The tokens that attempt n finds. */
  function Before(b: Bucket, calls: seq<Attempt>, n: nat): nat
    requires n < |calls|
  {
    Refill(Run(b, calls[..n]), calls[n].now).tokens
  }

  lemma RefusedOnceMore(b: Bucket, calls: seq<Attempt>, n: nat)
    requires n < |calls| && RefusedBefore(b, calls, n)
    ensures !Granted(Run(b, calls[..n]), calls[n]) ==> RefusedBefore(b, calls, n + 1)
  {
  }

  lemma RunOfOneMore(b: Bucket, calls: seq<Attempt>, n: nat)
    requires n < |calls|
    ensures Run(b, calls[..n + 1]) == Step(Run(b, calls[..n]), calls[n])
  {
    NextPrefix(calls, n);
  }

  /** Attempt n is granted, and none before it. */
  predicate GrantedAt(b: Bucket, calls: seq<Attempt>, n: nat)
    requires n < |calls|
  {
    RefusedBefore(b, calls, n) && Granted(Run(b, calls[..n]), calls[n])
  }

  /** The clock never goes back, from the last update on. */
  predicate Monotone(start: int, calls: seq<Attempt>) {
    && (forall i :: 0 <= i < |calls| ==> start <= calls[i].now)
    && (forall i, j :: 0 <= i < j < |calls| ==> calls[i].now <= calls[j].now)
  }

  // ---------------------------------------------------------------- the rate bound

  /** Billionths of tokens in the bucket, less what the clock has paid for. */
  function Balance(b: Bucket): int { 1_000_000_000 * b.tokens - b.rate * b.lastUpdate }

  lemma ScaleBound(x: nat, y: nat, k: nat)
    requires x <= y
    ensures x * k <= y * k
  {
  }

  /** New tokens never exceed the rate times the time, despite the truncations and the wrap-around. */
  lemma NewTokensArePaid(b: Bucket, now: int)
    requires b.lastUpdate <= now
    ensures 1_000_000_000 * NewTokens(b, now) <= b.rate * (now - b.lastUpdate)
  {
  }

  /** A refill moves paid time into tokens and may drop some; it never adds to the balance. */
  lemma RefillKeepsBalance(b: Bucket, now: int)
    requires b.lastUpdate <= now
    ensures Balance(Refill(b, now)) <= Balance(b)
  {
    NewTokensArePaid(b, now);
    var n := NewTokens(b, now);
    assert (b.tokens + n) % WORD <= b.tokens + n;
    assert b.rate * (now - b.lastUpdate) == b.rate * now - b.rate * b.lastUpdate;
  }

  lemma StepKeepsBalance(b: Bucket, a: Attempt)
    requires b.lastUpdate <= a.now && b.tokens <= b.burst
    ensures var s := Step(b, a);
            && Balance(s) + 1_000_000_000 * (if Granted(b, a) then a.amount else 0) <= Balance(b)
            && s.rate == b.rate && s.burst == b.burst && s.tokens <= s.burst
            && b.lastUpdate <= s.lastUpdate <= a.now
  {
    RefillKeepsBalance(b, a.now);
  }

  lemma MonotonePrefix(start: int, calls: seq<Attempt>)
    requires calls != [] && Monotone(start, calls)
    ensures Monotone(start, calls[..|calls| - 1]) && start <= calls[|calls| - 1].now
    ensures |calls| > 1 ==> calls[|calls| - 2].now <= calls[|calls| - 1].now
  {
  }

  /** Over any run, grants and what is left in the bucket are covered by what was there and the time
      that was paid in. */
  lemma {:induction false} RunKeepsBalance(b: Bucket, calls: seq<Attempt>)
    requires b.tokens <= b.burst && Monotone(b.lastUpdate, calls)
    ensures var e := Run(b, calls);
            && Balance(e) + 1_000_000_000 * Total(b, calls) <= Balance(b)
            && e.rate == b.rate && e.burst == b.burst && e.tokens <= e.burst
            && b.lastUpdate <= e.lastUpdate <= (if calls == [] then b.lastUpdate else calls[|calls| - 1].now)
    decreases |calls|
  {
    if calls != [] {
      MonotonePrefix(b.lastUpdate, calls);
      RunKeepsBalance(b, calls[..|calls| - 1]);
      StepKeepsBalance(Run(b, calls[..|calls| - 1]), calls[|calls| - 1]);
    }
  }

  /** Whatever attempts are made up to a time, the tokens granted are at most what the bucket held plus
      the rate times the time since its last update; the bucket never holds more than the burst. */
  lemma RateBound(b: Bucket, calls: seq<Attempt>, now: int)
    requires b.tokens <= b.burst && Monotone(b.lastUpdate, calls)
    requires b.lastUpdate <= now && (calls != [] ==> calls[|calls| - 1].now <= now)
    ensures 1_000_000_000 * Total(b, calls) <= 1_000_000_000 * b.tokens + b.rate * (now - b.lastUpdate)
    ensures Run(b, calls).tokens <= b.burst
  {
    RunKeepsBalance(b, calls);
    var e := Run(b, calls);
    ScaleOrder(e.lastUpdate, now, b.rate);
    assert b.rate * (now - b.lastUpdate) == b.rate * now - b.rate * b.lastUpdate;
  }

  lemma ScaleOrder(x: int, y: int, k: nat)
    requires x <= y
    ensures k * x <= k * y
  {
  }

  /** From the start, the tokens granted by time t are at most the burst plus the rate times the time. */
  lemma BoundFromStart(rate: Size, burst: Size, start: int, calls: seq<Attempt>, now: int)
    requires Monotone(start, calls) && start <= now && (calls != [] ==> calls[|calls| - 1].now <= now)
    ensures 1_000_000_000 * Total(Full(rate, burst, start), calls) <= 1_000_000_000 * burst + rate * (now - start)
  {
    RateBound(Full(rate, burst, start), calls, now);
  }

  // ---------------------------------------------------------------- later windows

  /** In billionths of a token: a millisecond's worth, or a token's and a microsecond's. */
  function Slack(rate: Size): int { Max(1_000_999 * rate, 999_999_000 + 999 * rate) }

  lemma RemainderOfSum(x: nat, y: nat)
    ensures (x + y) % WORD <= x % WORD + y
  {
  }

  /** When the refill at a time was skipped, what a later one adds is paid by the time between them, up
      to the slack: even where the product wraps around, nothing is gained. */
  lemma LateTokens(b: Bucket, skipped: int, now: int)
    requires b.lastUpdate <= skipped <= now && NewTokens(b, skipped) == 0
    ensures 1_000_000_000 * NewTokens(b, now) <= b.rate * (now - skipped) + Slack(b.rate)
  {
    var first: nat, all: nat := skipped - b.lastUpdate, now - b.lastUpdate;
    if first / 1000 <= 1000 {
      NewTokensArePaid(b, now);
      ScaleBound(first, 1_000_999, b.rate);
      assert b.rate * all == b.rate * (now - skipped) + first * b.rate;
    } else {
      LateProduct(first / 1000, all / 1000, b.rate);
      var d: nat := all / 1000 - first / 1000;
      ScaleBound(1000 * d, now - skipped + 999, b.rate);
      assert 1000 * Earned(d, b.rate) == 1000 * d * b.rate;
      assert (now - skipped + 999) * b.rate == b.rate * (now - skipped) + 999 * b.rate;
    }
  }

  lemma LateProduct(first: nat, all: nat, rate: nat)
    requires first <= all && Earned(first, rate) % WORD / 1000000 == 0
    ensures 1_000_000_000 * (Earned(all, rate) % WORD / 1000000) <= 999_999_000 + 1000 * Earned(all - first, rate)
  {
    assert Earned(all, rate) == Earned(first, rate) + Earned(all - first, rate);
    RemainderOfSum(Earned(first, rate), Earned(all - first, rate));
  }

  /** What a bucket and its grants since a time are covered by: the tokens of that time while no refill
      has come since, and afterwards also the time since then and the slack. */
  predicate Covered(e: Bucket, granted: nat, b: Bucket, since: int) {
    && e.rate == b.rate && e.burst == b.burst && e.tokens <= e.burst
    && ((e.lastUpdate == b.lastUpdate && granted + e.tokens <= b.tokens)
        || (since <= e.lastUpdate
            && 1_000_000_000 * granted + Balance(e) <= 1_000_000_000 * b.burst - b.rate * since + Slack(b.rate)))
  }

  lemma RefillAdds(b: Bucket, now: int)
    ensures var r, n := Refill(b, now), NewTokens(b, now);
            && r.rate == b.rate && r.burst == b.burst
            && (n == 0 ==> r == b)
            && (n > 0 ==> r.lastUpdate == now && r.tokens <= b.tokens + n && r.tokens <= r.burst)
  {
  }

  /** The first refill since then. */
  lemma FirstRefillIsCovered(e: Bucket, granted: nat, b: Bucket, since: int, now: int)
    requires b.tokens <= b.burst && b.lastUpdate <= since <= now && NewTokens(b, since) == 0
    requires e.rate == b.rate && e.burst == b.burst && e.lastUpdate == b.lastUpdate && granted + e.tokens <= b.tokens
    requires NewTokens(e, now) > 0
    ensures Covered(Refill(e, now), granted, b, since)
  {
    var n := NewTokens(b, now);
    assert n == NewTokens(e, now);
    RefillAdds(e, now);
    LateTokens(b, since, now);
    ScaleDifference(b.rate, now, since);
  }

  lemma ScaleDifference(k: int, x: int, y: int)
    ensures k * (x - y) == k * x - k * y
  {
  }

  lemma RefillKeepsCovered(e: Bucket, granted: nat, b: Bucket, since: int, now: int)
    requires b.tokens <= b.burst && b.lastUpdate <= since <= now && e.lastUpdate <= now
    requires NewTokens(b, since) == 0 && Covered(e, granted, b, since)
    ensures Covered(Refill(e, now), granted, b, since)
  {
    RefillAdds(e, now);
    if NewTokens(e, now) > 0 {
      if e.lastUpdate == b.lastUpdate && granted + e.tokens <= b.tokens {
        FirstRefillIsCovered(e, granted, b, since, now);
      } else {
        RefillKeepsBalance(e, now);
      }
    }
  }

  lemma {:induction false} RunKeepsCovered(b: Bucket, since: int, calls: seq<Attempt>)
    requires b.tokens <= b.burst && b.lastUpdate <= since && NewTokens(b, since) == 0 && Monotone(since, calls)
    ensures Covered(Run(b, calls), Total(b, calls), b, since)
    decreases |calls|
  {
    if calls != [] {
      var front, last := calls[..|calls| - 1], calls[|calls| - 1];
      MonotonePrefix(since, calls);
      RunKeepsCovered(b, since, front);
      MonotoneFromEarlier(b.lastUpdate, since, front);
      RunKeepsBalance(b, front);
      RefillKeepsCovered(Run(b, front), Total(b, front), b, since, last.now);
    }
  }

  lemma MonotoneFromEarlier(earlier: int, start: int, calls: seq<Attempt>)
    requires earlier <= start && Monotone(start, calls)
    ensures Monotone(earlier, calls)
  {
  }

  /** Updating twice at one time is updating once. */
  lemma RefillTwice(b: Bucket, now: int)
    ensures Refill(Refill(b, now), now) == Refill(b, now)
  {
  }

  /** A run does not change when its first update is done beforehand. */
  lemma {:induction false} RefilledFirst(b: Bucket, calls: seq<Attempt>, now: int)
    requires calls != [] && calls[0].now == now
    ensures Run(Refill(b, now), calls) == Run(b, calls) && Total(Refill(b, now), calls) == Total(b, calls)
    decreases |calls|
  {
    if |calls| == 1 {
      RefillTwice(b, now);
      assert calls[..0] == [];
    } else {
      assert calls[..|calls| - 1][0] == calls[0];
      RefilledFirst(b, calls[..|calls| - 1], now);
    }
  }

  lemma SlackIsPositive(rate: Size, time: nat)
    ensures Slack(rate) > 0 && rate * time >= 0
  {
  }

  /** The case of a window whose first attempt refills the bucket. */
  lemma RefilledWindow(b: Bucket, start: int, calls: seq<Attempt>, first: int, now: int)
    requires b.tokens <= b.burst && calls != [] && calls[0].now == first && NewTokens(b, first) > 0
    requires start <= first && Monotone(first, calls) && calls[|calls| - 1].now <= now
    ensures 1_000_000_000 * Total(b, calls) <= 1_000_000_000 * b.burst + b.rate * (now - start) + Slack(b.rate)
  {
    RefillAdds(b, first);
    RefilledFirst(b, calls, first);
    RateBound(Refill(b, first), calls, now);
    ScaleOrder(now - first, now - start, b.rate);
    SlackIsPositive(b.rate, now - start);
  }

  /** The case of one whose first attempt does not. */
  lemma SkippedWindow(b: Bucket, start: int, calls: seq<Attempt>, first: int, now: int)
    requires b.tokens <= b.burst && b.lastUpdate <= first <= now && NewTokens(b, first) == 0
    requires start <= first && Monotone(first, calls) && calls != [] && calls[|calls| - 1].now <= now
    ensures 1_000_000_000 * Total(b, calls) <= 1_000_000_000 * b.burst + b.rate * (now - start) + Slack(b.rate)
  {
    RunKeepsCovered(b, first, calls);
    MonotoneFromEarlier(b.lastUpdate, first, calls);
    RunKeepsBalance(b, calls);
    CoveredIsBounded(Run(b, calls), Total(b, calls), b, first, start, now);
  }

  lemma CoveredIsBounded(e: Bucket, granted: nat, b: Bucket, since: int, start: int, now: int)
    requires b.tokens <= b.burst && start <= since <= now && e.lastUpdate <= now && Covered(e, granted, b, since)
    ensures 1_000_000_000 * granted <= 1_000_000_000 * b.burst + b.rate * (now - start) + Slack(b.rate)
  {
    ScaleDifference(b.rate, now, since);
    ScaleOrder(e.lastUpdate, now, b.rate);
    ScaleOrder(since, now, b.rate);
    ScaleOrder(now - since, now - start, b.rate);
  }

  lemma MonotoneFromFirst(start: int, calls: seq<Attempt>)
    requires calls != [] && Monotone(start, calls)
    ensures start <= calls[0].now <= calls[|calls| - 1].now && Monotone(calls[0].now, calls)
  {
  }

  /** A window with its first attempt. */
  lemma WindowFrom(b: Bucket, start: int, calls: seq<Attempt>, first: int, now: int)
    requires b.tokens <= b.burst && b.lastUpdate <= start <= first && calls != [] && calls[0].now == first
    requires Monotone(first, calls) && first <= calls[|calls| - 1].now <= now
    ensures 1_000_000_000 * Total(b, calls) <= 1_000_000_000 * b.burst + b.rate * (now - start) + Slack(b.rate)
  {
    if NewTokens(b, first) == 0 {
      SkippedWindow(b, start, calls, first, now);
    } else {
      RefilledWindow(b, start, calls, first, now);
    }
  }

  /** In any window, whenever it opens, the tokens granted are at most the burst plus the rate times the
      time, plus the slack. */
  lemma WindowBound(b: Bucket, start: int, calls: seq<Attempt>, now: int)
    requires b.tokens <= b.burst && b.lastUpdate <= start <= now && Monotone(start, calls)
    requires calls != [] ==> calls[|calls| - 1].now <= now
    ensures 1_000_000_000 * Total(b, calls) <= 1_000_000_000 * b.burst + b.rate * (now - start) + Slack(b.rate)
  {
    if calls == [] {
      SlackIsPositive(b.rate, now - start);
    } else {
      MonotoneFromFirst(start, calls);
      WindowFrom(b, start, calls, calls[0].now, now);
    }
  }

  function OneWindow(amount: Size, first: int): seq<Attempt> {
    [Attempt(amount, first, false), Attempt(amount, first + 1, false)]
  }

  lemma TotalOfTwo(b: Bucket, first: Attempt, second: Attempt)
    ensures Total(b, [first, second])
         == (if Granted(b, first) then first.amount else 0)
            + (if Granted(Step(b, first), second) then second.amount else 0)
  {
    assert [first, second][..1] == [first];
    assert Total(b, [first]) == (if Granted(b, first) then first.amount else 0) && Run(b, [first]) == Step(b, first);
  }

  /** Nothing is added before the thousand-and-first microsecond, which then pays for all of them. */
  lemma DueAtOnce(b: Bucket, q: nat)
    requires b.rate == 1_000_000 * q && b.lastUpdate == 0 && 1001 * (1_000_000 * q) < WORD
    ensures NewTokens(b, 1_000_999) == 0 && NewTokens(b, 1_001_000) == 1001 * q
  {
    assert Earned(1001, b.rate) == 1001 * (1_000_000 * q);
  }

  lemma EmptiedTwice(q: nat)
    requires q >= 1 && 1001 * (1_000_000 * q) < WORD
    ensures Total(Full(1_000_000 * q, 1001 * q, 0), OneWindow(1001 * q, 1_000_999)) == 2 * (1001 * q)
  {
    var b := Full(1_000_000 * q, 1001 * q, 0);
    var first, second := Attempt(1001 * q, 1_000_999, false), Attempt(1001 * q, 1_001_000, false);
    DueAtOnce(b, q);
    DueAtOnce(b.(tokens := 0), q);
    assert Step(b, first) == b.(tokens := 0);
    TotalOfTwo(b, first, second);
  }

  /** The slack is no looser than it must be: for every whole number of tokens a microsecond, as long as a
      millisecond's worth does not wrap, a full bucket is emptied twice in a window of a nanosecond at the
      end of the first millisecond, which is the bound exactly. */
  lemma SlackIsAttained(q: nat)
    requires q >= 1 && 1001 * (1_000_000 * q) < WORD
    ensures var b, calls := Full(1_000_000 * q, 1001 * q, 0), OneWindow(1001 * q, 1_000_999);
            1_000_000_000 * Total(b, calls) == 1_000_000_000 * b.burst + b.rate * 1 + Slack(b.rate)
  {
    EmptiedTwice(q);
  }

  lemma OneIsDue(b: Bucket)
    requires b.rate == 1 && b.lastUpdate == 0
    ensures NewTokens(b, 999_999_999) == 0 && NewTokens(b, 1_000_000_000) == 1
  {
    assert Earned(999_999, 1) == 999_999 && Earned(1_000_000, 1) == 1_000_000;
  }

  lemma TakenTwice()
    ensures Total(Full(1, 1, 0), OneWindow(1, 999_999_999)) == 2
  {
    var b := Full(1, 1, 0);
    var first, second := Attempt(1, 999_999_999, false), Attempt(1, 1_000_000_000, false);
    OneIsDue(b);
    OneIsDue(b.(tokens := 0));
    assert Step(b, first) == b.(tokens := 0);
    TotalOfTwo(b, first, second);
  }

  /** So it is at one token a second, where the first token is due at the end of the first second. */
  lemma SlowSlackIsAttained()
    ensures var b, calls := Full(1, 1, 0), OneWindow(1, 999_999_999);
            1_000_000_000 * Total(b, calls) == 1_000_000_000 * b.burst + b.rate * 1 + Slack(b.rate)
  {
    TakenTwice();
  }

  // ---------------------------------------------------------------- when attempts succeed

  /** The refill misses no whole token that is due exactly when the product fits the word. */
  lemma RefillIsExactIff(b: Bucket, now: int)
    requires Micros(now - b.lastUpdate) > 1000
    ensures var due := Earned(Micros(now - b.lastUpdate), b.rate);
            NewTokens(b, now) == due / 1000000 <==> due < WORD
  {
    WrapLoses(Earned(Micros(now - b.lastUpdate), b.rate));
  }

  lemma WrapLoses(p: nat)
    ensures p % WORD / 1000000 == p / 1000000 <==> p < WORD
  {
  }

  lemma WholeParts(product: nat, e: nat)
    requires 1_000_000 * e <= product < 1_000_000 * (e + 1)
    ensures product / 1000000 == e
  {
  }

  lemma TokensDue(b: Bucket, now: int, d: nat, due: nat, e: nat)
    requires 1000 * d <= now - b.lastUpdate < 1000 * (d + 1)
    requires due == d * b.rate && 1_000_000 * e <= due < 1_000_000 * (e + 1) && due < 0x1_0000_0000_0000_0000
    ensures NewTokens(b, now) == if d > 1000 then e else 0
  {
    WholeParts(due, e);
    assert Micros(now - b.lastUpdate) == d && Earned(d, b.rate) == due;
  }

  /** With d whole microseconds since the last update and e whole tokens due for them: nothing within a
      millisecond or before a token is due, and otherwise e tokens up to the burst, as of now. */
  lemma RefillMeaning(b: Bucket, now: int, d: nat, due: nat, e: nat)
    requires 1000 * d <= now - b.lastUpdate < 1000 * (d + 1)
    requires due == d * b.rate && 1_000_000 * e <= due < 1_000_000 * (e + 1) && due < 0x1_0000_0000_0000_0000
    ensures d <= 1000 || e == 0 ==> Refill(b, now) == b
    ensures d > 1000 && e > 0 && b.tokens + e < 0x1_0000_0000_0000_0000
        ==> Refill(b, now) == b.(tokens := if b.tokens + e < b.burst then b.tokens + e else b.burst, lastUpdate := now)
  {
    TokensDue(b, now, d, due, e);
  }

  /** A request for more than the burst is never granted, whatever happens before. */
  lemma TooMuchIsNeverGranted(b: Bucket, calls: seq<Attempt>, a: Attempt)
    requires b.tokens <= b.burst < a.amount && Monotone(b.lastUpdate, calls + [a])
    ensures !Granted(Run(b, calls), a)
  {
    assert calls == (calls + [a])[..|calls|];
    RunKeepsBalance(b, calls);
    assert (calls + [a])[|calls|] == a;
    assert calls != [] ==> (calls + [a])[|calls| - 1] == calls[|calls| - 1];
    StepKeepsBalance(Run(b, calls), a);
  }

  /** A request for at most the burst is granted once its tokens are due, if neither the product nor
      the sum wraps. */
  lemma GrantedOnceDue(b: Bucket, a: Attempt)
    requires a.amount <= b.burst && !a.spurious && Micros(a.now - b.lastUpdate) > 1000
    requires var due := Earned(Micros(a.now - b.lastUpdate), b.rate);
             due < WORD && b.tokens + due / 1000000 < WORD && 1000000 * a.amount <= due
    ensures Granted(b, a)
  {
    RefillIsExactIff(b, a.now);
  }

  // ---------------------------------------------------------------- how long `acquire` may wait

  /** Neither the product nor the sum of a refill leaves the word, up to a time. */
  predicate NothingWraps(b: Bucket, until: int) {
    b.lastUpdate <= until &&
    var due := Earned(Micros(until - b.lastUpdate), b.rate);
    due < WORD && b.burst + due / 1000000 < WORD
  }

  lemma NothingWrapsEarlier(b: Bucket, e: Bucket, now: int, until: int)
    requires NothingWraps(b, until) && e.rate == b.rate && e.burst == b.burst
    requires b.lastUpdate <= e.lastUpdate <= now <= until
    ensures NothingWraps(e, now)
  {
    ScaleBound(Micros(now - e.lastUpdate), Micros(until - b.lastUpdate), b.rate);
  }

  /** At least half of what is due in a refill is paid out: only less than a token, and less than a
      microsecond of more than a thousand, is dropped. */
  lemma HalfIsPaid(nanos: nat, rate: nat)
    requires nanos / 1000 > 1000 && Earned(nanos / 1000, rate) >= 1000000
    ensures rate * nanos <= 2_002_000_000 * (Earned(nanos / 1000, rate) / 1000000)
  {
    var micros := nanos / 1000;
    ScaleBound(nanos, 1001 * micros, rate);
    assert 1001 * micros * rate == 1001 * Earned(micros, rate);
    HalfOfQuotient(Earned(micros, rate));
  }

  lemma AtLeastOne(p: nat)
    ensures p / 1000000 > 0 ==> p >= 1000000
  {
  }

  lemma HalfOfQuotient(p: nat)
    requires p >= 1000000
    ensures p <= 2000000 * (p / 1000000)
  {
  }

  lemma DueIsAdded(b: Bucket, now: int)
    requires NothingWraps(b, now) && NewTokens(b, now) > 0
    ensures var nanos := now - b.lastUpdate;
            && nanos / 1000 > 1000 && NewTokens(b, now) == Earned(nanos / 1000, b.rate) / 1000000
            && b.burst + NewTokens(b, now) < WORD
  {
  }

  lemma RefillIsPlain(b: Bucket, now: int)
    requires b.tokens <= b.burst && NothingWraps(b, now) && NewTokens(b, now) > 0
    ensures Refill(b, now) == b.(tokens := Min(b.burst, b.tokens + NewTokens(b, now)), lastUpdate := now)
  {
    DueIsAdded(b, now);
  }

  lemma RefillPays(b: Bucket, now: int)
    requires NothingWraps(b, now) && NewTokens(b, now) > 0
    ensures b.rate * (now - b.lastUpdate) <= 2_002_000_000 * NewTokens(b, now)
  {
    var nanos := now - b.lastUpdate;
    DueIsAdded(b, now);
    AtLeastOne(Earned(nanos / 1000, b.rate));
    HalfIsPaid(nanos, b.rate);
  }

  lemma LittleIsDue(p: nat)
    requires p < WORD && p % WORD / 1000000 == 0
    ensures p <= 999999
  {
  }

  lemma LittleIsShort(nanos: nat, rate: Size)
    requires Earned(nanos / 1000, rate) <= 999999
    ensures rate * nanos <= Slack(rate)
  {
    var micros := nanos / 1000;
    ScaleBound(nanos, 1000 * micros + 999, rate);
    assert (1000 * micros + 999) * rate == 1000 * Earned(micros, rate) + 999 * rate;
  }

  /** A refill is skipped only while little is due. */
  lemma SkippedIsShort(b: Bucket, now: int)
    requires NothingWraps(b, now) && NewTokens(b, now) == 0
    ensures b.rate * (now - b.lastUpdate) <= Slack(b.rate)
  {
    var nanos: nat := now - b.lastUpdate;
    var micros := nanos / 1000;
    if micros <= 1000 {
      ScaleBound(nanos, 1_000_999, b.rate);
    } else {
      LittleIsDue(Earned(micros, b.rate));
      LittleIsShort(nanos, b.rate);
    }
  }

  /** What a bucket has gained since an earlier state pays for half the time of its refills. */
  predicate Gained(b: Bucket, e: Bucket) {
    && e.rate == b.rate && e.burst == b.burst && b.tokens <= e.tokens <= e.burst && b.lastUpdate <= e.lastUpdate
    && b.rate * (e.lastUpdate - b.lastUpdate) <= 2_002_000_000 * (e.tokens - b.tokens)
  }

  lemma GainMore(b: Bucket, e: Bucket, now: int)
    requires Gained(b, e) && e.lastUpdate <= now && NothingWraps(e, now) && Refill(e, now).tokens < e.burst
    ensures Gained(b, Refill(e, now)) && Refill(e, now).lastUpdate <= now
    ensures b.rate * (now - Refill(e, now).lastUpdate) <= Slack(b.rate)
  {
    if NewTokens(e, now) > 0 {
      RefillIsPlain(e, now);
      RefillPays(e, now);
      SumOfTimes(b.rate, b.lastUpdate, e.lastUpdate, now);
      SlackIsPositive(b.rate, 0);
    } else {
      SkippedIsShort(e, now);
    }
  }

  lemma SumOfTimes(k: int, x: int, y: int, z: int)
    ensures k * (z - x) == k * (y - x) + k * (z - y)
  {
  }

  /** Polls for one amount, none of them failing for no reason. */
  predicate Polls(calls: seq<Attempt>, amount: Size) {
    forall i :: 0 <= i < |calls| ==> calls[i].amount == amount && !calls[i].spurious
  }

  /** What is known after polls that were all refused, the last of them at a given time. */
  predicate Waiting(b: Bucket, e: Bucket, amount: Size, last: int) {
    Gained(b, e) && e.tokens < amount && e.lastUpdate <= last && b.rate * (last - e.lastUpdate) <= Slack(b.rate)
  }

  lemma RefusedOnce(b: Bucket, e: Bucket, a: Attempt, until: int)
    requires NothingWraps(b, until) && Gained(b, e) && e.lastUpdate <= a.now <= until
    requires a.amount <= b.burst && !a.spurious && !Granted(e, a)
    ensures Waiting(b, Step(e, a), a.amount, a.now)
  {
    NothingWrapsEarlier(b, e, a.now, until);
    GainMore(b, e, a.now);
  }

  lemma {:induction false} RefusedRunGains(b: Bucket, calls: seq<Attempt>, amount: Size, until: int)
    requires b.tokens <= b.burst && amount <= b.burst && Polls(calls, amount) && Monotone(b.lastUpdate, calls)
    requires NothingWraps(b, until) && (calls != [] ==> calls[|calls| - 1].now <= until)
    requires RefusedBefore(b, calls, |calls|)
    ensures calls != [] ==> Waiting(b, Run(b, calls), amount, calls[|calls| - 1].now)
    decreases |calls|
  {
    if calls != [] {
      var front, last := calls[..|calls| - 1], calls[|calls| - 1];
      MonotonePrefix(b.lastUpdate, calls);
      RefusedFront(b, calls);
      RefusedRunGains(b, front, amount, until);
      NoGain(b);
      RefusedOnce(b, Run(b, front), last, until);
    }
  }

  lemma NoGain(b: Bucket)
    ensures b.tokens <= b.burst ==> Gained(b, b)
  {
  }

  lemma RefusedFront(b: Bucket, calls: seq<Attempt>)
    requires calls != [] && RefusedBefore(b, calls, |calls|)
    ensures RefusedBefore(b, calls[..|calls| - 1], |calls| - 1)
    ensures !Granted(Run(b, calls[..|calls| - 1]), calls[|calls| - 1])
  {
    var front := calls[..|calls| - 1];
    forall i: nat | i < |front| ensures !Granted(Run(b, front[..i]), front[i]) {
      assert front[..i] == calls[..i];
    }
  }

  /** A caller of `acquire` that asks for no more than the burst is not kept waiting for ever: however
      its polls fall, while all of them are refused the time since the last update before them is at most
      twice what the missing tokens take, a thousandth more, and the slack. */
  lemma WaitIsBounded(b: Bucket, calls: seq<Attempt>, amount: Size, now: int)
    requires b.tokens <= b.burst && amount <= b.burst && Polls(calls, amount) && Monotone(b.lastUpdate, calls)
    requires calls != [] && calls[|calls| - 1].now == now && NothingWraps(b, now)
    requires RefusedBefore(b, calls, |calls|)
    ensures b.tokens < amount
    ensures b.rate * (now - b.lastUpdate) <= 2_002_000_000 * (amount - 1 - b.tokens) + Slack(b.rate)
  {
    RefusedRunGains(b, calls, amount, now);
    SumOfTimes(b.rate, b.lastUpdate, Run(b, calls).lastUpdate, now);
  }

  // ---------------------------------------------------------------- what a run leaves

  lemma NothingIsDropped(e: Bucket, now: int)
    requires e.tokens <= e.burst && NothingWraps(e, now)
    ensures e.tokens <= Refill(e, now).tokens <= e.burst
  {
    if NewTokens(e, now) > 0 {
      RefillIsPlain(e, now);
    }
  }

  /** When nothing wraps, nothing is taken but what is granted: what a run leaves and what it granted are
      together at least what there was before. */
  lemma {:induction false} GrantsTakeNoMore(b: Bucket, calls: seq<Attempt>, until: int)
    requires b.tokens <= b.burst && Monotone(b.lastUpdate, calls) && NothingWraps(b, until)
    requires calls != [] ==> calls[|calls| - 1].now <= until
    ensures Run(b, calls).tokens + Total(b, calls) >= b.tokens
    decreases |calls|
  {
    if calls != [] {
      var front, last := calls[..|calls| - 1], calls[|calls| - 1];
      var e := Run(b, front);
      MonotonePrefix(b.lastUpdate, calls);
      GrantsTakeNoMore(b, front, until);
      RunKeepsBalance(b, front);
      NothingWrapsEarlier(b, e, last.now, until);
      NothingIsDropped(e, last.now);
      StepTakes(e, last);
    }
  }

  /** So a request is granted, however often and whenever it is asked, as long as it and what was granted
      before come to no more than there was. */
  lemma SpareIsGranted(b: Bucket, calls: seq<Attempt>, a: Attempt)
    requires b.tokens <= b.burst && Monotone(b.lastUpdate, calls) && b.lastUpdate <= a.now && NothingWraps(b, a.now)
    requires calls != [] ==> calls[|calls| - 1].now <= a.now
    requires !a.spurious && Total(b, calls) + a.amount <= b.tokens
    ensures Granted(Run(b, calls), a)
  {
    var e := Run(b, calls);
    GrantsTakeNoMore(b, calls, a.now);
    RunKeepsBalance(b, calls);
    NothingWrapsEarlier(b, e, a.now, a.now);
    NothingIsDropped(e, a.now);
  }
}
