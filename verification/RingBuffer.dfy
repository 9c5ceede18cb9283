/** The single-producer, single-consumer ring buffer as one thread uses it, and the capacity test
    of its constructor. */
module RingBuffer {
  import opened Numbers
  import opened Wrappers

  // ---------------------------------------------------------------- the mask trick

  /** The bitwise and of two numbers: the lowest bits, then the rest. */
  function And(x: nat, y: nat): nat
    decreases x
  {
    if x == 0 then 0 else 2 * And(x / 2, y / 2) + AndOfBits(x % 2, y % 2)
  }

  function AndOfBits(x: nat, y: nat): nat { if x == 1 && y == 1 then 1 else 0 }

  function Increment(i: Size): Size { (i + 1) % WORD }
  function Decrement(i: Size): Size { if i == 0 then WORD - 1 else i - 1 }

  /** The constructor's test: `(capacity & (capacity - 1)) == 0`. */
  predicate Accepted(capacity: Size) {
    And(capacity, Decrement(capacity)) == 0
  }

  /** The index after `i`, as `(i + 1) & mask` computes it. */
  function MaskedNext(i: Size, capacity: Size): nat {
    And(Increment(i), Decrement(capacity))
  }

  /** The successor of an index below the capacity. */
  function Next(i: nat, capacity: nat): nat {
    if i + 1 == capacity then 0 else i + 1
  }

  lemma {:induction false} AndItself(x: nat)
    ensures And(x, x) == x
    decreases x
  {
    if x > 0 {
      AndItself(x / 2);
    }
  }

  lemma AndDoubled(x: nat, y: nat)
    ensures And(2 * x + 1, 2 * y) == 2 * And(x, y)
    ensures And(2 * x, 2 * y + 1) == 2 * And(x, y)
  {
    assert (2 * x + 1) / 2 == x && 2 * y / 2 == y && 2 * x / 2 == x && (2 * y + 1) / 2 == y;
  }

  lemma AndBelowOdd(half: nat)
    ensures And(2 * half + 1, 2 * half) == 2 * half
  {
    AndDoubled(half, half);
    AndItself(half);
  }

  lemma AndBelowEven(half: nat)
    requires half > 0
    ensures And(2 * half, 2 * half - 1) == 2 * And(half, half - 1)
  {
    AndDoubled(half, half - 1);
    assert 2 * half - 1 == 2 * (half - 1) + 1;
  }

  /** Odd numbers above one are refused, and of an even one the half decides. */
  lemma HalfDecides(capacity: nat, half: nat)
    requires half > 0 && (capacity == 2 * half || capacity == 2 * half + 1)
    requires And(capacity, capacity - 1) == 0
    ensures capacity == 2 * half && And(half, half - 1) == 0
  {
    if capacity == 2 * half {
      AndBelowEven(half);
    } else {
      AndBelowOdd(half);
    }
  }

  /** The mask of an accepted capacity keeps every index. */
  lemma {:induction false} IndexIsKept(i: nat, capacity: nat)
    requires i < capacity && And(capacity, capacity - 1) == 0
    ensures And(i, capacity - 1) == i
    decreases capacity
  {
    if i > 0 {
      HalfDecides(capacity, capacity / 2);
      IndexIsKept(i / 2, capacity / 2);
    }
  }

  lemma KeptOrZero(n: nat, capacity: nat)
    requires n <= capacity && capacity > 0 && And(capacity, capacity - 1) == 0
    ensures And(n, capacity - 1) == if n == capacity then 0 else n
  {
    if n < capacity {
      IndexIsKept(n, capacity);
    }
  }

  lemma PlainWords(i: Size, capacity: Size)
    requires i < capacity
    ensures Increment(i) == i + 1 && Decrement(capacity) == capacity - 1
  {
  }

  /** For an accepted capacity the mask computes the cyclic successor. */
  lemma MaskedNextIsNext(i: Size, capacity: Size)
    requires Accepted(capacity) && i < capacity
    ensures MaskedNext(i, capacity) == Next(i, capacity)
  {
    PlainWords(i, capacity);
    KeptOrZero(i + 1, capacity);
  }

  ghost predicate StepsCyclically(capacity: Size) {
    forall i: Size :: i < capacity ==> MaskedNext(i, capacity) == Next(i, capacity)
  }

  /** The constructor lets through exactly zero and the capacities for which the mask computes
      the cyclic successor of every index. */
  lemma AcceptedCapacities(capacity: Size)
    ensures Accepted(capacity) <==> capacity == 0 || StepsCyclically(capacity)
  {
    if Accepted(capacity) {
      forall i: Size | i < capacity ensures MaskedNext(i, capacity) == Next(i, capacity) {
        MaskedNextIsNext(i, capacity);
      }
    } else if capacity != 0 {
      assert MaskedNext(capacity - 1, capacity) != Next(capacity - 1, capacity);
    }
  }

  function Power2(k: nat): nat { if k == 0 then 1 else 2 * Power2(k - 1) }

  lemma {:induction false} PowersAreAccepted(k: nat)
    ensures Power2(k) > 0 && And(Power2(k), Power2(k) - 1) == 0
    decreases k
  {
    if k > 0 {
      PowersAreAccepted(k - 1);
      AndBelowEven(Power2(k - 1));
    }
  }

  lemma {:induction false} AcceptedIsPower(capacity: nat) returns (k: nat)
    requires capacity > 0 && And(capacity, capacity - 1) == 0
    ensures capacity == Power2(k)
    decreases capacity
  {
    if capacity == 1 {
      k := 0;
    } else {
      HalfDecides(capacity, capacity / 2);
      var j := AcceptedIsPower(capacity / 2);
      k := j + 1;
    }
  }

  /** Apart from zero these are the powers of two, as the constructor's message says. */
  lemma AcceptedArePowers(capacity: Size)
    requires capacity > 0
    ensures Accepted(capacity) <==> exists k: nat :: capacity == Power2(k)
  {
    if Accepted(capacity) {
      var k := AcceptedIsPower(capacity);
    }
    forall k: nat | capacity == Power2(k) ensures Accepted(capacity) {
      PowersAreAccepted(k);
    }
  }

  /** Zero passes the test, and the first push then finds its next index free: it goes on to
      write a slot of a buffer that has none. */
  lemma ZeroIsAcceptedAndNeverFull()
    ensures Accepted(0) && MaskedNext(0, 0) != 0
  {
    assert And(1, WORD - 1) == 2 * And(0, (WORD - 1) / 2) + 1;
  }

  // ---------------------------------------------------------------- the class

  class LocklessRingBuffer<T(0)> {
    const capacity: Size
    const mask: Size
    const buffer: array<T>
    var head: Size
    var tail: Size

    ghost predicate Valid()
      reads this
    {
      && 1 <= capacity == buffer.Length && mask == capacity - 1 && Accepted(capacity)
      && head < capacity && tail < capacity
    }

    /** The items pushed and not yet popped, oldest first. */
    ghost function Contents(): (s: seq<T>)
      requires Valid()
      reads this, buffer
      ensures |s| < capacity
    {
      if head <= tail then buffer[head..tail] else buffer[head..] + buffer[..tail]
    }

    /** Throws on a capacity that is not accepted. */
    static method Create(capacity: Size) returns (r: Option<LocklessRingBuffer<T>>)
      requires capacity >= 1
      ensures r.Some? == Accepted(capacity)
      ensures r.Some? ==> r.value.Valid() && r.value.capacity == capacity && r.value.Contents() == []
    {
      if And(capacity, capacity - 1) != 0 {
        return None;
      }
      var b := new LocklessRingBuffer<T>(capacity);
      return Some(b);
    }

    constructor (capacity: Size)
      requires capacity >= 1 && Accepted(capacity)
      ensures Valid() && this.capacity == capacity && fresh(buffer)
      ensures Contents() == []
    {
      this.capacity := capacity;
      mask := capacity - 1;
      buffer := new T[capacity];
      head, tail := 0, 0;
    }

    /** Appends the item unless `capacity - 1` items are waiting. */
    method Push(item: T) returns (ok: bool)
      requires Valid()
      modifies this`tail, buffer
      ensures Valid()
      ensures ok == (|old(Contents())| < capacity - 1)
      ensures Contents() == if ok then old(Contents()) + [item] else old(Contents())
    {
      var currentTail := tail;
      var nextTail := And(Increment(currentTail), mask);
      MaskedNextIsNext(currentTail, capacity);
      if nextTail == head {
        return false;
      }
      buffer[currentTail] := item;
      tail := nextTail;
      return true;
    }

    /** Removes and returns the oldest item, if there is one. */
    method Pop() returns (item: Option<T>)
      requires Valid()
      modifies this`head
      ensures Valid()
      ensures item.None? == (old(Contents()) == [])
      ensures item.None? ==> Contents() == []
      ensures item.Some? ==> [item.value] + Contents() == old(Contents())
    {
      var currentHead := head;
      if currentHead == tail {
        return None;
      }
      var found := buffer[currentHead];
      MaskedNextIsNext(currentHead, capacity);
      head := And(Increment(currentHead), mask);
      return Some(found);
    }

    method Size() returns (n: nat)
      requires Valid()
      ensures n == |Contents()|
    {
      var h, t := head, tail;
      if t >= h {
        return t - h;
      }
      return (capacity - h) + t;
    }

    method Empty() returns (empty: bool)
      requires Valid()
      ensures empty == (Contents() == [])
    {
      return head == tail;
    }
  }
}
