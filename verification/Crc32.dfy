/** The CRC-32 of PNG chunks: the encoder's table-driven loop, and the register that
    section 3.4 of RFC 2083 describes bit by bit. */
module Crc32 {
  import opened Bytes
  import opened ShiftRegister

  /** The generator polynomial x^32 + x^26 + ... + x + 1, written low-order term first. */
  const POLYNOMIAL: bv32 := 0xedb8_8320

  // ---------------------------------------------------------------- the standard

  /** One data bit, the lowest of `data`, enters the register: it and the bit that leaves
      decide whether the polynomial is subtracted. */
  function ShiftBit(register: bv32, data: bv32): bv32 {
    var feedback := (register & 1) ^ (data & 1);
    if feedback == 1 then (register >> 1) ^ POLYNOMIAL else register >> 1
  }

  function Halve(x: bv32): bv32 { x >> 1 }

  /** The bits of an octet enter from the least significant to the most significant. */
  function ShiftOctet(register: bv32, octet: Byte): bv32 {
    Feed(ShiftBit, Halve, register, Widen(octet), 8)
  }

  function RegisterAfter(register: bv32, data: seq<Byte>): bv32 {
    if data == [] then register
    else ShiftOctet(RegisterAfter(register, data[..|data| - 1]), data[|data| - 1])
  }

  /** The CRC: the register starts as all ones and is inverted at the end. */
  function Crc(data: seq<Byte>): bv32 {
    Xor(RegisterAfter(0xffff_ffff, data), 0xffff_ffff)
  }

  // ---------------------------------------------------------------- steps without data

  /** What a step subtracts. */
  function Mask(register: bv32): bv32 {
    if register & 1 == 1 then POLYNOMIAL else 0
  }

  function Step(register: bv32): bv32 {
    if register & 1 == 1 then POLYNOMIAL ^ (register >> 1) else register >> 1
  }

  function Xor(x: bv32, y: bv32): bv32 { x ^ y }
  function LowBit(x: bv32): bv32 { x & 1 }
  function UpperBits(x: bv32): bv32 { (x >> 1) << 1 }

  lemma HalveIsLinear(x: bv32, y: bv32)
    ensures Halve(Xor(x, y)) == Xor(Halve(x), Halve(y))
  {
  }

  lemma MaskIsLinear(x: bv32, y: bv32)
    ensures Mask(Xor(x, y)) == Xor(Mask(x), Mask(y))
  {
  }

  lemma XorCommutes(a: bv32, b: bv32)
    ensures Xor(a, b) == Xor(b, a)
  {
  }

  lemma XorAssociates(a: bv32, b: bv32, c: bv32)
    ensures Xor(Xor(a, b), c) == Xor(a, Xor(b, c))
  {
  }

  lemma ZeroXor(x: bv32)
    ensures Xor(0, x) == x
  {
  }

  lemma StepIsSum(x: bv32)
    ensures Step(x) == Xor(Mask(x), Halve(x))
  {
    if x & 1 == 1 {
      assert Mask(x) == POLYNOMIAL;
    } else {
      assert Mask(x) == 0;
      ZeroXor(Halve(x));
    }
  }

  /** A step is linear over exclusive or. */
  lemma StepIsLinear()
    ensures forall a, b :: Step(Xor(a, b)) == Xor(Step(a), Step(b))
  {
    forall x { StepIsSum(x); }
    forall x, y { MaskIsLinear(x, y); }
    forall x, y { HalveIsLinear(x, y); }
    forall a, b { XorCommutes(a, b); }
    forall a, b, c { XorAssociates(a, b, c); }
    SumIsLinear(Step, Xor, Mask, Halve);
  }

  /** Any number of steps is linear. */
  lemma StepsAreLinear(x: bv32, y: bv32, count: nat)
    ensures Iterate(Step, Xor(x, y), count) == Xor(Iterate(Step, x, count), Iterate(Step, y, count))
  {
    StepIsLinear();
    IterateIsLinear(Step, Xor, x, y, count);
  }

  lemma SplitLowBit(x: bv32, d: bv32)
    ensures Xor(x, d) == Xor(Xor(x, LowBit(d)), UpperBits(d))
  {
  }

  lemma StepUpperBits(d: bv32)
    ensures Step(UpperBits(d)) == Halve(d)
  {
  }

  lemma StepByLowBit(x: bv32)
    ensures Step(x) == if LowBit(x) == 1 then Xor(Halve(x), POLYNOMIAL) else Halve(x)
  {
    if x & 1 == 1 {
    }
  }

  lemma ShiftByLowBits(register: bv32, data: bv32)
    ensures ShiftBit(register, data)
         == if Xor(LowBit(register), LowBit(data)) == 1 then Xor(Halve(register), POLYNOMIAL) else Halve(register)
  {
  }

  /** The data bit changes the lowest bit only. */
  lemma LowBitEnters(register: bv32, data: bv32)
    ensures LowBit(Xor(register, LowBit(data))) == Xor(LowBit(register), LowBit(data))
    ensures Halve(Xor(register, LowBit(data))) == Halve(register)
  {
  }

  lemma ShiftBitIsStep(register: bv32, data: bv32)
    ensures ShiftBit(register, data) == Step(Xor(register, LowBit(data)))
  {
    ShiftByLowBits(register, data);
    LowBitEnters(register, data);
    StepByLowBit(Xor(register, LowBit(data)));
  }

  /** The register of RFC 2083 is a linear shift register. */
  lemma RegisterIsLinear()
    ensures Linear(ShiftBit, Step, Xor, LowBit, UpperBits, Halve)
  {
    StepIsLinear();
    forall a, d { SplitLowBit(a, d); }
    forall d { StepUpperBits(d); }
    forall a, d { ShiftBitIsStep(a, d); }
  }

  lemma XorZero(x: bv32)
    ensures Xor(x, 0) == x
  {
  }

  lemma HalveFourTimes(x: bv32, count: nat)
    ensures Iterate(Halve, x, count + 4) == Iterate(Halve, x >> 4, count)
  {
    assert (x >> 1) >> 1 == x >> 2 && (x >> 2) >> 1 == x >> 3 && (x >> 3) >> 1 == x >> 4;
    IterateFour(Halve, x, x >> 1, x >> 2, x >> 3, x >> 4, count);
  }

  lemma FourAndFour(x: bv32)
    ensures (x >> 4) >> 4 == x >> 8
    ensures x & 0xff == 0 ==> x & 0xf == 0 && (x >> 4) & 0xf == 0
  {
  }

  lemma HalveEightTimes(x: bv32)
    ensures Iterate(Halve, x, 8) == x >> 8
  {
    HalveFourTimes(x, 4);
    HalveFourTimes(x >> 4, 0);
    FourAndFour(x);
  }

  lemma StepMoves(x: bv32, half: bv32, count: nat)
    requires x & 1 == 0 && half == x >> 1
    ensures Iterate(Step, x, count + 1) == Iterate(Step, half, count)
  {
  }

  lemma CleanBits(x: bv32, half: bv32)
    requires half == x >> 1
    ensures x & 3 == 0 ==> x & 1 == 0 && half & 1 == 0 && half >> 1 == x >> 2
    ensures x & 0xf == 0 ==> x & 3 == 0 && (x >> 2) & 3 == 0 && (x >> 2) >> 2 == x >> 4
  {
  }

  lemma TwoCleanSteps(x: bv32, quarter: bv32, count: nat)
    requires x & 3 == 0 && quarter == x >> 2
    ensures Iterate(Step, x, count + 2) == Iterate(Step, quarter, count)
  {
    CleanBits(x, x >> 1);
    StepMoves(x, x >> 1, count + 1);
    StepMoves(x >> 1, quarter, count);
  }

  lemma FourCleanSteps(x: bv32, count: nat)
    requires x & 0xf == 0
    ensures Iterate(Step, x, count + 4) == Iterate(Step, x >> 4, count)
  {
    CleanBits(x, x >> 1);
    TwoCleanSteps(x, x >> 2, count + 2);
    TwoCleanSteps(x >> 2, x >> 4, count);
  }

  /** Eight steps of a register whose low octet is clear only move it. */
  lemma CleanSteps(x: bv32)
    requires x & 0xff == 0
    ensures Iterate(Step, x, 8) == x >> 8
  {
    FourAndFour(x);
    FourCleanSteps(x, 4);
    FourCleanSteps(x >> 4, 0);
  }

  // ---------------------------------------------------------------- the table

  /** Entry `index` of the lookup table: eight steps without data. */
  function TableEntry(index: bv32): bv32 {
    Iterate(Step, index, 8)
  }

  lemma FeedFromParts(register: bv32, data: bv32, mixed: bv32, index: bv32, high: bv32, moved: bv32, count: nat)
    requires Iterate(Halve, data, count) == 0
    requires mixed == Xor(register, data) == Xor(index, high)
    requires Iterate(Step, high, count) == moved
    ensures Feed(ShiftBit, Halve, register, data, count) == Iterate(Step, mixed, count)
    ensures Feed(ShiftBit, Halve, register, data, count) == Xor(Iterate(Step, index, count), moved)
  {
    RegisterIsLinear();
    forall a { XorZero(a); }
    FeedIsLookup(ShiftBit, Step, Xor, LowBit, UpperBits, Halve, 0, register, data, index, high, moved, count);
  }

  lemma SplitMixed(register: bv32, data: bv32)
    requires data >> 8 == 0
    ensures Xor(Xor(register, data) & 0xff, (register >> 8) << 8) == Xor(register, data)
    ensures ((register >> 8) << 8) & 0xff == 0
    ensures ((register >> 8) << 8) >> 8 == register >> 8
  {
  }

  /** Feeding eight bits of data is looking up the register's low octet combined with them. */
  lemma LookupWord(register: bv32, data: bv32)
    requires data >> 8 == 0
    ensures Feed(ShiftBit, Halve, register, data, 8) == Iterate(Step, Xor(register, data), 8)
    ensures Feed(ShiftBit, Halve, register, data, 8) == Xor(TableEntry(Xor(register, data) & 0xff), register >> 8)
  {
    SplitMixed(register, data);
    HalveEightTimes(data);
    CleanSteps((register >> 8) << 8);
    FeedFromParts(register, data, Xor(register, data), Xor(register, data) & 0xff,
                  (register >> 8) << 8, register >> 8, 8);
  }

  lemma OctetIsShort(octet: Byte)
    ensures Widen(octet) >> 8 == 0
  {
    ZeroExtension(octet as bv8, 0);
  }

  /** One table lookup does what the standard's register does with one octet. */
  lemma LookupStep(register: bv32, octet: Byte)
    ensures ShiftOctet(register, octet) == Iterate(Step, Xor(register, Widen(octet)), 8)
    ensures ShiftOctet(register, octet) == Xor(TableEntry(Xor(register, Widen(octet)) & 0xff), register >> 8)
  {
    OctetIsShort(octet);
    LookupWord(register, Widen(octet));
  }

  // ---------------------------------------------------------------- the code

  predicate IsTable(table: seq<bv32>) {
    |table| == 256 && forall k :: 0 <= k < 256 ==> table[k] == TableEntry(k as bv32)
  }

  method MakeTable() returns (table: seq<bv32>)
    ensures IsTable(table)
  {
    table := [];
    var index := 0;
    while index < 256
      invariant 0 <= index <= 256 && |table| == index
      invariant forall k :: 0 <= k < index ==> table[k] == TableEntry(k as bv32)
    {
      var crc := index as bv32;
      var bit := 0;
      while bit < 8
        invariant 0 <= bit <= 8
        invariant Iterate(Step, crc, 8 - bit) == TableEntry(index as bv32)
      {
        if crc & 1 == 1 {
          crc := POLYNOMIAL ^ (crc >> 1);
        } else {
          crc := crc >> 1;
        }
        bit := bit + 1;
      }
      table := table + [crc];
      index := index + 1;
    }
  }

  lemma LowOctetIsIndex(x: bv32)
    ensures (x & 0xff) as int < 256
  {
  }

  method Lookup(table: seq<bv32>, x: bv32) returns (entry: bv32)
    requires IsTable(table)
    ensures entry == TableEntry(x & 0xff)
  {
    LowOctetIsIndex(x);
    WordFromItsValue(x & 0xff);
    entry := table[(x & 0xff) as int];
  }

  /** One turn of the encoder's loop. */
  method Advance(table: seq<bv32>, crc: bv32, octet: Byte) returns (next: bv32)
    requires IsTable(table)
    ensures next == ShiftOctet(crc, octet)
  {
    LookupStep(crc, octet);
    var entry := Lookup(table, Xor(crc, Widen(octet)));
    next := Xor(entry, crc >> 8);
  }

  /** The encoder's loop over the table computes the standard's CRC of any octets. */
  method Compute(data: seq<Byte>) returns (crc: bv32)
    ensures crc == Crc(data)
  {
    var table := MakeTable();
    crc := 0xffff_ffff;
    var index := 0;
    while index < |data|
      invariant 0 <= index <= |data|
      invariant crc == RegisterAfter(0xffff_ffff, data[..index])
    {
      var octet := data[index];
      assert data[..index + 1][..index] == data[..index];
      crc := Advance(table, crc, octet);
      index := index + 1;
    }
    assert data[..index] == data;
    crc := Xor(crc, 0xffff_ffff);
  }

  // ---------------------------------------------------------------- what the CRC detects

  lemma StepIsInjective(x: bv32, y: bv32)
    requires Step(x) == Step(y)
    ensures x == y
  {
  }

  lemma StepsAreInjective(x: bv32, y: bv32, count: nat)
    requires Iterate(Step, x, count) == Iterate(Step, y, count)
    ensures x == y
  {
    forall a, b | Step(a) == Step(b) ensures a == b {
      StepIsInjective(a, b);
    }
    IterateIsInjective(Step, x, y, count);
  }

  /** Different registers stay different whatever octets follow. */
  lemma {:induction false} RegisterIsInjective(x: bv32, y: bv32, data: seq<Byte>)
    requires RegisterAfter(x, data) == RegisterAfter(y, data)
    ensures x == y
  {
    if data != [] {
      var front, octet := data[..|data| - 1], data[|data| - 1];
      var p, q := RegisterAfter(x, front), RegisterAfter(y, front);
      ShiftIsInjective(p, q, octet);
      RegisterIsInjective(x, y, front);
    }
  }

  lemma ShiftIsInjective(p: bv32, q: bv32, octet: Byte)
    requires ShiftOctet(p, octet) == ShiftOctet(q, octet)
    ensures p == q
  {
    LookupStep(p, octet);
    LookupStep(q, octet);
    StepsAreInjective(Xor(p, Widen(octet)), Xor(q, Widen(octet)), 8);
    XorCancels(p, q, Widen(octet));
  }

  lemma XorCancels(p: bv32, q: bv32, d: bv32)
    requires Xor(p, d) == Xor(q, d)
    ensures p == q
  {
  }

  lemma {:induction false} RegisterAppends(x: bv32, first: seq<Byte>, second: seq<Byte>)
    ensures RegisterAfter(x, first + second) == RegisterAfter(RegisterAfter(x, first), second)
    decreases |second|
  {
    if second == [] {
      assert first + second == first;
    } else {
      var front := second[..|second| - 1];
      assert (first + second)[..|first + second| - 1] == first + front;
      RegisterAppends(x, first, front);
    }
  }

  function Append(octet: Byte, load: bv32): bv32 {
    Xor(Widen(octet), load << 8)
  }

  /** Up to four octets as one word, first octet lowest. */
  function Load(data: seq<Byte>): bv32 {
    Pack(Append, 0, data)
  }

  predicate Fits(load: bv32, octets: nat) {
    if octets == 0 then load == 0
    else if octets == 1 then load >> 8 == 0
    else if octets == 2 then load >> 16 == 0
    else octets >= 4 || load >> 24 == 0
  }

  lemma FitsOneMore(octet: Byte, load: bv32, octets: nat)
    requires octets < 4 && Fits(load, octets)
    ensures Fits(Append(octet, load), octets + 1)
    ensures load >> 24 == 0
  {
    OctetIsShort(octet);
    FitsNext(Widen(octet), load, octets);
  }

  lemma FitsNext(low: bv32, load: bv32, octets: nat)
    requires low >> 8 == 0
    requires octets < 4 && Fits(load, octets)
    ensures Fits(Xor(low, load << 8), octets + 1)
    ensures load >> 24 == 0
  {
    if octets == 0 {} else if octets == 1 {} else if octets == 2 {} else {}
  }

  lemma UnloadWord(low: bv32, load: bv32)
    requires low >> 8 == 0 && load >> 24 == 0
    ensures Xor(low, load << 8) & 0xff == low && Xor(low, load << 8) >> 8 == load
  {
  }

  lemma Unload(a: Byte, x: bv32)
    requires x >> 24 == 0
    ensures Append(a, x) & 0xff == Widen(a) && Append(a, x) >> 8 == x
  {
    OctetIsShort(a);
    UnloadWord(Widen(a), x);
  }

  lemma LoadsPack()
    ensures Packs(Append, 0, Fits, 4)
  {
    forall a, x, n: nat | n < 4 && Fits(x, n) ensures Fits(Append(a, x), n + 1) {
      FitsOneMore(a, x, n);
    }
    forall a, x, b, y, n: nat | n < 4 && Fits(x, n) && Fits(y, n) && Append(a, x) == Append(b, y)
      ensures a == b && x == y
    {
      FitsOneMore(a, x, n);
      FitsOneMore(b, y, n);
      Unload(a, x);
      Unload(b, y);
      WidenIsInjective(a, b);
    }
  }

  lemma LoadIsShort(data: seq<Byte>)
    requires |data| <= 3
    ensures Load(data) >> 24 == 0
  {
    LoadsPack();
    PackFits(Append, 0, Fits, 4, data);
    FitsOneMore(0, Load(data), |data|);
  }

  lemma LiftedLoad(load: bv32)
    requires load >> 24 == 0
    ensures (load << 8) & 0xff == 0 && (load << 8) >> 8 == load
  {
  }

  lemma MergeOctet(register: bv32, octet: Byte, load: bv32)
    requires load >> 24 == 0
    ensures Xor(ShiftOctet(register, octet), load)
         == Iterate(Step, Xor(register, Append(octet, load)), 8)
  {
    LookupStep(register, octet);
    LiftedLoad(load);
    CleanSteps(load << 8);
    StepsAreLinear(Xor(register, Widen(octet)), load << 8, 8);
    XorAssociates(register, Widen(octet), load << 8);
  }

  lemma MergeThenStep(register: bv32, octet: Byte, load: bv32, count: nat)
    requires load >> 24 == 0
    ensures Iterate(Step, Xor(ShiftOctet(register, octet), load), count)
         == Iterate(Step, Xor(register, Append(octet, load)), 8 + count)
  {
    MergeOctet(register, octet, load);
    IterateComposes(Step, Xor(register, Append(octet, load)), 8, count);
  }

  lemma RegisterAfterFirst(register: bv32, data: seq<Byte>)
    requires data != []
    ensures RegisterAfter(register, data) == RegisterAfter(ShiftOctet(register, data[0]), data[1..])
  {
    assert data == [data[0]] + data[1..];
    RegisterAppends(register, [data[0]], data[1..]);
    assert [data[0]][..0] == [];
  }

  /** Up to four octets act on the register as one word combined with it before the steps. */
  lemma {:induction false} WindowActsAsWord(register: bv32, data: seq<Byte>)
    requires |data| <= 4
    ensures RegisterAfter(register, data) == Iterate(Step, Xor(register, Load(data)), 8 * |data|)
    decreases |data|
  {
    if data == [] {
      XorZero(register);
    } else {
      var rest := data[1..];
      RegisterAfterFirst(register, data);
      WindowActsAsWord(ShiftOctet(register, data[0]), rest);
      LoadIsShort(rest);
      MergeThenStep(register, data[0], Load(rest), 8 * |rest|);
    }
  }

  lemma WindowIsInjective(register: bv32, u: seq<Byte>, v: seq<Byte>)
    requires |u| == |v| <= 4
    requires RegisterAfter(register, u) == RegisterAfter(register, v)
    ensures u == v
  {
    WindowActsAsWord(register, u);
    WindowActsAsWord(register, v);
    StepsAreInjective(Xor(register, Load(u)), Xor(register, Load(v)), 8 * |u|);
    XorCommutes(register, Load(u));
    XorCommutes(register, Load(v));
    XorCancels(Load(u), Load(v), register);
    LoadsPack();
    PackIsInjective(Append, 0, Fits, 4, u, v);
  }

  lemma RegistersDiffer(x: bv32, before: seq<Byte>, u: seq<Byte>, v: seq<Byte>, after: seq<Byte>)
    requires |u| == |v| <= 4
    requires RegisterAfter(x, before + u + after) == RegisterAfter(x, before + v + after)
    ensures u == v
  {
    RegisterAppends(x, before + u, after);
    RegisterAppends(x, before + v, after);
    RegisterIsInjective(RegisterAfter(x, before + u), RegisterAfter(x, before + v), after);
    RegisterAppends(x, before, u);
    RegisterAppends(x, before, v);
    WindowIsInjective(RegisterAfter(x, before), u, v);
  }

  /** Any change confined to four consecutive octets changes the CRC, whatever precedes
      and follows. */
  lemma BurstIsDetected(before: seq<Byte>, u: seq<Byte>, v: seq<Byte>, after: seq<Byte>)
    requires |u| == |v| <= 4
    requires u != v
    ensures Crc(before + u + after) != Crc(before + v + after)
  {
    var x, y := RegisterAfter(0xffff_ffff, before + u + after), RegisterAfter(0xffff_ffff, before + v + after);
    if Xor(x, 0xffff_ffff) == Xor(y, 0xffff_ffff) {
      XorCancels(x, y, 0xffff_ffff);
      RegistersDiffer(0xffff_ffff, before, u, v, after);
    }
  }

  // ---------------------------------------------------------------- a known answer

  /** Four shifts in a row. */
  function FourShifts(r: bv32, d: bv32): bv32 {
    ShiftBit(ShiftBit(ShiftBit(ShiftBit(r, d), d >> 1), d >> 2), d >> 3)
  }

  lemma HalveTwice(d: bv32)
    ensures Halve(Halve(d)) == d >> 2 && Halve(Halve(Halve(d))) == d >> 3 && Halve(d >> 3) == d >> 4
  {
  }

  lemma FeedFour(r: bv32, d: bv32, count: nat)
    ensures Feed(ShiftBit, Halve, r, d, count + 4) == Feed(ShiftBit, Halve, FourShifts(r, d), d >> 4, count)
  {
    HalveTwice(d);
    var a := ShiftBit(r, d);
    var b := ShiftBit(a, d >> 1);
    var c := ShiftBit(b, d >> 2);
    assert Feed(ShiftBit, Halve, r, d, count + 4) == Feed(ShiftBit, Halve, a, d >> 1, count + 3);
    assert Feed(ShiftBit, Halve, a, d >> 1, count + 3) == Feed(ShiftBit, Halve, b, d >> 2, count + 2);
    assert Feed(ShiftBit, Halve, b, d >> 2, count + 2) == Feed(ShiftBit, Halve, c, d >> 3, count + 1);
  }

  lemma FeedOctet(r: bv32, octet: Byte, d: bv32, s: bv32)
    requires Widen(octet) == d && s == FourShifts(FourShifts(r, d), d >> 4)
    ensures ShiftOctet(r, octet) == s
  {
    FeedFour(r, d, 4);
    FeedFour(FourShifts(r, d), d >> 4, 0);
  }

  lemma FirstTwo()
    ensures ShiftOctet(0xffff_ffff, 0x49) == 0x22fd_e946
    ensures ShiftOctet(0x22fd_e946, 0x45) == 0x992b_ac53
  {
    FeedOctet(0xffff_ffff, 0x49, 0x49, 0x22fd_e946);
    FeedOctet(0x22fd_e946, 0x45, 0x45, 0x992b_ac53);
  }

  lemma LastTwo()
    ensures ShiftOctet(0x992b_ac53, 0x4e) == 0x639f_4775
    ensures ShiftOctet(0x639f_4775, 0x44) == 0x51bd_9f7d
  {
    FeedOctet(0x992b_ac53, 0x4e, 0x4e, 0x639f_4775);
    FeedOctet(0x639f_4775, 0x44, 0x44, 0x51bd_9f7d);
  }

  lemma RegisterOfOneMore(r: bv32, data: seq<Byte>, octet: Byte)
    ensures RegisterAfter(r, data + [octet]) == ShiftOctet(RegisterAfter(r, data), octet)
  {
    assert (data + [octet])[..|data|] == data;
  }

  lemma RegisterOfFour(r: bv32, a: Byte, b: Byte, c: Byte, d: Byte)
    ensures RegisterAfter(r, [a, b, c, d]) == ShiftOctet(ShiftOctet(ShiftOctet(ShiftOctet(r, a), b), c), d)
  {
    RegisterOfOneMore(r, [a, b, c], d);
    RegisterOfOneMore(r, [a, b], c);
    RegisterOfOneMore(r, [a], b);
    RegisterOfOneMore(r, [], a);
    assert [a, b, c] + [d] == [a, b, c, d] && [a, b] + [c] == [a, b, c] && [a] + [b] == [a, b] && [] + [a] == [a];
  }

  /** The CRC of a chunk of type IEND without data, with which every file ends. */
  lemma CrcOfIend()
    ensures Crc([0x49, 0x45, 0x4e, 0x44]) == 0xae42_6082
  {
    FirstTwo();
    LastTwo();
    RegisterOfFour(0xffff_ffff, 0x49, 0x45, 0x4e, 0x44);
  }
}
