/** Octets and the byte orders of the PNG and zlib containers.  Octets and 32-bit quantities are
    numbers; shifts and masks of them are written as the divisions and remainders they are.
    Only the CRC register is a bit vector. */
module Bytes {

  newtype Byte = x: int | 0 <= x < 0x100
  type UInt16 = x: int | 0 <= x < 0x1_0000
  type UInt32 = x: int | 0 <= x < 0x1_0000_0000

  /** The octets of a 32-bit value as the encoder appends them: `(value >> 24) & 0xff` first. */
  function BigEndian32(value: UInt32): (r: seq<Byte>)
    ensures |r| == 4
  {
    [(value / 0x100_0000) as Byte, (value / 0x1_0000 % 0x100) as Byte,
     (value / 0x100 % 0x100) as Byte, (value % 0x100) as Byte]
  }

  /** The number that four octets denote, most significant first (section 2.1 of RFC 2083). */
  function NetworkOrder(b: seq<Byte>): UInt32
    requires |b| == 4
  {
    (b[0] as int) * 0x100_0000 + (b[1] as int) * 0x1_0000 + (b[2] as int) * 0x100 + (b[3] as int)
  }

  /** Writing a 32-bit value and reading it in network order gives it back. */
  lemma BigEndianRoundTrip(value: UInt32)
    ensures NetworkOrder(BigEndian32(value)) == value
  {
    var high, low := value / 0x1_0000, value % 0x1_0000;
    assert value / 0x100_0000 == high / 0x100;
    assert value / 0x100 == high * 0x100 + low / 0x100;
    assert value / 0x100 % 0x100 == low / 0x100;
    assert value % 0x100 == low % 0x100;
  }

  lemma Written(value: UInt32) returns (octets: seq<Byte>)
    ensures octets == BigEndian32(value) && |octets| == 4 && NetworkOrder(octets) == value
  {
    octets := BigEndian32(value);
    BigEndianRoundTrip(value);
  }

  /** What a cast to an unsigned 32-bit integer keeps. */
  function Truncate32(x: nat): UInt32 {
    x % 0x1_0000_0000
  }

  lemma TruncateSmall(x: nat)
    requires x < 0x1_0000_0000
    ensures Truncate32(x) == x
  {
  }

  /** An octet widened to a 32-bit register. */
  function Widen(x: Byte): bv32 {
    (x as bv8) as bv32
  }

  lemma NextOctet(b: bv8)
    requires b != 0xff
    ensures (b + 1) as int == b as int + 1
  {
  }

  lemma OctetFromItsValue(b: bv8)
    ensures (b as int) as bv8 == b
  {
  }

  lemma {:induction false} OctetKeepsValue(x: int)
    requires 0 <= x < 0x100
    ensures (x as bv8) as int == x
    decreases x
  {
    if x > 0 {
      OctetKeepsValue(x - 1);
      var p := (x - 1) as bv8;
      NextOctet(p);
      OctetFromItsValue(p + 1);
    }
  }

  lemma ZeroExtension(a: bv8, b: bv8)
    ensures a as bv32 >> 8 == 0
    ensures a as bv32 == b as bv32 ==> a == b
  {
  }

  lemma WidenIsInjective(x: Byte, y: Byte)
    requires Widen(x) == Widen(y)
    ensures x == y
  {
    OctetKeepsValue(x as int);
    OctetKeepsValue(y as int);
    ZeroExtension(x as bv8, y as bv8);
  }

  lemma WordFromItsValue(w: bv32)
    ensures (w as int) as bv32 == w
  {
  }
}
