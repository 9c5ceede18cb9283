/** The zlib stream the PNG encoder writes: a two-octet header, stored DEFLATE blocks and an
    Adler-32 checksum, and a decoder for such streams written from RFC 1950 and RFC 1951. */
module Zlib {
  import opened Bytes
  import opened Wrappers
  import opened Sequences

  // ---------------------------------------------------------------- Adler-32

  const ADLER_MODULUS := 65521

  function OctetSum(data: seq<Byte>): nat {
    if data == [] then 0 else OctetSum(data[..|data| - 1]) + data[|data| - 1] as int
  }

  /** The sum, over all non-empty prefixes, of one plus the prefix's octets. */
  function PrefixSum(data: seq<Byte>): nat {
    if data == [] then 0 else PrefixSum(data[..|data| - 1]) + 1 + OctetSum(data)
  }

  /** The checksum of section 2.2 of RFC 1950: s2 * 65536 + s1, both modulo 65521. */
  function Adler(data: seq<Byte>): UInt32
  {
    PrefixSum(data) % ADLER_MODULUS * 0x1_0000 + (1 + OctetSum(data)) % ADLER_MODULUS
  }

  lemma ModuloAdds(x: int, y: int)
    ensures (x % ADLER_MODULUS + y) % ADLER_MODULUS == (x + y) % ADLER_MODULUS
  {
  }

  predicate AreSums(a: int, b: int, data: seq<Byte>) {
    a == (1 + OctetSum(data)) % ADLER_MODULUS && b == PrefixSum(data) % ADLER_MODULUS
  }

  lemma NextSums(a: int, b: int, data: seq<Byte>, octet: Byte)
    requires AreSums(a, b, data)
    ensures var more := (a + octet as int) % ADLER_MODULUS;
            AreSums(more, (b + more) % ADLER_MODULUS, data + [octet])
  {
    var s, p, x := 1 + OctetSum(data), PrefixSum(data), octet as int;
    SplitAppend(data, [octet]);
    ModuloAdds(s, x);
    ModuloAdds(p, (s + x) % ADLER_MODULUS);
    ModuloAdds(s + x, p);
  }

  /** The encoder's two running sums, reduced at every octet, give the checksum. */
  method ComputeAdler(data: seq<Byte>) returns (sum: UInt32)
    ensures sum == Adler(data)
    ensures sum % 0x1_0000 == (1 + OctetSum(data)) % 65521 && sum / 0x1_0000 == PrefixSum(data) % 65521
  {
    var a, b := 1, 0;
    var index := 0;
    while index < |data|
      invariant 0 <= index <= |data|
      invariant AreSums(a, b, data[..index])
    {
      NextPrefix(data, index);
      NextSums(a, b, data[..index], data[index]);
      a := (a + data[index] as int) % ADLER_MODULUS;
      b := (b + a) % ADLER_MODULUS;
      index := index + 1;
    }
    WholeSlice(data);
    // (b << 16) | a: the two halves do not overlap
    sum := b * 0x1_0000 + a;
  }

  /** A known answer. */
  lemma AdlerOfAbc()
    ensures Adler([0x61, 0x62, 0x63]) == 0x024d_0127
  {
    var a, ab, abc: seq<Byte> := [0x61], [0x61, 0x62], [0x61, 0x62, 0x63];
    assert abc[..2] == ab && ab[..1] == a && a[..0] == [];
    assert OctetSum(a) == 0x61 && OctetSum(ab) == 0xc3;
  }

  // ---------------------------------------------------------------- the standards

  /** The header of a stored block (section 3.2.4 of RFC 1951): the final-block bit, a block
      type of zero, padding to the octet boundary, the length and its one's complement, both
      least significant octet first. */
  function ReadHeader(h: seq<Byte>): Option<(bool, UInt16)>
    requires |h| == 5
  {
    var len: int := h[1] as int + h[2] as int * 0x100;
    var nlen: int := h[3] as int + h[4] as int * 0x100;
    if h[0] / 2 % 4 != 0 || nlen != 0xffff - len then None else Some((h[0] % 2 == 1, len))
  }

  /** Reads DEFLATE blocks (section 3.2.3 of RFC 1951) up to and including the final one and
      returns their contents and what follows.  Only stored blocks are understood; a block of
      any other type, a bad length or missing octets are errors. */
  function Inflate(s: seq<Byte>): Option<(seq<Byte>, seq<Byte>)> {
    if |s| < 5 then None
    else
      match ReadHeader(s[..5])
      case None => None
      case Some((final, len)) =>
        if |s| < 5 + len then None
        else if final then Some((s[5..5 + len], s[5 + len..]))
        else
          match Inflate(s[5 + len..])
          case None => None
          case Some((more, tail)) => Some((s[5..5 + len] + more, tail))
  }

  /** Decodes a zlib stream (section 2.2 of RFC 1950): method 8 with a window of at most 32K,
      a header divisible by 31, no preset dictionary, and nothing after the checksum. */
  function Decompress(z: seq<Byte>): Option<seq<Byte>> {
    if |z| < 2 || z[0] % 0x10 != 8 || z[0] / 0x10 > 7 then None
    else if (z[0] as int * 0x100 + z[1] as int) % 31 != 0 || z[1] / 0x20 % 2 != 0 then None
    else
      match Inflate(z[2..])
      case None => None
      case Some((data, tail)) =>
        if |tail| == 4 && NetworkOrder(tail) == Adler(data) then Some(data) else None
  }

  // ---------------------------------------------------------------- the encoder

  const MAX_STORED := 0xffff

  function StoredHeader(last: bool, len: UInt16): (h: seq<Byte>)
    ensures |h| == 5
  {
    var nlen: UInt16 := 0xffff - len;
    [if last then 1 else 0, (len % 0x100) as Byte, (len / 0x100) as Byte,
     (nlen % 0x100) as Byte, (nlen / 0x100) as Byte]
  }

  function StoredBlock(last: bool, contents: seq<Byte>): seq<Byte>
    requires |contents| <= MAX_STORED
  {
    StoredHeader(last, |contents|) + contents
  }

  function StoredBlocks(raw: seq<Byte>): seq<Byte> {
    if raw == [] then []
    else if |raw| <= MAX_STORED then StoredBlock(true, raw)
    else StoredBlock(false, raw[..MAX_STORED]) + StoredBlocks(raw[MAX_STORED..])
  }

  function Compressed(raw: seq<Byte>): seq<Byte> {
    [0x78, 0x01] + StoredBlocks(raw) + BigEndian32(Adler(raw))
  }

  /** The five header octets the loop pushes: the final flag, then the 16-bit length and its
      complement, low octet first. */
  method MakeHeader(isFinal: bool, chunkSize: nat) returns (header: seq<Byte>)
    requires chunkSize <= MAX_STORED
    ensures header == StoredHeader(isFinal, chunkSize)
  {
    var len: UInt16 := chunkSize;
    var nlen: UInt16 := 0xffff - len;
    header := [if isFinal then 0x01 else 0x00, (len % 0x100) as Byte, (len / 0x100) as Byte,
               (nlen % 0x100) as Byte, (nlen / 0x100) as Byte];
  }

  /** Appends one stored block. */
  method AppendBlock(zlibData: seq<Byte>, isFinal: bool, contents: seq<Byte>) returns (out: seq<Byte>)
    requires |contents| <= MAX_STORED
    ensures out == zlibData + StoredBlock(isFinal, contents)
  {
    var header := MakeHeader(isFinal, |contents|);
    Associate(zlibData, header, contents);
    out := zlibData + header;
    out := out + contents;
  }

  /** The encoder's loop over the raw octets. */
  method Compress(raw: seq<Byte>) returns (zlibData: seq<Byte>)
    ensures zlibData == Compressed(raw)
  {
    zlibData := [0x78];
    zlibData := zlibData + [0x01];
    var cursor := 0;
    while cursor < |raw|
      invariant 0 <= cursor <= |raw|
      invariant zlibData + StoredBlocks(raw[cursor..]) == [0x78, 0x01] + StoredBlocks(raw)
      decreases |raw| - cursor
    {
      var chunkSize := if 65535 <= |raw| - cursor then 65535 else |raw| - cursor;
      var isFinal := cursor + chunkSize >= |raw|;
      OneMoreBlock(zlibData, raw[cursor..], chunkSize, isFinal);
      SubSlice(raw, cursor, chunkSize);
      zlibData := AppendBlock(zlibData, isFinal, raw[cursor..cursor + chunkSize]);
      cursor := cursor + chunkSize;
    }
    WholeSlice(raw);
    AppendNothing(zlibData);
    var sum := ComputeAdler(raw);
    zlibData := zlibData + BigEndian32(sum);
  }

  lemma OneMoreBlock(before: seq<Byte>, left: seq<Byte>, size: int, last: bool)
    requires left != []
    requires size == if |left| <= MAX_STORED then |left| else MAX_STORED
    requires last == (size >= |left|)
    ensures before + StoredBlocks(left)
         == before + StoredBlock(last, left[..size]) + StoredBlocks(left[size..])
  {
    if last {
      WholeSlice(left);
      AppendNothing(before + StoredBlock(true, left));
    } else {
      Associate(before, StoredBlock(false, left[..MAX_STORED]), StoredBlocks(left[MAX_STORED..]));
    }
  }

  // ---------------------------------------------------------------- round trip

  lemma HeaderRoundTrip(last: bool, len: UInt16)
    ensures ReadHeader(StoredHeader(last, len)) == Some((last, len))
  {
  }

  /** One stored block in front of anything is read as what it stores. */
  lemma InflateBlock(last: bool, contents: seq<Byte>, after: seq<Byte>)
    requires |contents| <= MAX_STORED
    ensures Inflate(StoredBlock(last, contents) + after)
         == if last then Some((contents, after))
            else match Inflate(after)
                 case None => None
                 case Some((more, tail)) => Some((contents + more, tail))
  {
    var s := StoredBlock(last, contents) + after;
    var len := |contents|;
    HeaderRoundTrip(last, len);
    assert s[..5] == StoredHeader(last, len);
    assert s[5..5 + len] == contents && s[5 + len..] == after;
  }

  lemma {:induction false} InflateBlocks(raw: seq<Byte>, after: seq<Byte>)
    requires raw != []
    ensures Inflate(StoredBlocks(raw) + after) == Some((raw, after))
    decreases |raw|
  {
    if |raw| <= MAX_STORED {
      InflateBlock(true, raw, after);
    } else {
      var front, back := raw[..MAX_STORED], raw[MAX_STORED..];
      InflateBlocks(back, after);
      InflateBlock(false, front, StoredBlocks(back) + after);
      Associate(StoredBlock(false, front), StoredBlocks(back), after);
      SplitAtLimit(raw);
    }
  }

  lemma SplitAtLimit<T>(raw: seq<T>)
    requires |raw| > MAX_STORED
    ensures raw[..MAX_STORED] + raw[MAX_STORED..] == raw
  {
  }

  lemma DropTwo<T>(a: T, b: T, body: seq<T>)
    ensures ([a, b] + body)[2..] == body
  {
  }

  lemma DecompressBody(body: seq<Byte>)
    ensures Decompress([0x78, 0x01] + body)
         == match Inflate(body)
            case None => None
            case Some((data, tail)) =>
              if |tail| == 4 && NetworkOrder(tail) == Adler(data) then Some(data) else None
  {
    DropTwo(0x78, 0x01, body);
  }

  /** The stream decodes to exactly the data it was made from, except that no data at all
      gives a stream without a final block, which the decoder rejects. */
  lemma DecompressCompressed(raw: seq<Byte>)
    ensures Decompress(Compressed(raw)) == if raw == [] then None else Some(raw)
    ensures |Compressed(raw)| >= 6 && Compressed(raw)[..2] == [0x78, 0x01]
  {
    var checksum := BigEndian32(Adler(raw));
    Associate([0x78, 0x01], StoredBlocks(raw), checksum);
    DecompressBody(StoredBlocks(raw) + checksum);
    if raw == [] {
      AppendNothing(checksum);
    } else {
      InflateBlocks(raw, checksum);
      BigEndianRoundTrip(Adler(raw));
    }
  }

  lemma {:induction false} StoredLength(raw: seq<Byte>)
    ensures |StoredBlocks(raw)| == |raw| + 5 * ((|raw| + 65534) / 65535)
    decreases |raw|
  {
    if |raw| > MAX_STORED {
      StoredLength(raw[MAX_STORED..]);
    }
  }
}
