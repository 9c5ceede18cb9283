/** The PNG files the map service renders tiles into, and a decoder for such files written from
    RFC 2083.  The main results are `DecodeEncoded` and `EncodePngRgba`. */
module Png {
  import opened Bytes
  import opened Wrappers
  import opened Crc32
  import opened Sequences
  import Zlib

  datatype Image = Image(width: int, height: int, pixels: seq<Byte>)

  datatype Piece = Piece(kind: seq<Byte>, data: seq<Byte>)

  const SIGNATURE: seq<Byte> := [0x89, 0x50, 0x4e, 0x47, 0x0d, 0x0a, 0x1a, 0x0a]
  const IHDR: seq<Byte> := [0x49, 0x48, 0x44, 0x52]
  const IDAT: seq<Byte> := [0x49, 0x44, 0x41, 0x54]
  const IEND: seq<Byte> := [0x49, 0x45, 0x4e, 0x44]

  /** Eight bits a sample, RGBA, deflate, adaptive filtering, no interlacing (section 4.1.1). */
  const RGBA8: seq<Byte> := [8, 6, 0, 0, 0]

  /** The largest number the format allows in a length or dimension (sections 3.2 and 4.1.1). */
  const MAX_LENGTH := 0x7fff_ffff

  // ---------------------------------------------------------------- the standard's decoder

  /** Reads one chunk: length, type, data and a CRC over type and data (section 3.2). */
  function ReadChunk(s: seq<Byte>): (r: Option<(Piece, seq<Byte>)>)
    ensures r.Some? ==> |r.value.1| < |s|
  {
    if |s| < 12 then None
    else
      var length := NetworkOrder(s[..4]);
      if length > MAX_LENGTH || |s| < 12 + length then None
      else if NetworkOrder(s[8 + length..12 + length]) != Crc(s[4..8 + length]) as int then None
      else Some((Piece(s[4..8], s[8..8 + length]), s[12 + length..]))
  }

  function ReadChunks(s: seq<Byte>): Option<seq<Piece>>
    decreases |s|
  {
    if s == [] then Some([])
    else
      match ReadChunk(s)
      case None => None
      case Some((piece, after)) =>
        match ReadChunks(after)
        case None => None
        case Some(more) => Some([piece] + more)
  }

  /** Image data may be spread over several consecutive chunks. */
  function JoinData(pieces: seq<Piece>): Option<seq<Byte>> {
    if pieces == [] then Some([])
    else if pieces[0].kind != IDAT then None
    else
      match JoinData(pieces[1..])
      case None => None
      case Some(more) => Some(pieces[0].data + more)
  }

  /** Removes the filter octets of `height` scanlines; only filter type 0, None, is understood
      (section 6.2). */
  function Unfilter(raw: seq<Byte>, width: nat, height: nat): Option<seq<Byte>>
    decreases height
  {
    if height == 0 then (if raw == [] then Some([]) else None)
    else if |raw| < 1 + 4 * width || raw[0] != 0 then None
    else
      match Unfilter(raw[1 + 4 * width..], width, height - 1)
      case None => None
      case Some(more) => Some(raw[1..1 + 4 * width] + more)
  }

  predicate IsHeader(piece: Piece) {
    && piece.kind == IHDR && |piece.data| == 13
    && 1 <= NetworkOrder(piece.data[..4]) <= MAX_LENGTH
    && 1 <= NetworkOrder(piece.data[4..8]) <= MAX_LENGTH
    && piece.data[8..] == RGBA8
  }

  function DecodePieces(pieces: seq<Piece>): Option<Image> {
    if |pieces| < 3 || !IsHeader(pieces[0]) || pieces[|pieces| - 1] != Piece(IEND, []) then None
    else
      var width, height := NetworkOrder(pieces[0].data[..4]), NetworkOrder(pieces[0].data[4..8]);
      match JoinData(pieces[1..|pieces| - 1])
      case None => None
      case Some(stream) =>
        match Zlib.Decompress(stream)
        case None => None
        case Some(raw) =>
          match Unfilter(raw, width, height)
          case None => None
          case Some(pixels) => Some(Image(width, height, pixels))
  }

  /** Decodes a file: the signature (section 3.1), the header chunk first, image data, the end
      chunk last.  Ancillary chunks, palettes and other pixel formats are rejected. */
  function Decode(file: seq<Byte>): Option<Image> {
    if |file| < 8 || file[..8] != SIGNATURE then None
    else
      match ReadChunks(file[8..])
      case None => None
      case Some(pieces) => DecodePieces(pieces)
  }

  // ---------------------------------------------------------------- what the encoder writes

  function Chunk(kind: seq<Byte>, data: seq<Byte>): (r: seq<Byte>)
    requires |kind| == 4
    ensures |r| == 12 + |data|
  {
    BigEndian32(Truncate32(|data|)) + kind + data + BigEndian32(Crc(kind + data) as int)
  }

  function Header(width: UInt32, height: UInt32): seq<Byte> {
    BigEndian32(width) + BigEndian32(height) + RGBA8
  }

  /** Four octets a pixel, row by row. */
  function PixelOctets(width: nat, height: nat): nat {
    if height == 0 then 0 else PixelOctets(width, height - 1) + 4 * width
  }

  lemma {:induction false} PixelOctetsIsProduct(width: nat, height: nat)
    ensures PixelOctets(width, height) == height * width * 4
    decreases height
  {
    if height > 0 {
      PixelOctetsIsProduct(width, height - 1);
      assert height * width == (height - 1) * width + width;
    }
  }

  lemma PixelOctetsGrow(width: nat, row: nat, height: nat)
    requires row <= height
    ensures PixelOctets(width, row) + (if row < height then 4 * width else 0) <= PixelOctets(width, height)
  {
  }

  /** Scanline `row` behind its zero filter octet. */
  function Scanline(rgba: seq<Byte>, width: nat, row: nat): (line: seq<Byte>)
    requires |rgba| >= PixelOctets(width, row + 1)
    ensures |line| == 1 + 4 * width
  {
    [0] + rgba[PixelOctets(width, row)..PixelOctets(width, row + 1)]
  }

  function Scanlines(rgba: seq<Byte>, width: nat, height: nat): seq<Byte>
    requires |rgba| >= PixelOctets(width, height)
  {
    if height == 0 then []
    else Scanlines(rgba, width, height - 1) + Scanline(rgba, width, height - 1)
  }

  lemma {:induction false} ScanlinesLength(rgba: seq<Byte>, width: nat, height: nat)
    requires |rgba| >= PixelOctets(width, height)
    ensures |Scanlines(rgba, width, height)| == height * (4 * width + 1)
    decreases height
  {
    if height > 0 {
      ScanlinesLength(rgba, width, height - 1);
      assert height * (4 * width + 1) == (height - 1) * (4 * width + 1) + (4 * width + 1);
    }
  }

  function Encoded(width: UInt32, height: UInt32, rgba: seq<Byte>): seq<Byte>
    requires |rgba| >= PixelOctets(width, height)
  {
    SIGNATURE + (Chunk(IHDR, Header(width, height))
      + (Chunk(IDAT, Zlib.Compressed(Scanlines(rgba, width, height))) + Chunk(IEND, [])))
  }

  /** The number of octets in the image data chunk. */
  function DataLength(width: nat, height: nat): nat {
    var raw := height * (4 * width + 1);
    2 + raw + 5 * ((raw + 65534) / 65535) + 4
  }

  // ---------------------------------------------------------------- where the octets stand

  lemma IendChunk()
    ensures Chunk(IEND, []) == [0, 0, 0, 0, 0x49, 0x45, 0x4e, 0x44, 0xae, 0x42, 0x60, 0x82]
  {
    CrcOfIend();
    AppendNothing(IEND);
  }

  lemma ChunkStart(kind: seq<Byte>, data: seq<Byte>)
    requires |kind| == 4
    ensures var c := Chunk(kind, data);
            c[..4] == BigEndian32(Truncate32(|data|)) && c[4..8] == kind && c[8..8 + |data|] == data
  {
  }

  lemma HeaderChunk(width: UInt32, height: UInt32)
    ensures var c := Chunk(IHDR, Header(width, height));
            && |c| == 25 && c[..8] == [0, 0, 0, 13, 0x49, 0x48, 0x44, 0x52] && c[16..21] == [8, 6, 0, 0, 0]
            && NetworkOrder(c[8..12]) == width && NetworkOrder(c[12..16]) == height
  {
    var header := Header(width, height);
    var c := Chunk(IHDR, header);
    HeaderFields(width, height);
    ChunkStart(IHDR, header);
    assert BigEndian32(13) == [0, 0, 0, 13] && c[..8] == c[..4] + c[4..8];
    assert c[8..12] == c[8..21][..4] && c[12..16] == c[8..21][4..8] && c[16..21] == c[8..21][8..];
  }

  lemma FileParts(a: seq<Byte>, b: seq<Byte>, c: seq<Byte>, d: seq<Byte>)
    requires |a| == 8 && |b| == 25 && |c| >= 12 && |d| == 12
    ensures var f := a + (b + (c + d));
            && |f| >= 57 && f[..8] == a && f[8..16] == b[..8] && f[16..20] == b[8..12] && f[20..24] == b[12..16]
            && f[24..29] == b[16..21] && f[37..41] == c[4..8] && f[|f| - 12..] == d
  {
  }

  /** The octets a file starts and ends with: the signature, the length and type of the header chunk, width and
      height in network order, eight bits of RGBA; at octet 37 the type of the image data; and an end chunk with
      its CRC. */
  lemma FileLayout(width: UInt32, height: UInt32, rgba: seq<Byte>)
    requires |rgba| >= PixelOctets(width, height)
    ensures var f := Encoded(width, height, rgba);
            && |f| >= 57
            && f[..8] == [0x89, 0x50, 0x4e, 0x47, 0x0d, 0x0a, 0x1a, 0x0a]
            && f[8..16] == [0, 0, 0, 13, 0x49, 0x48, 0x44, 0x52]
            && NetworkOrder(f[16..20]) == width && NetworkOrder(f[20..24]) == height
            && f[24..29] == [8, 6, 0, 0, 0]
            && f[37..41] == [0x49, 0x44, 0x41, 0x54]
            && f[|f| - 12..] == [0, 0, 0, 0, 0x49, 0x45, 0x4e, 0x44, 0xae, 0x42, 0x60, 0x82]
  {
    var stream := Zlib.Compressed(Scanlines(rgba, width, height));
    HeaderChunk(width, height);
    ChunkStart(IDAT, stream);
    IendChunk();
    FileParts(SIGNATURE, Chunk(IHDR, Header(width, height)), Chunk(IDAT, stream), Chunk(IEND, []));
  }

  // ---------------------------------------------------------------- the code

  method AppendUint32(out: seq<Byte>, value: UInt32) returns (r: seq<Byte>)
    ensures r == out + BigEndian32(value)
  {
    r := out + [(value / 0x100_0000 % 0x100) as Byte];
    r := r + [(value / 0x1_0000 % 0x100) as Byte];
    r := r + [(value / 0x100 % 0x100) as Byte];
    r := r + [(value % 0x100) as Byte];
  }

  method CrcOfRange(out: seq<Byte>, offset: nat, length: nat) returns (crc: UInt32)
    requires offset + length <= |out|
    ensures crc == Crc(out[offset..offset + length]) as int
  {
    var register := Crc32.Compute(out[offset..offset + length]);
    crc := register as int;
  }

  /** The chunk's type and data, and the CRC over what was just written. */
  method AppendCovered(out: seq<Byte>, kind: seq<Byte>, data: seq<Byte>) returns (r: seq<Byte>, crc: UInt32)
    requires |kind| == 4
    ensures r == out + kind + data && crc == Crc(kind + data) as int
  {
    var typeOffset := |out|;
    TypeAndData(out, kind, data);
    r := out + kind;
    r := r + data;
    crc := CrcOfRange(r, typeOffset, 4 + |data|);
  }

  method AppendChunk(out: seq<Byte>, kind: seq<Byte>, data: seq<Byte>) returns (r: seq<Byte>)
    requires |kind| == 4
    ensures r == out + Chunk(kind, data)
  {
    ghost var length := BigEndian32(Truncate32(|data|));
    r := AppendUint32(out, Truncate32(|data|));
    var crc;
    r, crc := AppendCovered(r, kind, data);
    r := AppendUint32(r, crc);
    ChunkAppends(out, length, kind, data, BigEndian32(crc));
  }

  lemma TypeAndData<T>(before: seq<T>, kind: seq<T>, data: seq<T>)
    requires |kind| == 4
    ensures (before + kind + data)[|before|..|before| + (4 + |data|)] == kind + data
  {
  }

  lemma ChunkAppends<T>(out: seq<T>, length: seq<T>, kind: seq<T>, data: seq<T>, crc: seq<T>)
    ensures out + length + kind + data + crc == out + (length + kind + data + crc)
  {
  }

  /** One turn of the row loop: a zero filter octet and the row's pixels. */
  method AppendRow(raw: seq<Byte>, width: nat, row: nat, rgba: seq<Byte>) returns (r: seq<Byte>)
    requires |rgba| >= PixelOctets(width, row + 1)
    ensures r == raw + Scanline(rgba, width, row)
  {
    PixelOctetsIsProduct(width, row);
    var offset := row * width * 4;
    r := raw + [0];
    r := r + rgba[offset..offset + width * 4];
    Associate(raw, [0], rgba[offset..offset + width * 4]);
  }

  method FilterRows(width: nat, height: nat, rgba: seq<Byte>) returns (raw: seq<Byte>)
    requires |rgba| >= PixelOctets(width, height)
    ensures raw == Scanlines(rgba, width, height)
  {
    raw := [];
    var row := 0;
    while row < height
      invariant 0 <= row <= height && PixelOctets(width, row) <= |rgba|
      invariant raw == Scanlines(rgba, width, row)
    {
      PixelOctetsGrow(width, row, height);
      raw := AppendRow(raw, width, row, rgba);
      row := row + 1;
    }
  }

  /** The whole encoder, for any non-negative size the 32-bit fields hold and any buffer of at
      least four octets a pixel.  A decoder gets the picture back; a picture without rows or
      columns, or whose image data chunk is too long for the format, is rejected. */
  method EncodePngRgba(width: nat, height: nat, rgba: seq<Byte>) returns (png: seq<Byte>)
    requires width <= MAX_LENGTH && height <= MAX_LENGTH
    requires |rgba| >= PixelOctets(width, height)
    ensures png == Encoded(width, height, rgba)
    ensures DataLength(width, height) < 0x1_0000_0000 ==>
              Decode(png) == if 1 <= width && 1 <= height && DataLength(width, height) <= MAX_LENGTH
                             then Some(Image(width, height, rgba[..PixelOctets(width, height)]))
                             else None
  {
    png := SIGNATURE;
    var ihdr := AppendUint32([], width);
    ihdr := AppendUint32(ihdr, height);
    ihdr := ihdr + [8];
    ihdr := ihdr + [6];
    ihdr := ihdr + [0];
    ihdr := ihdr + [0];
    ihdr := ihdr + [0];
    assert ihdr == Header(width, height);
    png := AppendChunk(png, IHDR, ihdr);
    var raw := FilterRows(width, height, rgba);
    var zlibData := Zlib.Compress(raw);
    png := AppendChunk(png, IDAT, zlibData);
    png := AppendChunk(png, IEND, []);
    Associate(SIGNATURE + Chunk(IHDR, ihdr), Chunk(IDAT, zlibData), Chunk(IEND, []));
    Associate(SIGNATURE, Chunk(IHDR, ihdr), Chunk(IDAT, zlibData) + Chunk(IEND, []));
    if DataLength(width, height) < 0x1_0000_0000 {
      DecodeEncoded(width, height, rgba);
    }
  }

  // ---------------------------------------------------------------- round trip

  lemma ChunkParts<T>(a: seq<T>, b: seq<T>, c: seq<T>, d: seq<T>, e: seq<T>)
    requires |a| == |b| == |d| == 4
    ensures var s, n := a + b + c + d + e, |c|;
            && s[..4] == a && s[4..8] == b && s[8..8 + n] == c && s[4..8 + n] == b + c
            && s[8 + n..12 + n] == d && s[12 + n..] == e
  {
  }

  lemma ReadSlices(s: seq<Byte>, kind: seq<Byte>, data: seq<Byte>, after: seq<Byte>)
    requires |s| >= 12 + |data| && |data| <= MAX_LENGTH
    requires NetworkOrder(s[..4]) == |data|
    requires s[4..8] == kind && s[8..8 + |data|] == data && s[12 + |data|..] == after
    requires NetworkOrder(s[8 + |data|..12 + |data|]) == Crc(s[4..8 + |data|]) as int
    ensures ReadChunk(s) == Some((Piece(kind, data), after))
  {
  }

  lemma ReadParts(length: seq<Byte>, kind: seq<Byte>, data: seq<Byte>, crc: seq<Byte>, after: seq<Byte>)
    requires |length| == |kind| == |crc| == 4 && |data| <= MAX_LENGTH
    requires NetworkOrder(length) == |data| && NetworkOrder(crc) == Crc(kind + data) as int
    ensures ReadChunk(length + kind + data + crc + after) == Some((Piece(kind, data), after))
  {
    ChunkParts(length, kind, data, crc, after);
    ReadSlices(length + kind + data + crc + after, kind, data, after);
  }

  lemma ChunkShape(kind: seq<Byte>, data: seq<Byte>) returns (length: seq<Byte>, crc: seq<Byte>)
    requires |kind| == 4 && |data| < 0x1_0000_0000
    ensures |length| == |crc| == 4
    ensures Chunk(kind, data) == length + kind + data + crc
    ensures NetworkOrder(length) == |data| && NetworkOrder(crc) == Crc(kind + data) as int
  {
    TruncateSmall(|data|);
    length := Written(|data|);
    crc := Written(Crc(kind + data) as int);
  }

  /** One chunk in front of anything is read as what it holds. */
  lemma ReadWritten(kind: seq<Byte>, data: seq<Byte>, after: seq<Byte>)
    requires |kind| == 4 && |data| <= MAX_LENGTH
    ensures ReadChunk(Chunk(kind, data) + after) == Some((Piece(kind, data), after))
  {
    var length, crc := ChunkShape(kind, data);
    ReadParts(length, kind, data, crc, after);
  }

  lemma ChunkTooLong(kind: seq<Byte>, data: seq<Byte>, after: seq<Byte>)
    requires |kind| == 4 && MAX_LENGTH < |data| < 0x1_0000_0000
    ensures ReadChunk(Chunk(kind, data) + after) == None
  {
    var length, crc := ChunkShape(kind, data);
    ChunkParts(length, kind, data, crc, after);
  }

  lemma CoveredParts<T>(a: seq<T>, covered: seq<T>, d: seq<T>, e: seq<T>, n: nat)
    requires |a| == |d| == 4 && |covered| == 4 + n
    ensures var s := a + covered + d + e;
            && |s| >= 12 + n && s[..4] == a && s[4..8 + n] == covered && s[8 + n..12 + n] == d
  {
  }

  /** The CRC covers the type and the data together. */
  lemma ReadRejects(length: seq<Byte>, covered: seq<Byte>, crc: seq<Byte>, after: seq<Byte>, n: nat)
    requires |length| == |crc| == 4 && n <= MAX_LENGTH && |covered| == 4 + n
    requires NetworkOrder(length) == n && NetworkOrder(crc) != Crc(covered) as int
    ensures ReadChunk(length + covered + crc + after) == None
  {
    CoveredParts(length, covered, crc, after, n);
  }

  lemma ValuesDiffer(x: bv32, y: bv32)
    requires x != y
    ensures x as int != y as int
  {
    WordFromItsValue(x);
    WordFromItsValue(y);
  }

  lemma MismatchIsRejected(sent: seq<Byte>, got: seq<Byte>, after: seq<Byte>, n: nat)
    requires |got| == 4 + n && n <= MAX_LENGTH && Crc(sent) != Crc(got)
    ensures ReadChunk(BigEndian32(n) + got + BigEndian32(Crc(sent) as int) + after) == None
  {
    ValuesDiffer(Crc(sent), Crc(got));
    var length := Written(n);
    var crc := Written(Crc(sent) as int);
    ReadRejects(length, got, crc, after, n);
  }

  /** A decoder rejects a written chunk whose type and data, taken together, were changed within four
      consecutive octets. */
  lemma DamageIsRejected(n: nat, front: seq<Byte>, u: seq<Byte>, v: seq<Byte>, back: seq<Byte>, after: seq<Byte>)
    requires |front + u + back| == 4 + n && n <= MAX_LENGTH
    requires |u| == |v| <= 4 && u != v
    ensures ReadChunk(BigEndian32(n) + (front + v + back) + BigEndian32(Crc(front + u + back) as int) + after) == None
  {
    BurstIsDetected(front, u, v, back);
    MismatchIsRejected(front + u + back, front + v + back, after, n);
  }

  /** Undamaged, these octets are a chunk as it is written. */
  lemma CoveredIsChunk(kind: seq<Byte>, data: seq<Byte>)
    requires |kind| == 4 && |data| <= MAX_LENGTH
    ensures Chunk(kind, data) == BigEndian32(|data|) + (kind + data) + BigEndian32(Crc(kind + data) as int)
  {
    var length := BigEndian32(|data|);
    assert Truncate32(|data|) == |data|;
    Associate(length, kind, data);
  }

  lemma HeaderFields(width: UInt32, height: UInt32)
    ensures var h := Header(width, height);
            && |h| == 13 && h[8..] == RGBA8
            && NetworkOrder(h[..4]) == width && NetworkOrder(h[4..8]) == height
  {
    var h := Header(width, height);
    BigEndianRoundTrip(width);
    BigEndianRoundTrip(height);
    assert h[..4] == BigEndian32(width) && h[4..8] == BigEndian32(height);
  }

  lemma LineParts<T>(zero: T, line: seq<T>, more: seq<T>)
    ensures var s := [zero] + line + more; s[0] == zero && s[1..1 + |line|] == line && s[1 + |line|..] == more
  {
  }

  /** A scanline more at the end is a row of pixels more at the end. */
  lemma {:induction false} UnfilterAppends(raw: seq<Byte>, line: seq<Byte>, width: nat, height: nat)
    requires Unfilter(raw, width, height).Some? && |line| == 4 * width
    ensures Unfilter(raw + ([0] + line), width, height + 1) == Some(Unfilter(raw, width, height).value + line)
    decreases height
  {
    if height == 0 {
      UnfilterLine(line);
    } else {
      var first, rest := raw[1..1 + 4 * width], raw[1 + 4 * width..];
      UnfilterAppends(rest, line, width, height - 1);
      Associate(first, Unfilter(rest, width, height - 1).value, line);
      SlicesOfAppend(raw, [0] + line, 1 + 4 * width);
    }
  }

  lemma UnfilterLine(line: seq<Byte>)
    requires |line| % 4 == 0
    ensures Unfilter([] + ([0] + line), |line| / 4, 1) == Some([] + line)
  {
    AppendNothing([0] + line);
    AppendNothing(line);
    LineParts(0, line, []);
    assert Unfilter([], |line| / 4, 0) == Some([]);
  }

  lemma SlicesOfAppend<T>(a: seq<T>, b: seq<T>, n: nat)
    requires 1 <= n <= |a|
    ensures (a + b)[1..n] == a[1..n] && (a + b)[n..] == a[n..] + b && (a + b)[0] == a[0]
  {
  }

  lemma {:induction false} UnfilterScanlines(rgba: seq<Byte>, width: nat, height: nat)
    requires |rgba| >= PixelOctets(width, height)
    ensures Unfilter(Scanlines(rgba, width, height), width, height) == Some(rgba[..PixelOctets(width, height)])
    decreases height
  {
    if height > 0 {
      UnfilterScanlines(rgba, width, height - 1);
      var at := PixelOctets(width, height - 1);
      UnfilterAppends(Scanlines(rgba, width, height - 1), rgba[at..at + 4 * width], width, height - 1);
      JoinSlices(rgba, at, at + 4 * width);
    }
  }

  lemma AfterSignature(body: seq<Byte>)
    ensures Decode(SIGNATURE + body)
         == match ReadChunks(body)
            case None => None
            case Some(pieces) => DecodePieces(pieces)
  {
    assert (SIGNATURE + body)[..8] == SIGNATURE && (SIGNATURE + body)[8..] == body;
  }

  lemma ReadOneMore(kind: seq<Byte>, data: seq<Byte>, after: seq<Byte>)
    requires |kind| == 4 && |data| <= MAX_LENGTH
    ensures ReadChunks(Chunk(kind, data) + after)
         == match ReadChunks(after)
            case None => None
            case Some(more) => Some([Piece(kind, data)] + more)
  {
    ReadWritten(kind, data, after);
  }

  lemma ReadImageChunks(header: seq<Byte>, data: seq<Byte>)
    requires |header| == 13 && |data| < 0x1_0000_0000
    ensures var pieces := [Piece(IHDR, header)] + ([Piece(IDAT, data)] + [Piece(IEND, [])]);
            ReadChunks(Chunk(IHDR, header) + (Chunk(IDAT, data) + Chunk(IEND, [])))
            == if |data| <= MAX_LENGTH then Some(pieces) else None
  {
    ReadOneMore(IHDR, header, Chunk(IDAT, data) + Chunk(IEND, []));
    if |data| <= MAX_LENGTH {
      ReadOneMore(IDAT, data, Chunk(IEND, []));
      ReadOneMore(IEND, [], []);
      assert Chunk(IEND, []) + [] == Chunk(IEND, []);
      assert [Piece(IEND, [])] + [] == [Piece(IEND, [])];
    } else {
      ChunkTooLong(IDAT, data, Chunk(IEND, []));
    }
  }

  lemma JoinOne(data: seq<Byte>)
    ensures JoinData([Piece(IDAT, data)]) == Some(data)
  {
    assert JoinData([]) == Some([]);
    assert data + [] == data;
  }

  lemma DecodeThreePieces(header: seq<Byte>, data: seq<Byte>, width: nat, height: nat)
    requires IsHeader(Piece(IHDR, header))
    requires width == NetworkOrder(header[..4]) && height == NetworkOrder(header[4..8])
    ensures DecodePieces([Piece(IHDR, header)] + ([Piece(IDAT, data)] + [Piece(IEND, [])]))
         == match Zlib.Decompress(data)
            case None => None
            case Some(raw) =>
              match Unfilter(raw, width, height)
              case None => None
              case Some(pixels) => Some(Image(width, height, pixels))
  {
    var pieces := [Piece(IHDR, header)] + ([Piece(IDAT, data)] + [Piece(IEND, [])]);
    assert pieces[1..|pieces| - 1] == [Piece(IDAT, data)];
    JoinOne(data);
  }

  lemma FirstPieceIsHeader(header: seq<Byte>, after: seq<Byte>)
    requires |header| == 13 && !IsHeader(Piece(IHDR, header))
    ensures Decode(SIGNATURE + (Chunk(IHDR, header) + after)) == None
  {
    AfterSignature(Chunk(IHDR, header) + after);
    ReadOneMore(IHDR, header, after);
  }

  lemma DataChunkLength(width: nat, height: nat, rgba: seq<Byte>)
    requires |rgba| >= PixelOctets(width, height)
    ensures |Zlib.Compressed(Scanlines(rgba, width, height))| == DataLength(width, height)
  {
    ScanlinesLength(rgba, width, height);
    Zlib.StoredLength(Scanlines(rgba, width, height));
  }

  lemma DecodeFits(width: nat, height: nat, rgba: seq<Byte>)
    requires 1 <= width <= MAX_LENGTH && 1 <= height <= MAX_LENGTH
    requires |rgba| >= PixelOctets(width, height)
    requires DataLength(width, height) <= MAX_LENGTH
    ensures Decode(Encoded(width, height, rgba)) == Some(Image(width, height, rgba[..PixelOctets(width, height)]))
  {
    var header, raw := Header(width, height), Scanlines(rgba, width, height);
    HeaderFields(width, height);
    DataChunkLength(width, height, rgba);
    AfterSignature(Chunk(IHDR, header) + (Chunk(IDAT, Zlib.Compressed(raw)) + Chunk(IEND, [])));
    ReadImageChunks(header, Zlib.Compressed(raw));
    DecodeThreePieces(header, Zlib.Compressed(raw), width, height);
    Zlib.DecompressCompressed(raw);
    UnfilterScanlines(rgba, width, height);
  }

  lemma DecodeTooLong(width: nat, height: nat, rgba: seq<Byte>)
    requires width <= MAX_LENGTH && height <= MAX_LENGTH
    requires |rgba| >= PixelOctets(width, height)
    requires MAX_LENGTH < DataLength(width, height) < 0x1_0000_0000
    ensures Decode(Encoded(width, height, rgba)) == None
  {
    var header, data := Header(width, height), Zlib.Compressed(Scanlines(rgba, width, height));
    DataChunkLength(width, height, rgba);
    AfterSignature(Chunk(IHDR, header) + (Chunk(IDAT, data) + Chunk(IEND, [])));
    ReadImageChunks(header, data);
  }

  /** For any size whose image data fits a 32-bit length, a decoder accepts what the encoder
      writes exactly when the picture has rows and columns and its data fits the format's limit,
      and then it returns the picture: the same size and the same first four octets a pixel. */
  lemma DecodeEncoded(width: nat, height: nat, rgba: seq<Byte>)
    requires width <= MAX_LENGTH && height <= MAX_LENGTH
    requires |rgba| >= PixelOctets(width, height)
    requires DataLength(width, height) < 0x1_0000_0000
    ensures Decode(Encoded(width, height, rgba))
         == if 1 <= width && 1 <= height && DataLength(width, height) <= MAX_LENGTH
            then Some(Image(width, height, rgba[..PixelOctets(width, height)]))
            else None
  {
    if width == 0 || height == 0 {
      HeaderFields(width, height);
      FirstPieceIsHeader(Header(width, height),
                         Chunk(IDAT, Zlib.Compressed(Scanlines(rgba, width, height))) + Chunk(IEND, []));
    } else if DataLength(width, height) <= MAX_LENGTH {
      DecodeFits(width, height, rgba);
    } else {
      DecodeTooLong(width, height, rgba);
    }
  }
}
