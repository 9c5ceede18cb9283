/** The base64 decoder, against the encoder of section 4 of RFC 4648. */
module Base64 {
  import opened Bytes
  import opened Chunks
  import opened Sequences

  // ---------------------------------------------------------------- alphabet

  /** The character for a 6-bit value (table 1 of RFC 4648). */
  function Symbol(v: nat): char
    requires v < 64
  {
    if v < 26 then 'A' + v as char
    else if v < 52 then 'a' + (v - 26) as char
    else if v < 62 then '0' + (v - 52) as char
    else if v == 62 then '+' else '/'
  }

  predicate IsBase64(c: char) {
    'A' <= c <= 'Z' || 'a' <= c <= 'z' || '0' <= c <= '9' || c == '+' || c == '/'
  }

  /** Where the program's table of letters, digits, + and / has a character.  What is not found gives
      the string library's "no position", which the cast to an octet turns into 255. */
  function Find(c: char): (v: nat)
    ensures v < 256 && (IsBase64(c) <==> v < 64)
  {
    if 'A' <= c <= 'Z' then (c - 'A') as nat
    else if 'a' <= c <= 'z' then (c - 'a') as nat + 26
    else if '0' <= c <= '9' then (c - '0') as nat + 52
    else if c == '+' then 62 else if c == '/' then 63 else 255
  }

  lemma FindUndoesSymbol(v: nat)
    requires v < 64
    ensures Find(Symbol(v)) == v && Symbol(v) != '='
  {
  }

  // ---------------------------------------------------------------- encoder

  function OctetAt(octets: seq<Byte>, i: nat): nat { if i < |octets| then octets[i] as nat else 0 }

  /** Up to three octets, filled up with zero bits, as four characters. */
  function EncodeGroup(octets: seq<Byte>): string {
    var a, b, c := OctetAt(octets, 0), OctetAt(octets, 1), OctetAt(octets, 2);
    [Symbol(a / 4), Symbol(a % 4 * 16 + b / 16), Symbol(b % 16 * 4 + c / 64), Symbol(c % 64)]
  }

  /** The characters of one or two octets left over; each is one more than its octets. */
  function EncodeRest(octets: seq<Byte>): string {
    if |octets| == 0 || |octets| > 2 then "" else EncodeGroup(octets)[..|octets| + 1]
  }

  function Fillers(left: nat): string { if left == 0 then "" else if left == 1 then "==" else "=" }

  function Symbols(octets: seq<Byte>): string { Coded(octets, 3, EncodeGroup, EncodeRest) }

  function Encode(octets: seq<Byte>): string {
    Symbols(octets) + Fillers(|octets| % 3)
  }

  /** Table 1 of RFC 4648: capitals, small letters, digits, each in order, and two signs. */
  lemma SymbolTable(v: nat)
    requires v < 64
    ensures Symbol(0) == 'A' && Symbol(25) == 'Z' && Symbol(26) == 'a' && Symbol(51) == 'z'
    ensures Symbol(52) == '0' && Symbol(61) == '9' && Symbol(62) == '+' && Symbol(63) == '/'
    ensures v < 61 && v != 25 && v != 51 ==> Symbol(v + 1) as int == Symbol(v) as int + 1
    ensures Find(Symbol(v)) == v
  {
    FindUndoesSymbol(v);
  }

  /** Four symbols and three octets are the same 24 bits, most significant first. */
  lemma GroupIsNumber(a: Byte, b: Byte, c: Byte) returns (p: nat, q: nat, r: nat, t: nat)
    ensures p < 64 && q < 64 && r < 64 && t < 64
    ensures ((p * 64 + q) * 64 + r) * 64 + t == (a as int * 256 + b as int) * 256 + c as int
    ensures EncodeGroup([a, b, c]) == [Symbol(p), Symbol(q), Symbol(r), Symbol(t)]
  {
    var i, j, k := a as nat, b as nat, c as nat;
    p, q, r, t := i / 4, i % 4 * 16 + j / 16, j % 16 * 4 + k / 64, k % 64;
  }

  lemma OneGroup(octets: seq<Byte>)
    requires |octets| == 3
    ensures Encode(octets) == EncodeGroup(octets)
  {
    WholeSlice(octets);
    AppendNothing(EncodeGroup(octets));
    assert octets[..0] == [] && Groups(octets, 3, EncodeGroup) == [] + EncodeGroup(octets);
  }

  lemma ShortGroup(octets: seq<Byte>)
    requires 0 < |octets| < 3
    ensures Encode(octets) == EncodeGroup(octets)[..|octets| + 1] + (if |octets| == 1 then "==" else "=")
  {
    WholeSlice(octets);
    AppendNothing(EncodeRest(octets));
    assert octets[..0] == [];
  }

  lemma KnownSingle()
    ensures EncodeGroup([0x66]) == ['Z', 'g', 'A', 'A']
  {
  }

  lemma KnownPair()
    ensures EncodeGroup([0x66, 0x6f]) == ['Z', 'm', '8', 'A']
  {
  }

  lemma KnownTriple()
    ensures EncodeGroup([0x66, 0x6f, 0x6f]) == ['Z', 'm', '9', 'v']
  {
  }

  lemma FilledUp(a: char, b: char, c: char, d: char)
    ensures [a, b, c, d][..2] + "==" == [a, b, '=', '='] && [a, b, c, d][..3] + "=" == [a, b, c, '=']
  {
  }

  /** Test vectors of section 10 of RFC 4648. */
  lemma KnownAnswers()
    ensures Encode([0x66]) == "Zg=="
    ensures Encode([0x66, 0x6f]) == "Zm8="
    ensures Encode([0x66, 0x6f, 0x6f]) == "Zm9v"
  {
    ShortGroup([0x66]);
    ShortGroup([0x66, 0x6f]);
    OneGroup([0x66, 0x6f, 0x6f]);
    KnownSingle();
    KnownPair();
    KnownTriple();
    FilledUp('Z', 'g', 'A', 'A');
    FilledUp('Z', 'm', '8', 'A');
  }

  // ---------------------------------------------------------------- what the decoder computes

  /** How many characters of the alphabet a text starts with. */
  function Leading(s: string): (n: nat)
    ensures n <= |s|
    ensures forall i :: 0 <= i < n ==> IsBase64(s[i])
    ensures n < |s| ==> !IsBase64(s[n])
  {
    if s == "" || !IsBase64(s[0]) then 0 else 1 + Leading(s[1..])
  }

  /** Missing characters are NULs, which the table does not have. */
  function PositionAt(s: string, i: nat): nat { if i < |s| then Find(s[i]) else Find('\0') }

  /** Shifts and masks of four table positions; the sums are cut to octets. */
  function DecodeFour(p: nat, q: nat, r: nat, t: nat): seq<Byte> {
    [((p * 4 % 256 + q % 64 / 16) % 256) as Byte,
     ((q % 16 * 16 + r % 64 / 4) % 256) as Byte,
     ((r % 4 * 64 + t) % 256) as Byte]
  }

  function DecodeGroup(s: string): seq<Byte> {
    DecodeFour(PositionAt(s, 0), PositionAt(s, 1), PositionAt(s, 2), PositionAt(s, 3))
  }

  /** What is left over gives one octet less than it has characters. */
  function DecodeRest(s: string): seq<Byte> {
    if |s| == 0 || |s| > 3 then [] else DecodeGroup(s)[..|s| - 1]
  }

  function DecodeAll(s: string): seq<Byte> { Coded(s, 4, DecodeGroup, DecodeRest) }

  // ---------------------------------------------------------------- the decoder

  /** Table positions of a buffer, and the three octets they stand for. */
  method DecodeBuffer(buffer: seq<char>, i: nat) returns (three: seq<Byte>)
    requires |buffer| == 4 && i <= 4
    ensures three == DecodeGroup(buffer[..i])
  {
    var four: seq<nat> := [0, 0, 0, 0];
    for j := 0 to 4
      invariant |four| == 4
      invariant forall k :: 0 <= k < j ==> four[k] == PositionAt(buffer[..i], k)
    {
      four := four[j := if j < i then Find(buffer[j]) else Find('\0')];
    }
    three := [((four[0] * 4 % 256 + four[1] % 64 / 16) % 256) as Byte,
              ((four[1] % 16 * 16 + four[2] % 64 / 4) % 256) as Byte,
              ((four[2] % 4 * 64 + four[3]) % 256) as Byte];
  }

  /** The part after the loop. */
  method DecodeLast(buffer: seq<char>, i: nat) returns (last: seq<Byte>)
    requires |buffer| == 4 && i < 4
    ensures last == DecodeRest(buffer[..i])
  {
    last := [];
    if i > 0 {
      var three := DecodeBuffer(buffer, i);
      last := three[..i - 1];
    }
  }

  /** The characters gathered since the last whole group are those at the end of the part read. */
  predicate Gathered(buffer: seq<char>, i: nat, s: string, done: nat) {
    && |buffer| == 4 && i < 4 && i <= done <= |s| && done - i == Whole(done, 4)
    && buffer[..i] == s[done - i..done]
  }

  lemma GatherMore(buffer: seq<char>, i: nat, s: string, done: nat)
    requires Gathered(buffer, i, s, done) && done < |s| && i < 3
    ensures Gathered(buffer[i := s[done]], i + 1, s, done + 1)
  {
    WholeNext(done);
    ExtendSlice(buffer, i, s, done);
  }

  lemma GatherLast(buffer: seq<char>, s: string, done: nat)
    requires Gathered(buffer, 3, s, done) && done < |s|
    ensures Gathered(buffer[3 := s[done]], 0, s, done + 1) && buffer[3 := s[done]] == s[done - 3..done + 1]
  {
    WholeNext(done);
    ExtendSlice(buffer, 3, s, done);
    WholeSlice(buffer[3 := s[done]]);
  }

  lemma ExtendSlice<T>(buffer: seq<T>, i: nat, s: seq<T>, done: nat)
    requires i < |buffer| && i <= done < |s| && buffer[..i] == s[done - i..done]
    ensures buffer[i := s[done]][..i + 1] == s[done - i..done + 1]
  {
    var after := buffer[i := s[done]];
    assert after[..i] == buffer[..i];
    NextPrefix(after, i);
    SliceGrows(s, done - i, done);
  }

  lemma SliceGrows<T>(s: seq<T>, start: nat, end: nat)
    requires start <= end < |s|
    ensures s[start..end] + [s[end]] == s[start..end + 1]
  {
  }

  lemma {:induction false} WholeNext(n: nat)
    ensures Whole(n + 1, 4) == if n - Whole(n, 4) == 3 then n + 1 else Whole(n, 4)
    decreases n
  {
    if n >= 4 {
      WholeNext(n - 4);
    }
  }

  /** The octets so far are those of the whole groups read. */
  predicate Decoded(ret: seq<Byte>, s: string, done: nat)
    requires done <= |s|
  {
    ret == Groups(s[..done], 4, DecodeGroup)
  }

  lemma DecodedMore(done: seq<Byte>, three: seq<Byte>, s: string, n: nat)
    requires 3 <= n < |s| && Decoded(done, s, n - 3) && three == DecodeGroup(s[n - 3..n + 1])
    ensures Decoded(done + three, s, n + 1)
  {
    assert s[..n + 1] == s[..n - 3] + s[n - 3..n + 1];
    OneMoreGroup(s[..n - 3], s[n - 3..n + 1], 4, DecodeGroup);
  }

  lemma DecodeSplit(buffer: seq<char>, i: nat, s: string, done: nat)
    requires Gathered(buffer, i, s, done)
    ensures DecodeAll(s[..done]) == Groups(s[..done - i], 4, DecodeGroup) + DecodeRest(buffer[..i])
  {
    assert s[..done][..done - i] == s[..done - i];
    assert s[..done][done - i..] == buffer[..i];
  }

  /** The fourth character of a group: the buffer is decoded. */
  method ReadFourth(encoded: string, in_: nat, before: seq<char>, done: seq<Byte>)
      returns (buffer: seq<char>, ret: seq<Byte>)
    requires in_ < |encoded| && Gathered(before, 3, encoded, in_) && Decoded(done, encoded, in_ - 3)
    ensures Gathered(buffer, 0, encoded, in_ + 1) && Decoded(ret, encoded, in_ + 1)
  {
    GatherLast(before, encoded, in_);
    buffer := before[3 := encoded[in_]];
    WholeSlice(buffer);
    var three := DecodeBuffer(buffer, 4);
    DecodedMore(done, three, encoded, in_);
    ret := done + three;
  }

  /** The loop's body: one character joins the buffer. */
  method ReadOne(encoded: string, in_: nat, before: seq<char>, n: nat, done: seq<Byte>)
    returns (buffer: seq<char>, i: nat, ret: seq<Byte>)
    requires in_ < |encoded| && Gathered(before, n, encoded, in_) && Decoded(done, encoded, in_ - n)
    ensures Gathered(buffer, i, encoded, in_ + 1) && Decoded(ret, encoded, in_ + 1 - i)
  {
    if n + 1 == 4 {
      i := 0;
      buffer, ret := ReadFourth(encoded, in_, before, done);
    } else {
      GatherMore(before, n, encoded, in_);
      buffer, i, ret := before[n := encoded[in_]], n + 1, done;
    }
  }

  lemma LeadingGrows(s: string, n: nat)
    requires n <= Leading(s) && n <= |s|
    ensures if n < |s| && IsBase64(s[n]) then n + 1 <= Leading(s) else n == Leading(s)
  {
  }

  /** The last, incomplete group. */
  method Finish(encoded: string, in_: nat, buffer: seq<char>, i: nat, done: seq<Byte>) returns (ret: seq<Byte>)
    requires Gathered(buffer, i, encoded, in_) && Decoded(done, encoded, in_ - i)
    ensures ret == DecodeAll(encoded[..in_])
  {
    DecodeSplit(buffer, i, encoded, in_);
    var last := DecodeLast(buffer, i);
    ret := done + last;
  }

  /** Nothing but the octets that were encoded comes out. */
  lemma DecodesEncoded(encoded: string, ret: seq<Byte>)
    requires ret == DecodeAll(encoded[..Leading(encoded)])
    ensures forall octets :: encoded == Encode(octets) ==> ret == octets
  {
    forall octets | encoded == Encode(octets) ensures ret == octets {
      RoundTrip(octets);
    }
  }

  /** What the loop has done after some characters. */
  ghost predicate Reading(encoded: string, in_: nat, buffer: seq<char>, i: nat, ret: seq<Byte>) {
    in_ <= Leading(encoded) && Gathered(buffer, i, encoded, in_) && Decoded(ret, encoded, in_ - i)
  }

  lemma ReadingBegins(encoded: string)
    ensures Reading(encoded, 0, ['\0', '\0', '\0', '\0'], 0, [])
  {
  }

  lemma ReadingGoesOn(encoded: string, in_: nat, buffer: seq<char>, i: nat, ret: seq<Byte>)
    requires in_ <= |encoded| && Reading(encoded, in_, buffer, i, ret)
    ensures if in_ < |encoded| && IsBase64(encoded[in_]) then in_ < Leading(encoded) else in_ == Leading(encoded)
  {
    LeadingGrows(encoded, in_);
  }

  method ReadNext(encoded: string, in_: nat, before: seq<char>, n: nat, done: seq<Byte>)
    returns (buffer: seq<char>, i: nat, ret: seq<Byte>)
    requires in_ < |encoded| && in_ < Leading(encoded) && Reading(encoded, in_, before, n, done)
    ensures Reading(encoded, in_ + 1, buffer, i, ret)
  {
    buffer, i, ret := ReadOne(encoded, in_, before, n, done);
  }

  /** The loop over the characters of the alphabet. */
  method ReadAll(encoded: string) returns (in_: nat, buffer: seq<char>, i: nat, ret: seq<Byte>)
    ensures in_ == Leading(encoded) && Reading(encoded, in_, buffer, i, ret)
  {
    var in_len := |encoded|;
    i, in_ := 0, 0;
    buffer := ['\0', '\0', '\0', '\0'];
    ret := [];
    ReadingBegins(encoded);
    while in_len != 0 && encoded[in_] != '=' && IsBase64(encoded[in_])
      invariant in_ <= |encoded| && in_len == |encoded| - in_
      invariant Reading(encoded, in_, buffer, i, ret)
    {
      ReadingGoesOn(encoded, in_, buffer, i, ret);
      in_len := in_len - 1;
      buffer, i, ret := ReadNext(encoded, in_, buffer, i, ret);
      in_ := in_ + 1;
    }
    ReadingGoesOn(encoded, in_, buffer, i, ret);
  }

  /** The length is kept in an `int`. */
  method Base64Decode(encoded: string) returns (ret: seq<Byte>)
    requires |encoded| < 0x8000_0000
    ensures ret == DecodeAll(encoded[..Leading(encoded)])
    ensures forall octets :: encoded == Encode(octets) ==> ret == octets
  {
    var in_, buffer, i, done := ReadAll(encoded);
    ret := Finish(encoded, in_, buffer, i, done);
    DecodesEncoded(encoded, ret);
  }

  // ---------------------------------------------------------------- round trip

  predicate AllBase64(s: string) { forall i :: 0 <= i < |s| ==> IsBase64(s[i]) }

  lemma SymbolIsBase64(v: nat)
    requires v < 64
    ensures IsBase64(Symbol(v))
  {
    FindUndoesSymbol(v);
  }

  /** What two of the four values say about the first octet, and so on. */
  lemma FirstOctet(a: nat, b: nat)
    requires a < 256 && b < 256
    ensures (a / 4 * 4 % 256 + (a % 4 * 16 + b / 16) % 64 / 16) % 256 == a
  {
  }

  lemma SecondOctet(a: nat, b: nat, c: nat)
    requires a < 256 && b < 256 && c < 256
    ensures ((a % 4 * 16 + b / 16) % 16 * 16 + (b % 16 * 4 + c / 64) % 64 / 4) % 256 == b
  {
    LowPart(a % 4, b / 16);
    HighPart(b % 16, c / 64);
  }

  lemma LowPart(high: nat, low: nat)
    requires low < 16
    ensures (high * 16 + low) % 16 == low
  {
  }

  lemma HighPart(high: nat, low: nat)
    requires high < 16 && low < 4
    ensures (high * 4 + low) % 64 / 4 == high
  {
  }

  lemma ThirdOctet(b: nat, c: nat)
    requires b < 256 && c < 256
    ensures ((b % 16 * 4 + c / 64) % 4 * 64 + c % 64) % 256 == c
  {
  }

  lemma EncodedIsBase64(octets: seq<Byte>)
    ensures |EncodeGroup(octets)| == 4 && AllBase64(EncodeGroup(octets))
  {
    var a, b, c := OctetAt(octets, 0), OctetAt(octets, 1), OctetAt(octets, 2);
    SymbolIsBase64(a / 4);
    SymbolIsBase64(a % 4 * 16 + b / 16);
    SymbolIsBase64(b % 16 * 4 + c / 64);
    SymbolIsBase64(c % 64);
  }

  /** Each octet comes from two of the positions. */
  lemma FourRoundTrip(a: nat, b: nat, c: nat)
    requires a < 256 && b < 256 && c < 256
    ensures DecodeFour(a / 4, a % 4 * 16 + b / 16, b % 16 * 4 + c / 64, c % 64) == [a as Byte, b as Byte, c as Byte]
  {
    FirstOctet(a, b);
    SecondOctet(a, b, c);
    ThirdOctet(b, c);
  }

  lemma GroupRoundTrip(octets: seq<Byte>)
    ensures DecodeGroup(EncodeGroup(octets))
         == [OctetAt(octets, 0) as Byte, OctetAt(octets, 1) as Byte, OctetAt(octets, 2) as Byte]
  {
    var a, b, c := OctetAt(octets, 0), OctetAt(octets, 1), OctetAt(octets, 2);
    FindUndoesSymbol(a / 4);
    FindUndoesSymbol(a % 4 * 16 + b / 16);
    FindUndoesSymbol(b % 16 * 4 + c / 64);
    FindUndoesSymbol(c % 64);
    FourRoundTrip(a, b, c);
  }

  /** An octet does not depend on the characters after those it comes from. */
  lemma PrefixDecodes(s: string, n: nat)
    requires |s| == 4 && 1 <= n <= 3
    ensures DecodeGroup(s[..n])[..n - 1] == DecodeGroup(s)[..n - 1]
  {
    assert PositionAt(s[..n], 0) == PositionAt(s, 0);
    assert n > 1 ==> PositionAt(s[..n], 1) == PositionAt(s, 1);
    assert n > 2 ==> PositionAt(s[..n], 2) == PositionAt(s, 2);
  }

  /** The octets that would need the missing characters are cut off, so the fill never shows. */
  lemma RestRoundTrip(octets: seq<Byte>)
    requires |octets| < 3
    ensures |EncodeRest(octets)| < 4 && AllBase64(EncodeRest(octets))
    ensures DecodeRest(EncodeRest(octets)) == octets
  {
    var n := |octets|;
    if n > 0 {
      EncodedIsBase64(octets);
      PrefixDecodes(EncodeGroup(octets), n + 1);
      GroupRoundTrip(octets);
    }
  }

  lemma WholeRoundTrip(octets: seq<Byte>)
    requires |octets| == 3
    ensures |EncodeGroup(octets)| == 4 && DecodeGroup(EncodeGroup(octets)) == octets
  {
    GroupRoundTrip(octets);
    assert octets == [octets[0], octets[1], octets[2]];
  }

  lemma WholeGroupsUndone()
    ensures GroupsUndone(3, 4, EncodeGroup, DecodeGroup)
  {
    forall x: seq<Byte> | |x| == 3 ensures |EncodeGroup(x)| == 4 && DecodeGroup(EncodeGroup(x)) == x {
      WholeRoundTrip(x);
    }
  }

  lemma RestUndone()
    ensures LastUndone(3, 4, EncodeRest, DecodeRest)
  {
    forall x: seq<Byte> | |x| < 3 ensures |EncodeRest(x)| < 4 && DecodeRest(EncodeRest(x)) == x {
      RestRoundTrip(x);
    }
  }

  lemma {:induction false} GroupsAreBase64(octets: seq<Byte>)
    ensures AllBase64(Groups(octets, 3, EncodeGroup))
    decreases |octets|
  {
    if |octets| >= 3 {
      GroupsAreBase64(octets[..|octets| - 3]);
      EncodedIsBase64(octets[|octets| - 3..]);
    }
  }

  lemma SymbolsAreBase64(octets: seq<Byte>)
    ensures AllBase64(Symbols(octets))
  {
    GroupsAreBase64(octets[..Whole(|octets|, 3)]);
    RestRoundTrip(octets[Whole(|octets|, 3)..]);
  }

  lemma LeadingOf(symbols: string, rest: string)
    requires AllBase64(symbols) && (rest == "" || !IsBase64(rest[0]))
    ensures Leading(symbols + rest) == |symbols|
  {
    var s := symbols + rest;
    LeadingIs(s, |symbols|);
  }

  lemma {:induction false} LeadingIs(s: string, n: nat)
    requires n <= |s| && AllBase64(s[..n]) && (n < |s| ==> !IsBase64(s[n]))
    ensures Leading(s) == n
    decreases n
  {
    if n > 0 {
      assert s[0] == s[..n][0];
      assert s[1..][..n - 1] == s[..n][1..];
      LeadingIs(s[1..], n - 1);
    }
  }

  /** Decoding what the standard's encoder writes gives the octets back, for every number of octets and
      so with no, one and two fillers. */
  lemma RoundTrip(octets: seq<Byte>)
    ensures DecodeAll(Encode(octets)[..Leading(Encode(octets))]) == octets
  {
    SymbolsAreBase64(octets);
    LeadingOf(Symbols(octets), Fillers(|octets| % 3));
    SplitAppend(Symbols(octets), Fillers(|octets| % 3));
    WholeGroupsUndone();
    RestUndone();
    Chunks.RoundTrip(octets, 3, 4, EncodeGroup, EncodeRest, DecodeGroup, DecodeRest);
  }
}
