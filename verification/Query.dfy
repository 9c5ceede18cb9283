/** Query strings: trimming, percent-decoding and splitting into a map, against a printer of forms.
    Characters are octets, those with codes below 256. */
module Query {
  import opened Sequences

  // ---------------------------------------------------------------- trimming

  predicate IsSpace(c: char) { c == ' ' || '\t' <= c <= '\r' }

  function TrimFront(s: string): string
    decreases |s|
  {
    if s != "" && IsSpace(s[0]) then TrimFront(s[1..]) else s
  }

  function TrimBack(s: string): string
    decreases |s|
  {
    if s != "" && IsSpace(s[|s| - 1]) then TrimBack(s[..|s| - 1]) else s
  }

  function Trimmed(s: string): string { TrimBack(TrimFront(s)) }

  predicate IsTrimmed(s: string) {
    s == "" || (!IsSpace(s[0]) && !IsSpace(s[|s| - 1]))
  }

  method Trim(value: string) returns (r: string)
    ensures r == Trimmed(value)
  {
    var start := 0;
    while start < |value| && IsSpace(value[start])
      invariant 0 <= start <= |value|
      invariant TrimFront(value[start..]) == TrimFront(value)
    {
      DropNext(value, start);
      start := start + 1;
    }
    var end := |value|;
    assert value[start..end] == value[start..];
    while end > start && IsSpace(value[end - 1])
      invariant start <= end <= |value|
      invariant TrimBack(value[start..end]) == TrimBack(value[start..])
    {
      DropLast(value, start, end);
      end := end - 1;
    }
    r := value[start..end];
  }

  lemma DropLast(s: string, start: nat, end: nat)
    requires start < end <= |s|
    ensures var w := s[start..end]; w != "" && w[|w| - 1] == s[end - 1] && w[..|w| - 1] == s[start..end - 1]
  {
  }

  lemma {:induction false} TrimFrontIsSlice(s: string) returns (n: nat)
    ensures n <= |s| && TrimFront(s) == s[n..] && (forall i :: 0 <= i < n ==> IsSpace(s[i]))
    ensures n < |s| ==> !IsSpace(s[n])
    decreases |s|
  {
    n := 0;
    if s != "" && IsSpace(s[0]) {
      n := TrimFrontIsSlice(s[1..]);
      n := n + 1;
    }
  }

  lemma {:induction false} TrimBackIsSlice(s: string) returns (n: nat)
    ensures n <= |s| && TrimBack(s) == s[..n] && (forall i :: n <= i < |s| ==> IsSpace(s[i]))
    ensures n > 0 ==> !IsSpace(s[n - 1])
    decreases |s|
  {
    n := |s|;
    if s != "" && IsSpace(s[|s| - 1]) {
      n := TrimBackIsSlice(s[..|s| - 1]);
    }
  }

  /** The space, the tabs, the line feed, the form feed and the carriage return. */
  predicate IsSpaceCode(code: int) { code == 32 || 9 <= code <= 13 }

  /** Trimming takes away white space at both ends and nothing else. */
  lemma TrimmedIsSlice(s: string) returns (from: nat, to: nat)
    ensures from <= to <= |s| && Trimmed(s) == s[from..to] && IsTrimmed(Trimmed(s))
    ensures forall i :: 0 <= i < from || to <= i < |s| ==> IsSpaceCode(s[i] as int)
    ensures from < to ==> !IsSpaceCode(s[from] as int) && !IsSpaceCode(s[to - 1] as int)
  {
    from := TrimFrontIsSlice(s);
    to := TrimBackIsSlice(s[from..]);
    to := from + to;
    forall i | to <= i < |s| ensures IsSpaceCode(s[i] as int) {
      assert s[from..][i - from] == s[i];
    }
  }

  lemma TrimmedIff(s: string)
    ensures IsTrimmed(Trimmed(s))
    ensures Trimmed(s) == s <==> IsTrimmed(s)
  {
    var from, to := TrimmedIsSlice(s);
    if IsTrimmed(s) && s != "" {
      assert from == 0 && to == |s|;
    }
  }

  // ---------------------------------------------------------------- percent-decoding

  predicate IsHex(c: char) { '0' <= c <= '9' || 'A' <= c <= 'F' || 'a' <= c <= 'f' }

  function HexValue(c: char): (v: nat)
    requires IsHex(c)
    ensures v < 16
  {
    if '0' <= c <= '9' then (c - '0') as nat
    else if 'A' <= c <= 'F' then (c - 'A') as nat + 10
    else (c - 'a') as nat + 10
  }

  /** A percent sign without two hexadecimal digits stands for itself. */
  function Decoded(s: string): string
    decreases |s|
  {
    if s == "" then ""
    else if s[0] == '%' && |s| > 2 && IsHex(s[1]) && IsHex(s[2]) then
      [(HexValue(s[1]) * 16 + HexValue(s[2])) as char] + Decoded(s[3..])
    else if s[0] == '+' then " " + Decoded(s[1..])
    else [s[0]] + Decoded(s[1..])
  }

  method HexDigit(c: char) returns (ok: bool, v: nat)
    ensures ok == IsHex(c) && (ok ==> v == HexValue(c))
  {
    v := 0;
    ok := true;
    if '0' <= c <= '9' {
      v := (c - '0') as nat;
    } else if 'A' <= c <= 'F' {
      v := (c - 'A') as nat + 10;
    } else if 'a' <= c <= 'f' {
      v := (c - 'a') as nat + 10;
    } else {
      ok := false;
    }
  }

  /** One round of the loop: what is appended, and how far the position moves. */
  method DecodeOne(encoded: string, i: nat) returns (c: char, next: nat)
    requires i < |encoded|
    ensures i < next <= |encoded| && Decoded(encoded[i..]) == [c] + Decoded(encoded[next..])
  {
    Suffix(encoded, i);
    next := i + 1;
    if encoded[i] == '%' && i + 2 < |encoded| {
      var okHigh, high := HexDigit(encoded[i + 1]);
      if !okHigh {
        return '%', next;
      }
      var okLow, low := HexDigit(encoded[i + 2]);
      if !okLow {
        return '%', next;
      }
      c := (high * 16 + low) as char;
      next := i + 3;
    } else if encoded[i] == '+' {
      c := ' ';
    } else {
      c := encoded[i];
    }
  }

  lemma Suffix(s: string, i: nat)
    requires i < |s|
    ensures |s[i..]| == |s| - i && s[i..][0] == s[i] && s[i..][1..] == s[i + 1..]
    ensures i + 2 < |s| ==> s[i..][1] == s[i + 1] && s[i..][2] == s[i + 2] && s[i..][3..] == s[i + 3..]
  {
  }

  method UrlDecode(encoded: string) returns (decoded: string)
    ensures decoded == Decoded(encoded)
  {
    decoded := "";
    var i := 0;
    while i < |encoded|
      invariant 0 <= i <= |encoded|
      invariant Decoded(encoded) == decoded + Decoded(encoded[i..])
    {
      var c, next := DecodeOne(encoded, i);
      Associate(decoded, [c], Decoded(encoded[next..]));
      decoded := decoded + [c];
      i := next;
    }
    WholeSlice(encoded);
    AppendNothing(decoded);
  }

  // ---------------------------------------------------------------- what escapes mean

  /** A hexadecimal digit, small or capital, of a value. */
  predicate IsDigitOf(c: char, v: nat) {
    v < 16 && ("0123456789abcdef"[v] == c || "0123456789ABCDEF"[v] == c)
  }

  /** A spelling of one character: itself, a plus for a space, or a percent sign and two digits. */
  predicate Spells(e: string, c: char) {
    if |e| == 3 then e[0] == '%' && IsDigitOf(e[1], c as int / 16) && IsDigitOf(e[2], c as int % 16)
    else (e == "+" && c == ' ') || (e == [c] && c != '+' && c != '%')
  }

  ghost predicate StartsAnEscape(s: string) {
    |s| >= 3 && s[0] == '%' && (exists v: nat :: IsDigitOf(s[1], v)) && (exists v: nat :: IsDigitOf(s[2], v))
  }

  lemma DigitIsHex(c: char, v: nat)
    ensures IsDigitOf(c, v) ==> IsHex(c) && HexValue(c) == v
    ensures IsHex(c) ==> IsDigitOf(c, HexValue(c))
  {
    var n := "0123456789abcdef";
    assert n[0] == '0' && n[9] == '9' && n[10] == 'a' && n[15] == 'f';
  }

  /** Each of the spellings is decoded, whatever follows. */
  lemma SpellingIsDecoded(e: string, c: char, rest: string)
    requires Spells(e, c) && c as int < 256
    ensures Decoded(e + rest) == [c] + Decoded(rest)
  {
    SplitAppend(e, rest);
    if |e| == 3 {
      DigitIsHex(e[1], c as int / 16);
      DigitIsHex(e[2], c as int % 16);
      assert (e + rest)[1] == e[1] && (e + rest)[2] == e[2];
    }
  }

  /** A percent sign without two digits stands for itself. */
  lemma MalformedStands(rest: string)
    requires !StartsAnEscape("%" + rest)
    ensures Decoded("%" + rest) == "%" + Decoded(rest)
  {
    var s := "%" + rest;
    assert s[1..] == rest;
    if |s| > 2 && IsHex(s[1]) && IsHex(s[2]) {
      DigitIsHex(s[1], HexValue(s[1]));
      DigitIsHex(s[2], HexValue(s[2]));
      assert StartsAnEscape(s);
    }
  }

  lemma ConcatFirst(parts: seq<string>)
    requires parts != []
    ensures Concat(parts) == parts[0] + Concat(parts[1..])
  {
    ConcatSplits(parts, 1, |parts|);
    WholeSlice(parts);
    AppendNothing(parts[0]);
    assert parts[..1] == [parts[0]] && Concat([parts[0]]) == [] + parts[0] && parts[1..|parts|] == parts[1..];
  }

  /** Whatever spellings a text of octets is written in, it is decoded. */
  lemma {:induction false} AnySpellingIsDecoded(parts: seq<string>, s: string)
    requires |parts| == |s| && forall i :: 0 <= i < |s| ==> Spells(parts[i], s[i]) && s[i] as int < 256
    ensures Decoded(Concat(parts)) == s
    decreases |s|
  {
    if s != "" {
      ConcatFirst(parts);
      SpellingIsDecoded(parts[0], s[0], Concat(parts[1..]));
      AnySpellingIsDecoded(parts[1..], s[1..]);
    }
  }

  // ---------------------------------------------------------------- splitting

  /** The first position of a character, or the length. */
  function IndexOf(s: string, c: char): (n: nat)
    ensures n <= |s| && c !in s[..n] && (n < |s| ==> s[n] == c)
    decreases |s|
  {
    if s == "" || s[0] == c then 0 else 1 + IndexOf(s[1..], c)
  }

  lemma {:induction false} IndexOfFirst(a: string, c: char, b: string)
    requires c !in a
    ensures IndexOf(a, c) == |a|
    ensures IndexOf(a + [c] + b, c) == |a|
    decreases |a|
  {
    if a == "" {
      assert (a + [c] + b)[0] == c;
    } else {
      assert a == [a[0]] + a[1..];
      assert (a + [c] + b)[1..] == a[1..] + [c] + b;
      IndexOfFirst(a[1..], c, b);
    }
  }

  function Text(encoded: string): string { Trimmed(Decoded(encoded)) }

  /** What one `name=value` piece does to the map; a piece without `=` is a name alone. */
  function Enter(m: map<string, string>, pair: string): map<string, string> {
    var equals := IndexOf(pair, '=');
    if equals < |pair| then m[Text(pair[..equals]) := Text(pair[equals + 1..])]
    else if pair != "" then m[Text(pair) := ""]
    else m
  }

  /** The text from a position on; past the end there is none. */
  function From(s: string, start: nat): string { if start <= |s| then s[start..] else "" }

  /** The pieces between `&` signs, entered in order. */
  function Parsed(query: string, m: map<string, string>): map<string, string>
    decreases |query|
  {
    if query == "" then m
    else
      var end := IndexOf(query, '&');
      Parsed(From(query, end + 1), Enter(m, query[..end]))
  }

  method Find(s: string, c: char, start: nat) returns (position: nat)
    requires start <= |s|
    ensures position == start + IndexOf(s[start..], c)
  {
    position := start;
    while position < |s| && s[position] != c
      invariant start <= position <= |s|
      invariant position + IndexOf(s[position..], c) == start + IndexOf(s[start..], c)
    {
      DropNext(s, position);
      position := position + 1;
    }
  }

  method DecodeAndTrim(encoded: string) returns (r: string)
    ensures r == Text(encoded)
  {
    var decoded := UrlDecode(encoded);
    r := Trim(decoded);
  }

  method EnterPair(m: map<string, string>, pair: string) returns (r: map<string, string>)
    ensures r == Enter(m, pair)
  {
    r := m;
    var equals := Find(pair, '=', 0);
    WholeSlice(pair);
    if equals < |pair| {
      var name := DecodeAndTrim(pair[..equals]);
      var value := DecodeAndTrim(pair[equals + 1..]);
      r := r[name := value];
    } else if pair != "" {
      var name := DecodeAndTrim(pair);
      r := r[name := ""];
    }
  }

  /** The first piece of a text, and the text after the sign that ends it. */
  lemma ParsedStep(rest: string, m: map<string, string>, piece: string, after: string)
    requires rest != "" && piece == rest[..IndexOf(rest, '&')] && after == From(rest, IndexOf(rest, '&') + 1)
    ensures Parsed(rest, m) == Parsed(after, Enter(m, piece))
  {
  }

  lemma FromFrom(s: string, start: nat, more: nat)
    requires start + more <= |s|
    ensures From(From(s, start), more + 1) == From(s, start + more + 1)
    ensures From(s, start)[..more] == s[start..start + more]
  {
  }

  ghost predicate Remains(query: string, start: nat, result: map<string, string>) {
    Parsed(From(query, start), result) == Parsed(query, map[])
  }

  lemma NextPiece(query: string, start: nat, end: nat)
    requires start < |query| && end == start + IndexOf(query[start..], '&')
    ensures end <= |query| && From(query, start) != ""
    ensures query[start..end] == From(query, start)[..IndexOf(From(query, start), '&')]
    ensures From(query, end + 1) == From(From(query, start), IndexOf(From(query, start), '&') + 1)
  {
    FromFrom(query, start, end - start);
  }

  lemma ParsedNext(query: string, start: nat, end: nat, before: map<string, string>, parsed: map<string, string>)
    requires start < |query| && end == start + IndexOf(query[start..], '&')
    requires Parsed(From(query, start), before) == parsed
    ensures end <= |query|
    ensures Parsed(From(query, end + 1), Enter(before, query[start..end])) == parsed
  {
    NextPiece(query, start, end);
    ParsedStep(From(query, start), before, query[start..end], From(query, end + 1));
  }

  lemma RemainsNext(query: string, start: nat, end: nat, result: map<string, string>)
    requires start < |query| && end == start + IndexOf(query[start..], '&') && Remains(query, start, result)
    ensures end <= |query|
    ensures Remains(query, end + 1, Enter(result, query[start..end]))
  {
    ParsedNext(query, start, end, result, Parsed(query, map[]));
  }

  lemma RemainsAtEnds(query: string, start: nat, result: map<string, string>)
    ensures Remains(query, 0, map[])
    ensures start >= |query| && Remains(query, start, result) ==> result == Parsed(query, map[])
  {
  }

  /** One round of the loop. */
  method ParsePiece(queryString: string, start: nat, before: map<string, string>)
      returns (next: nat, result: map<string, string>)
    requires start < |queryString| && Remains(queryString, start, before)
    ensures next > start && Remains(queryString, next, result)
  {
    var end := Find(queryString, '&', start);
    RemainsNext(queryString, start, end, before);
    result := EnterPair(before, queryString[start..end]);
    next := end + 1;
  }

  method ParseQuery(queryString: string) returns (result: map<string, string>)
    ensures result == Parsed(queryString, map[])
  {
    result := map[];
    var start: nat := 0;
    RemainsAtEnds(queryString, 0, result);
    while start < |queryString|
      invariant Remains(queryString, start, result)
      decreases |queryString| - start
    {
      start, result := ParsePiece(queryString, start, result);
    }
    RemainsAtEnds(queryString, start, result);
  }

  // ---------------------------------------------------------------- the form printer

  predicate Octets(s: string) { forall i :: 0 <= i < |s| ==> s[i] as int < 256 }

  /** Section 2.3 of RFC 3986. */
  predicate IsUnreserved(c: char) {
    'A' <= c <= 'Z' || 'a' <= c <= 'z' || '0' <= c <= '9' || c == '-' || c == '.' || c == '_' || c == '~'
  }

  function HexSymbol(v: nat): char
    requires v < 16
  {
    if v < 10 then '0' + v as char else 'A' + (v - 10) as char
  }

  /** Section 2.1 of RFC 3986, and a plus for a space. */
  function PrintedOne(c: char): string
    requires c as int < 256
  {
    if IsUnreserved(c) then [c]
    else if c == ' ' then "+"
    else ['%', HexSymbol(c as int / 16), HexSymbol(c as int % 16)]
  }

  function Printed(s: string): string
    requires Octets(s)
  {
    if s == "" then "" else PrintedOne(s[0]) + Printed(s[1..])
  }

  type Pair = (string, string)

  predicate OctetPairs(pairs: seq<Pair>) {
    forall i :: 0 <= i < |pairs| ==> Octets(pairs[i].0) && Octets(pairs[i].1)
  }

  function PrintedPair(p: Pair): string
    requires Octets(p.0) && Octets(p.1)
  {
    Printed(p.0) + "=" + Printed(p.1)
  }

  function PrintedForm(pairs: seq<Pair>): string
    requires OctetPairs(pairs)
  {
    if pairs == [] then ""
    else if |pairs| == 1 then PrintedPair(pairs[0])
    else PrintedPair(pairs[0]) + "&" + PrintedForm(pairs[1..])
  }

  // ---------------------------------------------------------------- round trip of texts

  lemma HexRoundTrip(v: nat)
    requires v < 16
    ensures IsHex(HexSymbol(v)) && HexValue(HexSymbol(v)) == v
    ensures HexSymbol(v) != '&' && HexSymbol(v) != '='
  {
  }

  lemma DecodedOne(c: char, rest: string)
    requires c as int < 256
    ensures Spells(PrintedOne(c), c) && Decoded(PrintedOne(c) + rest) == [c] + Decoded(rest)
  {
    HexRoundTrip(c as int / 16);
    HexRoundTrip(c as int % 16);
    DigitIsHex(HexSymbol(c as int / 16), c as int / 16);
    DigitIsHex(HexSymbol(c as int % 16), c as int % 16);
    SpellingIsDecoded(PrintedOne(c), c, rest);
  }

  lemma {:induction false} DecodedPrinted(s: string)
    requires Octets(s)
    ensures Decoded(Printed(s)) == s
    decreases |s|
  {
    if s != "" {
      DecodedOne(s[0], Printed(s[1..]));
      DecodedPrinted(s[1..]);
    }
  }

  lemma {:induction false} PrintedIsClean(s: string)
    requires Octets(s)
    ensures '&' !in Printed(s) && '=' !in Printed(s)
    decreases |s|
  {
    if s != "" {
      HexRoundTrip(s[0] as int / 16);
      HexRoundTrip(s[0] as int % 16);
      PrintedIsClean(s[1..]);
    }
  }

  // ---------------------------------------------------------------- round trip of forms

  /** Trimmed names and values, entered in order: later ones win. */
  function Entered(pairs: seq<Pair>, m: map<string, string>): map<string, string> {
    if pairs == [] then m else Entered(pairs[1..], m[Trimmed(pairs[0].0) := Trimmed(pairs[0].1)])
  }

  lemma EnterPrinted(p: Pair, m: map<string, string>)
    requires Octets(p.0) && Octets(p.1)
    ensures Enter(m, PrintedPair(p)) == m[Trimmed(p.0) := Trimmed(p.1)]
    ensures '&' !in PrintedPair(p) && PrintedPair(p) != ""
  {
    var name, value := Printed(p.0), Printed(p.1);
    PrintedIsClean(p.0);
    PrintedIsClean(p.1);
    IndexOfFirst(name, '=', value);
    SplitAppend(name + "=", value);
    SplitAppend(name, "=" + value);
    Associate(name, "=", value);
    DecodedPrinted(p.0);
    DecodedPrinted(p.1);
  }

  lemma ParsedAlone(piece: string, m: map<string, string>)
    requires '&' !in piece && piece != ""
    ensures Parsed(piece, m) == Enter(m, piece)
  {
    IndexOfFirst(piece, '&', "");
    WholeSlice(piece);
    ParsedStep(piece, m, piece, "");
  }

  lemma ParsedFirst(piece: string, rest: string, m: map<string, string>)
    requires '&' !in piece
    ensures Parsed(piece + "&" + rest, m) == Parsed(rest, Enter(m, piece))
  {
    IndexOfFirst(piece, '&', rest);
    SplitAppend(piece + "&", rest);
    SplitAppend(piece, "&" + rest);
    Associate(piece, "&", rest);
    ParsedStep(piece + "&" + rest, m, piece, rest);
  }

  lemma EnterMeaning(name: string, value: string, m: map<string, string>)
    requires '=' !in name
    ensures Enter(m, name + "=" + value) == m[Trimmed(Decoded(name)) := Trimmed(Decoded(value))]
    ensures name != "" ==> Enter(m, name) == m[Trimmed(Decoded(name)) := ""]
    ensures Enter(m, "") == m
  {
    IndexOfFirst(name, '=', value);
    SplitAppend(name + "=", value);
    SplitAppend(name, "=" + value);
    Associate(name, "=", value);
  }

  /** What a query's first piece does: the first equals sign ends the name, a piece without one is a name with
      an empty value, and nothing between two signs is nothing. */
  lemma PieceMeaning(name: string, value: string, rest: string, m: map<string, string>)
    requires '=' !in name && '&' !in name && '&' !in value
    ensures Parsed(name + "=" + value + "&" + rest, m)
         == Parsed(rest, m[Trimmed(Decoded(name)) := Trimmed(Decoded(value))])
    ensures name != "" ==> Parsed(name + "&" + rest, m) == Parsed(rest, m[Trimmed(Decoded(name)) := ""])
    ensures Parsed("&" + rest, m) == Parsed(rest, m)
  {
    EnterMeaning(name, value, m);
    ParsedFirst(name + "=" + value, rest, m);
    ParsedFirst(name, rest, m);
    ParsedFirst("", rest, m);
    AppendNothing("&");
  }

  /** The sign after the last piece may be missing. */
  lemma LastSignIsOptional(piece: string, m: map<string, string>)
    requires '&' !in piece
    ensures Parsed(piece, m) == Parsed(piece + "&", m)
  {
    ParsedFirst(piece, "", m);
    AppendNothing(piece + "&");
    if piece != "" {
      ParsedAlone(piece, m);
    }
  }

  /** Parsing a printed form enters its trimmed pairs in order, whatever the texts. */
  lemma {:induction false} ParsedPrinted(pairs: seq<Pair>, m: map<string, string>)
    requires OctetPairs(pairs)
    ensures Parsed(PrintedForm(pairs), m) == Entered(pairs, m)
    decreases |pairs|
  {
    if pairs != [] {
      var first := PrintedPair(pairs[0]);
      EnterPrinted(pairs[0], m);
      if |pairs| == 1 {
        ParsedAlone(first, m);
      } else {
        ParsedFirst(first, PrintedForm(pairs[1..]), m);
        ParsedPrinted(pairs[1..], Enter(m, first));
      }
    }
  }

  lemma {:induction false} EnteredMisses(pairs: seq<Pair>, m: map<string, string>, k: string)
    requires forall i :: 0 <= i < |pairs| ==> Trimmed(pairs[i].0) != k
    ensures k in Entered(pairs, m) <==> k in m
    ensures k in m ==> Entered(pairs, m)[k] == m[k]
    decreases |pairs|
  {
    if pairs != [] {
      EnteredMisses(pairs[1..], m[Trimmed(pairs[0].0) := Trimmed(pairs[0].1)], k);
    }
  }

  lemma {:induction false} EnteredHits(pairs: seq<Pair>, m: map<string, string>, i: nat)
    requires i < |pairs| && forall j :: i < j < |pairs| ==> Trimmed(pairs[j].0) != Trimmed(pairs[i].0)
    ensures Trimmed(pairs[i].0) in Entered(pairs, m)
    ensures Entered(pairs, m)[Trimmed(pairs[i].0)] == Trimmed(pairs[i].1)
    decreases |pairs|
  {
    var next := m[Trimmed(pairs[0].0) := Trimmed(pairs[0].1)];
    if i == 0 {
      EnteredMisses(pairs[1..], next, Trimmed(pairs[0].0));
    } else {
      EnteredHits(pairs[1..], next, i - 1);
    }
  }

  /** The pairs are the entries of the map, each once. */
  ghost predicate Lists(pairs: seq<Pair>, m: map<string, string>) {
    && (forall i :: 0 <= i < |pairs| ==> pairs[i].0 in m && m[pairs[i].0] == pairs[i].1)
    && (forall k :: k in m ==> exists i :: 0 <= i < |pairs| && pairs[i].0 == k)
    && (forall i, j :: 0 <= i < j < |pairs| ==> pairs[i].0 != pairs[j].0)
  }

  predicate AllTrimmed(m: map<string, string>) {
    forall k :: k in m ==> IsTrimmed(k) && IsTrimmed(m[k])
  }

  lemma EnteredTrimmed(pairs: seq<Pair>, m: map<string, string>)
    requires Lists(pairs, m) && forall k :: k in m ==> IsTrimmed(k)
    ensures Entered(pairs, map[]).Keys == m.Keys
    ensures forall k :: k in m ==> Entered(pairs, map[])[k] == Trimmed(m[k])
  {
    var e := Entered(pairs, map[]);
    forall i | 0 <= i < |pairs| ensures Trimmed(pairs[i].0) == pairs[i].0 {
      TrimmedIff(pairs[i].0);
    }
    forall k | k in m ensures k in e && e[k] == Trimmed(m[k]) {
      var i: nat :| i < |pairs| && pairs[i].0 == k;
      EnteredHits(pairs, map[], i);
    }
    forall k | k !in m ensures k !in e {
      EnteredMisses(pairs, map[], k);
    }
  }

  lemma UntrimmedIsLost(pairs: seq<Pair>, k: string)
    requires !IsTrimmed(k)
    ensures k !in Entered(pairs, map[])
  {
    forall i | 0 <= i < |pairs| ensures Trimmed(pairs[i].0) != k {
      TrimmedIff(pairs[i].0);
    }
    EnteredMisses(pairs, map[], k);
  }

  lemma TrimmedComesBack(pairs: seq<Pair>, m: map<string, string>)
    requires Lists(pairs, m) && AllTrimmed(m)
    ensures Entered(pairs, map[]) == m
  {
    EnteredTrimmed(pairs, m);
    var e := Entered(pairs, map[]);
    forall k | k in m ensures e[k] == m[k] {
      TrimmedIff(m[k]);
    }
  }

  lemma NamesAreTrimmed(pairs: seq<Pair>, m: map<string, string>)
    requires Entered(pairs, map[]) == m
    ensures forall k :: k in m ==> IsTrimmed(k)
  {
    forall k | k in m ensures IsTrimmed(k) {
      if !IsTrimmed(k) {
        UntrimmedIsLost(pairs, k);
      }
    }
  }

  lemma OnlyTrimmedComesBack(pairs: seq<Pair>, m: map<string, string>)
    requires Lists(pairs, m) && Entered(pairs, map[]) == m
    ensures AllTrimmed(m)
  {
    NamesAreTrimmed(pairs, m);
    EnteredTrimmed(pairs, m);
    forall k | k in m ensures IsTrimmed(m[k]) {
      TrimmedIff(m[k]);
    }
  }

  /** A map printed as a form, in any order, comes back unchanged exactly when no name and no value
      has white space at an end. */
  lemma FormRoundTrip(pairs: seq<Pair>, m: map<string, string>)
    requires Lists(pairs, m) && OctetPairs(pairs)
    ensures Parsed(PrintedForm(pairs), map[]) == m <==> AllTrimmed(m)
  {
    ParsedPrinted(pairs, map[]);
    if AllTrimmed(m) {
      TrimmedComesBack(pairs, m);
    }
    if Entered(pairs, map[]) == m {
      OnlyTrimmedComesBack(pairs, m);
    }
  }
}
