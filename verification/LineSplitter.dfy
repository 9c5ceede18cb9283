/** The telemetry server's framing: received bytes are cut into lines at newlines, whatever the
    chunks they arrive in. */
module LineSplitter {
  import opened Wrappers
  import opened Sequences

  /** The bytes of complete lines: each line followed by a newline. */
  function Joined(lines: seq<string>): string {
    if lines == [] then [] else lines[0] + ['\n'] + Joined(lines[1..])
  }

  predicate Clean(lines: seq<string>) {
    forall i :: 0 <= i < |lines| ==> '\n' !in lines[i]
  }

  /** `lines` and `rest` are what a stream splits into. */
  predicate IsSplit(stream: string, lines: seq<string>, rest: string) {
    stream == Joined(lines) + rest && Clean(lines) && '\n' !in rest
  }

  lemma {:induction false} JoinedAppends(a: seq<string>, b: seq<string>)
    ensures Joined(a + b) == Joined(a) + Joined(b)
    decreases |a|
  {
    if a == [] {
      AppendNothing(b);
      AppendNothing(Joined(b));
    } else {
      assert (a + b)[1..] == a[1..] + b;
      JoinedAppends(a[1..], b);
      Associate(a[0] + ['\n'], Joined(a[1..]), Joined(b));
    }
  }

  /** Where the first newline is decides the first line. */
  lemma FirstLine(line: string, tail: string, other: string, otherTail: string)
    requires '\n' !in line && '\n' !in other
    requires line + ['\n'] + tail == other + ['\n'] + otherTail
    ensures line == other && tail == otherTail
  {
    var s := line + ['\n'] + tail;
    assert s[|line|] == '\n' && forall i :: 0 <= i < |line| ==> s[i] == line[i];
    assert s[|other|] == '\n' && forall i :: 0 <= i < |other| ==> s[i] == other[i];
    assert |line| == |other|;
    assert s[..|line|] == line && s[..|other|] == other;
    assert s[|line| + 1..] == tail && s[|other| + 1..] == otherTail;
  }

  /** A stream splits in only one way. */
  lemma {:induction false} SplitIsUnique(stream: string, lines: seq<string>, rest: string, others: seq<string>,
      otherRest: string)
    requires IsSplit(stream, lines, rest) && IsSplit(stream, others, otherRest)
    ensures lines == others && rest == otherRest
    decreases |lines|
  {
    if lines == [] || others == [] {
      OnlyRest(lines, rest, others, otherRest);
    } else {
      Associate(lines[0] + ['\n'], Joined(lines[1..]), rest);
      Associate(others[0] + ['\n'], Joined(others[1..]), otherRest);
      FirstLine(lines[0], Joined(lines[1..]) + rest, others[0], Joined(others[1..]) + otherRest);
      SplitIsUnique(Joined(lines[1..]) + rest, lines[1..], rest, others[1..], otherRest);
      assert lines == [lines[0]] + lines[1..] && others == [others[0]] + others[1..];
    }
  }

  lemma LinesShow(lines: seq<string>, rest: string)
    requires '\n' !in rest
    ensures lines != [] <==> '\n' in Joined(lines) + rest
  {
  }

  lemma OnlyRest(lines: seq<string>, rest: string, others: seq<string>, otherRest: string)
    requires Joined(lines) + rest == Joined(others) + otherRest
    requires '\n' !in rest && '\n' !in otherRest
    requires lines == [] || others == []
    ensures lines == others && rest == otherRest
  {
    LinesShow(lines, rest);
    LinesShow(others, otherRest);
    AppendNothing(rest);
    AppendNothing(otherRest);
  }

  // ---------------------------------------------------------------- the code

  /** One client connection: the bytes received that do not yet make a line. */
  class Connection {
    var buffer: string

    constructor ()
      ensures buffer == ""
    {
      buffer := "";
    }

    /** `buffer.find('\n')`. */
    method Find() returns (newline: Option<nat>)
      ensures newline.None? ==> '\n' !in buffer
      ensures newline.Some? ==> newline.value < |buffer| && buffer[newline.value] == '\n'
                                && '\n' !in buffer[..newline.value]
    {
      var i := 0;
      while i < |buffer|
        invariant 0 <= i <= |buffer| && '\n' !in buffer[..i]
      {
        if buffer[i] == '\n' {
          return Some(i);
        }
        NextPrefix(buffer, i);
        i := i + 1;
      }
      WholeSlice(buffer);
      return None;
    }

    /** Takes in one received chunk and hands out every line it completes. */
    method Receive(chunk: string) returns (lines: seq<string>)
      modifies this
      ensures IsSplit(old(buffer) + chunk, lines, buffer)
    {
      buffer := buffer + chunk;
      lines := [];
      AppendNothing(buffer);
      var newline := Find();
      while newline.Some?
        invariant newline.None? ==> '\n' !in buffer
        invariant newline.Some? ==> 0 <= newline.value < |buffer| && buffer[newline.value] == '\n'
                                    && '\n' !in buffer[..newline.value]
        invariant Joined(lines) + buffer == old(buffer) + chunk && Clean(lines)
        decreases |buffer|
      {
        var n := newline.value;
        var line := buffer[..n];
        CutLine(lines, buffer, n);
        buffer := buffer[n + 1..];
        lines := lines + [line];
        newline := Find();
      }
    }
  }

  lemma CutLine(lines: seq<string>, buffer: string, n: nat)
    requires n < |buffer| && buffer[n] == '\n'
    ensures Joined(lines + [buffer[..n]]) + buffer[n + 1..] == Joined(lines) + buffer
  {
    var line := buffer[..n];
    JoinedAppends(lines, [line]);
    assert Joined([line]) == line + ['\n'] by {
      assert [line][1..] == [];
      AppendNothing(line + ['\n']);
    }
    assert buffer == line + ['\n'] + buffer[n + 1..];
    Associate(Joined(lines), line + ['\n'], buffer[n + 1..]);
  }

  // ---------------------------------------------------------------- chunking does not matter

  /** Receives every chunk in turn, gathering the lines handed out. */
  method ReceiveAll(connection: Connection, chunks: seq<string>) returns (lines: seq<string>)
    requires connection.buffer == ""
    modifies connection
    ensures IsSplit(Concat(chunks), lines, connection.buffer)
  {
    lines := [];
    var i := 0;
    AppendNothing(connection.buffer);
    while i < |chunks|
      invariant 0 <= i <= |chunks|
      invariant IsSplit(Concat(chunks[..i]), lines, connection.buffer)
    {
      ghost var before := connection.buffer;
      var more := connection.Receive(chunks[i]);
      NextPrefix(chunks, i);
      SplitContinues(Concat(chunks[..i]), lines, before, chunks[i], more, connection.buffer);
      lines := lines + more;
      i := i + 1;
    }
    WholeSlice(chunks);
  }

  lemma SplitContinues(stream: string, lines: seq<string>, rest: string, chunk: string, more: seq<string>,
      newRest: string)
    requires IsSplit(stream, lines, rest) && IsSplit(rest + chunk, more, newRest)
    ensures IsSplit(stream + chunk, lines + more, newRest)
  {
    JoinedAppends(lines, more);
    Associate(Joined(lines), rest, chunk);
    Associate(Joined(lines), Joined(more), newRest);
  }

  /** Two ways of cutting the same bytes into chunks give the same lines and the same rest. */
  lemma ChunkingDoesNotMatter(chunks: seq<string>, others: seq<string>, lines: seq<string>, rest: string,
                              otherLines: seq<string>, otherRest: string)
    requires Concat(chunks) == Concat(others)
    requires IsSplit(Concat(chunks), lines, rest) && IsSplit(Concat(others), otherLines, otherRest)
    ensures lines == otherLines && rest == otherRest
  {
    SplitIsUnique(Concat(chunks), lines, rest, otherLines, otherRest);
  }
}
