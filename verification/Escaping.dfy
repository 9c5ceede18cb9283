/** Quoting for SQL and for the shell, against lexers of the quoted text. */
module Escaping {
  import opened Wrappers
  import opened Sequences

  // ---------------------------------------------------------------- writing

  /** What is written for each character, one after the other. */
  function Each(s: string, write: char -> string): string {
    if s == "" then "" else write(s[0]) + Each(s[1..], write)
  }

  lemma {:induction false} EachOfOneMore(s: string, c: char, write: char -> string)
    ensures Each(s + [c], write) == Each(s, write) + write(c)
    decreases |s|
  {
    if s == "" {
      AppendNothing(write(c));
      assert (s + [c])[1..] == "";
    } else {
      assert (s + [c])[1..] == s[1..] + [c];
      EachOfOneMore(s[1..], c, write);
      Associate(write(s[0]), Each(s[1..], write), write(c));
    }
  }

  /** A quote doubled. */
  function Twice(c: char): string { if c == '\'' then "''" else [c] }

  /** A quote as the end of the quoted part, an escaped quote and the start of a new part. */
  function Reopen(c: char): string { if c == '\'' then "'\\''" else [c] }

  method EscapeSqlLiteral(value: string) returns (escaped: string)
    ensures escaped == Each(value, Twice)
  {
    escaped := "";
    for i := 0 to |value|
      invariant escaped == Each(value[..i], Twice)
    {
      NextPrefix(value, i);
      EachOfOneMore(value[..i], value[i], Twice);
      if value[i] == '\'' {
        escaped := escaped + "''";
      } else {
        escaped := escaped + [value[i]];
      }
    }
    WholeSlice(value);
  }

  function Quoted(s: string): string { "'" + Each(s, Reopen) + "'" }

  method ShellEscape(value: string) returns (escaped: string)
    ensures escaped == Quoted(value)
  {
    escaped := "'";
    for i := 0 to |value|
      invariant escaped == "'" + Each(value[..i], Reopen)
    {
      NextPrefix(value, i);
      EachOfOneMore(value[..i], value[i], Reopen);
      Associate("'", Each(value[..i], Reopen), Reopen(value[i]));
      if value[i] == '\'' {
        escaped := escaped + "'\\''";
      } else {
        escaped := escaped + [value[i]];
      }
    }
    WholeSlice(value);
    escaped := escaped + "'";
  }

  // ---------------------------------------------------------------- reading an SQL literal

  /** A token and the text after it. */
  datatype Lexed = Lexed(token: string, rest: string)

  /** The inside of a quoted SQL literal: two quotes stand for one, a single one ends it.  PostgreSQL would
      also go on with another literal after white space that contains a newline; this lexer does not. */
  function SqlBody(s: string): Option<Lexed>
    decreases |s|
  {
    if s == "" then None
    else if s[0] != '\'' then
      match SqlBody(s[1..])
      case None => None
      case Some(l) => Some(Lexed([s[0]] + l.token, l.rest))
    else if |s| > 1 && s[1] == '\'' then
      match SqlBody(s[2..])
      case None => None
      case Some(l) => Some(Lexed("'" + l.token, l.rest))
    else Some(Lexed("", s[1..]))
  }

  /** An SQL string literal at the start of a text. */
  function SqlLiteral(s: string): Option<Lexed> {
    if s == "" || s[0] != '\'' then None else SqlBody(s[1..])
  }

  // ---------------------------------------------------------------- reading a shell word

  /** A word of the shell (sections 2.2.1 and 2.2.2 of the Shell Command Language): single quotes keep
      everything up to the next one, a backslash outside them keeps the next character, and a
      character with a meaning of its own to the shell ends the word.  Other quotes and expansions do
      not occur in it. */
  function Word(s: string, quoted: bool): Option<Lexed>
    decreases |s|
  {
    if s == "" then if quoted then None else Some(Lexed("", ""))
    else if quoted then
      if s[0] == '\'' then Word(s[1..], false) else Kept(s[0], Word(s[1..], true))
    else if s[0] == '\'' then Word(s[1..], true)
    else if s[0] == '\\' then
      if |s| == 1 || s[1] == '\n' then None else Kept(s[1], Word(s[2..], false))
    else if EndsWord(s[0]) then Some(Lexed("", s))
    else if HasMeaning(s[0]) then None
    else Kept(s[0], Word(s[1..], false))
  }

  function Kept(c: char, after: Option<Lexed>): Option<Lexed> {
    match after
    case None => None
    case Some(l) => Some(Lexed([c] + l.token, l.rest))
  }

  /** Blanks, newlines and operators. */
  predicate EndsWord(c: char) { c in " \t\n|&;<>()" }

  /** Characters that start an expansion, another kind of quoting, a pattern or a comment. */
  predicate HasMeaning(c: char) { c in "$`\"*?[#~=%!{}" }

  // ---------------------------------------------------------------- what is read is what was written

  lemma EachFirst(s: string, write: char -> string, end: string)
    requires s != ""
    ensures Each(s, write) + end == write(s[0]) + (Each(s[1..], write) + end)
  {
  }

  /** The text of a literal with its closing quote, followed by anything but another quote. */
  lemma {:induction false} SqlBodyRoundTrip(v: string, rest: string)
    requires rest == "" || rest[0] != '\''
    ensures SqlBody(Each(v, Twice) + ("'" + rest)) == Some(Lexed(v, rest))
    decreases |v|
  {
    var end := "'" + rest;
    if v == "" {
      AppendNothing(end);
      SplitAppend("'", rest);
    } else {
      EachFirst(v, Twice, end);
      SplitAppend(Twice(v[0]), Each(v[1..], Twice) + end);
      SqlBodyRoundTrip(v[1..], rest);
      assert v == [v[0]] + v[1..];
    }
  }

  lemma {:induction false} SqlBodyShrinks(s: string)
    ensures SqlBody(s).Some? ==> |SqlBody(s).value.rest| < |s|
    decreases |s|
  {
    if s != "" {
      if s[0] != '\'' {
        SqlBodyShrinks(s[1..]);
      } else if |s| > 1 && s[1] == '\'' {
        SqlBodyShrinks(s[2..]);
      }
    }
  }

  /** Followed by a quote, the literal does not end where it was meant to. */
  lemma {:induction false} SqlBodyRunsOn(v: string, rest: string)
    requires rest != "" && rest[0] == '\''
    ensures var l := SqlBody(Each(v, Twice) + ("'" + rest)); l.Some? ==> |l.value.rest| < |rest|
    decreases |v|
  {
    var end := "'" + rest;
    if v == "" {
      AppendNothing(end);
      assert end[2..] == rest[1..];
      SqlBodyShrinks(rest[1..]);
    } else {
      EachFirst(v, Twice, end);
      SplitAppend(Twice(v[0]), Each(v[1..], Twice) + end);
      SqlBodyRunsOn(v[1..], rest);
    }
  }

  /** A value escaped and put between quotes is read back, and the text after it left alone, exactly
      when that text does not start with a quote. */
  lemma SqlRoundTrip(v: string, rest: string)
    ensures SqlLiteral("'" + (Each(v, Twice) + ("'" + rest))) == Some(Lexed(v, rest))
       <==> (rest == "" || rest[0] != '\'')
  {
    var body := Each(v, Twice) + ("'" + rest);
    assert ("'" + body)[0] == '\'' && ("'" + body)[1..] == body;
    if rest == "" || rest[0] != '\'' {
      SqlBodyRoundTrip(v, rest);
    } else {
      SqlBodyRunsOn(v, rest);
    }
  }

  function Prepended(v: string, after: Option<Lexed>): Option<Lexed> {
    match after
    case None => None
    case Some(l) => Some(Lexed(v + l.token, l.rest))
  }

  lemma PrependOne(v: string, after: Option<Lexed>)
    requires v != ""
    ensures Kept(v[0], Prepended(v[1..], after)) == Prepended(v, after)
  {
    if after.Some? {
      Associate([v[0]], v[1..], after.value.token);
      assert v == [v[0]] + v[1..];
    }
  }

  lemma WordOverQuote(rest: string)
    ensures Word("'\\''" + rest, true) == Kept('\'', Word(rest, true))
  {
    var s, last := "'\\''" + rest, "'" + rest;
    assert s[0] == '\'' && s[1] == '\\' && s[2] == '\'';
    var middle := s[1..];
    assert middle[0] == '\\' && middle[1] == '\'' && middle[2..] == last;
    assert Word(middle, false) == Kept('\'', Word(last, false));
    assert last[0] == '\'' && last[1..] == rest;
    assert Word(last, false) == Word(rest, true);
  }

  /** The quoted part up to the closing quote. */
  lemma {:induction false} WordRoundTrip(v: string, rest: string)
    ensures Word(Each(v, Reopen) + ("'" + rest), true) == Prepended(v, Word(rest, false))
    decreases |v|
  {
    var end := "'" + rest;
    if v == "" {
      AppendNothing(end);
      SplitAppend("'", rest);
      assert forall t: string {:trigger v + t} :: v + t == t;
    } else {
      var after := Each(v[1..], Reopen) + end;
      EachFirst(v, Reopen, end);
      SplitAppend(Reopen(v[0]), after);
      if v[0] == '\'' {
        WordOverQuote(after);
      }
      WordRoundTrip(v[1..], rest);
      PrependOne(v, Word(rest, false));
    }
  }

  /** A quoted value adds exactly itself to the word the shell is reading, whatever follows. */
  lemma ShellRoundTrip(v: string, rest: string)
    ensures Word(Quoted(v) + rest, false) == Prepended(v, Word(rest, false))
  {
    Associate("'" + Each(v, Reopen), "'", rest);
    Associate("'", Each(v, Reopen), "'" + rest);
    SplitAppend("'", Each(v, Reopen) + ("'" + rest));
    WordRoundTrip(v, rest);
  }

  /** Alone, or before a blank or an operator, it is one word equal to the value. */
  lemma OneShellWord(v: string, rest: string)
    requires rest == "" || EndsWord(rest[0])
    ensures Word(Quoted(v) + rest, false) == Some(Lexed(v, rest))
  {
    ShellRoundTrip(v, rest);
    AppendNothing(v);
  }
}
