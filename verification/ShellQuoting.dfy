/**
 The line logged for a command (lib/vdsm/common/cmdutils.py, _list2cmdline) and
 how a shell reads it back: the quoting rules of section 2.2 of the
 POSIX.1-2017 Shell Command Language.
 */
module ShellQuoting {
  import opened Collections
  import opened Options

  /** An argument, or a password that must not be shown. */
  datatype Arg = Plain(text: string) | Protected(secret: string)

  const MASK := "********"

  /** What the argument looks like: str() of it. */
  function Shown(a: Arg): string { if a.Plain? then a.text else MASK }

  predicate Safe(c: char) {
    'A' <= c <= 'Z' || 'a' <= c <= 'z' || '0' <= c <= '9' || c in "_%+,-./:=@"
  }

  predicate NeedsQuoting(s: string) { exists i :: 0 <= i < |s| && !Safe(s[i]) }

  /** Every single quote is replaced by: close, escaped quote, open. */
  function Escaped(s: string): string {
    if s == [] then [] else (if s[0] == '\'' then "'\\''" else [s[0]]) + Escaped(s[1..])
  }

  function Part(s: string): string {
    if NeedsQuoting(s) || s == [] then "'" + Escaped(s) + "'" else s
  }

  function Parts(args: seq<Arg>): seq<string> {
    seq(|args|, i requires 0 <= i < |args| => Part(Shown(args[i])))
  }

  function CommandLine(args: seq<Arg>): string { Join(Parts(args), " ") }

  // -------------------------------------------------------------- the shell's side

  datatype Mode = Bare | Single | Double

  predicate Blank(c: char) { c == ' ' || c == '\t' }

  /** Characters that mean something to the shell when they are not quoted. */
  predicate Special(c: char) { c in "|&;<>()$`*?[#~\n" }

  function Extend(word: Option<string>, more: string): Option<string> {
    Some((if word.Some? then word.value else []) + more)
  }

  function Cons(word: Option<string>, words: Option<seq<string>>): Option<seq<string>> {
    if words.None? then None else if word.None? then words else Some([word.value] + words.value)
  }

  /**
   The words of a line, with the quotes removed; none if the line ends inside a
   quotation or exposes a special character.
   */
  function Words(s: string, mode: Mode, word: Option<string>): Option<seq<string>>
    decreases |s|
  {
    if s == [] then
      if mode == Bare then Cons(word, Some([])) else None
    else
      var c, rest := s[0], s[1..];
      match mode
      case Single => if c == '\'' then Words(rest, Bare, word) else Words(rest, Single, Extend(word, [c]))
      case Double =>
        if c == '\"' then Words(rest, Bare, word)
        else if c == '$' || c == '`' then None
        else if c == '\\' && rest != [] && rest[0] == '\n' then Words(rest[1..], Double, word)
        else if c == '\\' && rest != [] && rest[0] in "$`\"\\" then Words(rest[1..], Double, Extend(word, [rest[0]]))
        else Words(rest, Double, Extend(word, [c]))
      case Bare =>
        if Blank(c) then Cons(word, Words(rest, Bare, None))
        else if c == '\'' then Words(rest, Single, Extend(word, []))
        else if c == '\"' then Words(rest, Double, Extend(word, []))
        else if c == '\\' then
          if rest == [] then None
          else if rest[0] == '\n' then Words(rest[1..], Bare, word)
          else Words(rest[1..], Bare, Extend(word, [rest[0]]))
        else if Special(c) then None
        else Words(rest, Bare, Extend(word, [c]))
  }

  function Split(line: string): Option<seq<string>> { Words(line, Bare, None) }

  // --------------------------------------------------------------------- reading back

  lemma ReadSafeChar(c: char, rest: string, word: Option<string>)
    requires Safe(c)
    ensures Words([c] + rest, Bare, word) == Words(rest, Bare, Extend(word, [c]))
  {
    var line := [c] + rest;
    assert line[0] == c && line[1..] == rest;
    assert !Special(c) && !Blank(c) && c != '\\' && c != '\'' && c != '\"';
  }

  lemma ReadOpen(rest: string)
    ensures Words("'" + rest, Bare, None) == Words(rest, Single, Some([]))
  {
    var line := "'" + rest;
    assert line[0] == '\'' && line[1..] == rest;
    var empty: string := [];
    assert empty + empty == empty;
  }

  lemma ReadSpace(rest: string, word: Option<string>)
    ensures Words(" " + rest, Bare, word) == Cons(word, Words(rest, Bare, None))
  {
  }

  lemma {:induction false} ReadSafe(s: string, rest: string, word: Option<string>)
    requires s != [] && forall i :: 0 <= i < |s| ==> Safe(s[i])
    ensures Words(s + rest, Bare, word) == Words(rest, Bare, Extend(word, s))
    decreases |s|
  {
    hide Words, Safe;
    assert s + rest == [s[0]] + (s[1..] + rest);
    ReadSafeChar(s[0], s[1..] + rest, word);
    if |s| == 1 {
      assert s == [s[0]] && s[1..] + rest == rest;
    } else {
      ReadSafe(s[1..], rest, Extend(word, [s[0]]));
      assert [s[0]] + s[1..] == s;
      ExtendTwice(word, [s[0]], s[1..]);
    }
  }

  lemma ExtendTwice(word: Option<string>, a: string, b: string)
    ensures Extend(Extend(word, a), b) == Extend(word, a + b)
  {
    var w := if word.Some? then word.value else [];
    assert (w + a) + b == w + (a + b);
  }

  lemma ReadQuote(rest: string, word: Option<string>)
    requires word.Some?
    ensures Words("'\\''" + rest, Single, word) == Words(rest, Single, Extend(word, "'"))
  {
    var line := "'\\''" + rest;
    assert line[0] == '\'' && line[1..] == "\\''" + rest;
    var two := "\\''" + rest;
    assert two[0] == '\\' && two[1..] == "''" + rest;
    var three := "''" + rest;
    assert three[0] == '\'' && three[1..] == "'" + rest;
    var four := "'" + rest;
    assert four[0] == '\'' && four[1..] == rest;
    assert Words(two, Bare, word) == Words(four, Bare, Extend(word, "'"));
    ExtendTwice(word, "'", []);
    assert "'" + [] == "'";
  }

  lemma {:induction false} ReadEscaped(s: string, rest: string, word: Option<string>)
    requires word.Some?
    ensures Words(Escaped(s) + "'" + rest, Single, word) == Words(rest, Bare, Extend(word, s))
    decreases |s|
  {
    if s == [] {
      assert Escaped(s) + "'" + rest == "'" + rest;
      assert ("'" + rest)[1..] == rest;
      assert word.value + s == word.value;
    } else {
      hide Words;
      var tail := Escaped(s[1..]) + "'" + rest;
      var head := if s[0] == '\'' then "'\\''" else [s[0]];
      assert Escaped(s) + "'" + rest == head + tail;
      if s[0] == '\'' {
        ReadQuote(tail, word);
      } else {
        ReadPlain(s[0], tail, word);
      }
      assert Words(head + tail, Single, word) == Words(tail, Single, Extend(word, [s[0]]));
      ReadEscaped(s[1..], rest, Extend(word, [s[0]]));
      ExtendTwice(word, [s[0]], s[1..]);
      assert [s[0]] + s[1..] == s;
    }
  }

  lemma ReadPlain(c: char, tail: string, word: Option<string>)
    requires c != '\''
    ensures Words([c] + tail, Single, word) == Words(tail, Single, Extend(word, [c]))
  {
  }

  /** Reading one part leaves the word it was made from. */
  lemma ReadPart(s: string, rest: string)
    ensures Words(Part(s) + rest, Bare, None) == Words(rest, Bare, Some(s))
  {
    hide Words, Escaped;
    assert [] + s == s;
    if NeedsQuoting(s) || s == [] {
      var inner := Escaped(s) + "'" + rest;
      assert Part(s) + rest == "'" + inner;
      ReadOpen(inner);
      ReadEscaped(s, rest, Some([]));
    } else {
      ReadSafe(s, rest, None);
    }
  }

  lemma ReadFirst(first: string, more: seq<string>, rest: seq<string>)
    requires more != [] && Split(Join(more, " ")) == Some(rest)
    ensures Split(Join([Part(first)] + more, " ")) == Some([first] + rest)
  {
    hide Part, Words;
    var parts := [Part(first)] + more;
    assert parts[1..] == more;
    var line := " " + Join(more, " ");
    assert Join(parts, " ") == Part(first) + " " + Join(more, " ") == Part(first) + line;
    ReadPart(first, line);
    ReadSpace(Join(more, " "), Some(first));
  }

  function Quoted(texts: seq<string>): seq<string> {
    seq(|texts|, i requires 0 <= i < |texts| => Part(texts[i]))
  }

  lemma {:induction false} ReadAll(texts: seq<string>)
    ensures Split(Join(Quoted(texts), " ")) == Some(texts)
  {
    if |texts| == 1 {
      ReadPart(texts[0], []);
      assert Part(texts[0]) + [] == Quoted(texts)[0];
      assert texts == [texts[0]] + [];
    } else if |texts| > 1 {
      hide Part, Split, Join;
      ReadAll(texts[1..]);
      ReadFirst(texts[0], Quoted(texts[1..]), texts[1..]);
      assert Quoted(texts) == [Part(texts[0])] + Quoted(texts[1..]);
      assert [texts[0]] + texts[1..] == texts;
    }
  }

  /** A shell splits the logged line into exactly the arguments, passwords masked, for every list of strings. */
  lemma {:induction false} SplitCommandLine(args: seq<Arg>)
    ensures Split(CommandLine(args)) == Some(seq(|args|, i requires 0 <= i < |args| => Shown(args[i])))
  {
    var texts := seq(|args|, i requires 0 <= i < |args| => Shown(args[i]));
    ReadAll(texts);
    assert Parts(args) == Quoted(texts);
  }

  /** Two argument lists give the same line if and only if they show the same texts. */
  lemma {:induction false} SameLineIff(a: seq<Arg>, b: seq<Arg>)
    ensures CommandLine(a) == CommandLine(b) <==>
            |a| == |b| && forall i :: 0 <= i < |a| ==> Shown(a[i]) == Shown(b[i])
  {
    SplitCommandLine(a);
    SplitCommandLine(b);
    var s := seq(|a|, i requires 0 <= i < |a| => Shown(a[i]));
    var t := seq(|b|, i requires 0 <= i < |b| => Shown(b[i]));
    if |a| == |b| && forall i :: 0 <= i < |a| ==> Shown(a[i]) == Shown(b[i]) {
      assert Parts(a) == Parts(b);
    }
    if CommandLine(a) == CommandLine(b) {
      assert s == t;
      forall i | 0 <= i < |a| ensures Shown(a[i]) == Shown(b[i]) {
        assert s[i] == t[i];
      }
    }
  }

  // ------------------------------------------------------------------------ the loop

  method ListToCommandLine(args: seq<Arg>) returns (line: string)
    ensures line == CommandLine(args)
    ensures Split(line) == Some(seq(|args|, i requires 0 <= i < |args| => Shown(args[i])))
  {
    var parts: seq<string> := [];
    for k := 0 to |args|
      invariant parts == Parts(args[..k])
    {
      var arg := Shown(args[k]);
      if NeedsQuoting(arg) || arg == "" {
        arg := "'" + Escaped(arg) + "'";
      }
      parts := parts + [arg];
    }
    assert args[..|args|] == args;
    line := Join(parts, " ");
    SplitCommandLine(args);
  }
}
