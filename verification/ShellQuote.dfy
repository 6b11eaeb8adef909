/** Quoting arguments for bash -c, against the shell's own word splitting. */
module ShellQuote {
  import opened Wrappers

  /** ReplaceAll of every single quote by '\''. */
  function Escape(a: string): string {
    if a == "" then "" else (if a[0] == '\'' then "'\\''" else [a[0]]) + Escape(a[1..])
  }

  function Quoted(args: seq<string>): string {
    if args == [] then ""
    else Quoted(args[..|args| - 1]) + (if |args| > 1 then " " else "") + "'" + Escape(args[|args| - 1]) + "'"
  }

  method ReplaceQuotes(a: string) returns (out: string)
    ensures out == Escape(a)
  {
    out := "";
    for i := 0 to |a|
      invariant out + Escape(a[i..]) == Escape(a)
    {
      out := out + if a[i] == '\'' then "'\\''" else [a[i]];
    }
  }

  method Quote(args: seq<string>) returns (out: string)
    ensures out == Quoted(args)
  {
    out := "";
    for i := 0 to |args|
      invariant out == Quoted(args[..i])
    {
      assert args[..i + 1][..i] == args[..i];
      if i > 0 { out := out + " "; }
      var e := ReplaceQuotes(args[i]);
      out := out + "'" + e + "'";
    }
    assert args[..|args|] == args;
  }

  // ---- the shell's side: POSIX.1-2017 XCU sections 2.2.1 (backslash), 2.2.2 (single quotes) and 2.3 ----

  datatype Mode = Plain | Single | Backslash

  /** word is the word being read; bad means an unquoted character with a meaning of its own. */
  datatype Lexer = Lexer(mode: Mode, word: Option<string>, words: seq<string>, bad: bool)

  /** The characters section 2.2 lists as special or needing quotes, blanks, quotes and backslash aside. */
  predicate Special(c: char) {
    c in "|&;<>()$`\"\n*?[#~=%"
  }

  function Add(l: Lexer, c: char): Lexer {
    l.(word := Some((if l.word.Some? then l.word.value else "") + [c]))
  }

  function Step(l: Lexer, c: char): Lexer {
    match l.mode
    case Single => if c == '\'' then l.(mode := Plain) else Add(l, c)
    case Backslash => if c == '\n' then l.(mode := Plain) else Add(l.(mode := Plain), c)
    case Plain =>
      if c == ' ' || c == '\t' then
        if l.word.Some? then l.(word := None, words := l.words + [l.word.value]) else l
      else if c == '\'' then l.(mode := Single, word := Some(if l.word.Some? then l.word.value else ""))
      else if c == '\\' then l.(mode := Backslash)
      else if Special(c) then l.(bad := true)
      else Add(l, c)
  }

  function Lex(l: Lexer, s: string): Lexer
    decreases |s|
  {
    if s == "" then l else Lex(Step(l, s[0]), s[1..])
  }

  /** The words of a simple command line; None when it is not one. */
  function Words(s: string): Option<seq<string>> {
    var l := Lex(Lexer(Plain, None, [], false), s);
    if l.bad || l.mode != Plain then None
    else Some(if l.word.Some? then l.words + [l.word.value] else l.words)
  }

  lemma {:induction false} LexAppend(l: Lexer, a: string, b: string)
    ensures Lex(l, a + b) == Lex(Lex(l, a), b)
    decreases |a|
  {
    if a == "" {
      assert a + b == b;
    } else {
      assert (a + b)[1..] == a[1..] + b;
      LexAppend(Step(l, a[0]), a[1..], b);
    }
  }

  lemma Lex4(l: Lexer, a: char, b: char, c: char, d: char)
    ensures Lex(l, [a, b, c, d]) == Step(Step(Step(Step(l, a), b), c), d)
  {
    LexAppend(l, [a, b, c], [d]);
    LexAppend(l, [a, b], [c]);
    LexAppend(l, [a], [b]);
    LexOne(l, a);
    LexOne(Step(l, a), b);
    LexOne(Step(Step(l, a), b), c);
    LexOne(Step(Step(Step(l, a), b), c), d);
    assert [a] + [b] == [a, b] && [a, b] + [c] == [a, b, c] && [a, b, c] + [d] == [a, b, c, d];
  }

  /** Inside single quotes the escaped argument reads as the argument. */
  lemma {:induction false} EscapedReadsBack(w: string, words: seq<string>, a: string)
    ensures Lex(Lexer(Single, Some(w), words, false), Escape(a)) == Lexer(Single, Some(w + a), words, false)
    decreases |a|
  {
    var l := Lexer(Single, Some(w), words, false);
    if a == "" {
      assert w + a == w;
    } else {
      var head := if a[0] == '\'' then "'\\''" else [a[0]];
      LexAppend(l, head, Escape(a[1..]));
      if a[0] == '\'' {
        Lex4(l, '\'', '\\', '\'', '\'');
      } else {
        assert Lex(l, [a[0]]) == Step(l, a[0]) by { assert [a[0]][1..] == ""; }
      }
      EscapedReadsBack(w + [a[0]], words, a[1..]);
      assert w + [a[0]] + a[1..] == w + a;
    }
  }

  lemma LexOne(l: Lexer, c: char)
    ensures Lex(l, [c]) == Step(l, c)
  {
    assert [c][1..] == "";
  }

  lemma {:induction false} QuotedLexes(args: seq<string>)
    ensures Lex(Lexer(Plain, None, [], false), Quoted(args)) ==
      if args == [] then Lexer(Plain, None, [], false)
      else Lexer(Plain, Some(args[|args| - 1]), args[..|args| - 1], false)
  {
    if args != [] {
      var init, last := args[..|args| - 1], args[|args| - 1];
      var start := Lexer(Plain, None, [], false);
      QuotedLexes(init);
      var space := if |args| > 1 then " " else "";
      LexAppend(start, Quoted(init) + space + "'" + Escape(last), "'");
      LexAppend(start, Quoted(init) + space + "'", Escape(last));
      LexAppend(start, Quoted(init) + space, "'");
      LexAppend(start, Quoted(init), space);
      var l := Lex(start, Quoted(init) + space);
      if |args| > 1 {
        LexOne(Lex(start, Quoted(init)), ' ');
        assert init == init[..|init| - 1] + [init[|init| - 1]];
      }
      assert l == Lexer(Plain, None, init, false);
      LexOne(l, '\'');
      EscapedReadsBack("", init, last);
      assert "" + last == last;
      LexOne(Lexer(Single, Some(last), init, false), '\'');
    }
  }

  /** The shell reads back exactly the arguments, whatever they contain, and meets no unquoted
      character of theirs. */
  lemma ShellReadsBack(args: seq<string>)
    ensures Words(Quoted(args)) == Some(args)
  {
    QuotedLexes(args);
    if args != [] { assert args == args[..|args| - 1] + [args[|args| - 1]]; }
  }
}
