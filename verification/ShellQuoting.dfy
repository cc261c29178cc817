/**
 Quoting of remote commands (internal/gateway/proxy/ssh.go), against a word
 splitter written from sections 2.2.1 (escape character), 2.2.2 (single quotes)
 and 2.3 (token recognition) of the POSIX.1-2017 Shell Command Language.
 */
module ShellQuoting {
  import opened Wrappers

  const NUL: char := '\0'

  /** Characters whose unquoted use makes the shell do more than split words. */
  predicate Special(c: char) {
    c in "|&;<>()$`\"\n*?[#~=%"
  }

  predicate Blank(c: char) { c == ' ' || c == '\t' }

  // ---- The reader's side: how a shell splits a line into words ----

  /**
   The words of a line, or None when the shell would expand, redirect, continue
   or reject it, or when it holds a NUL and so cannot be a command line at all.
   `word` is the word being built, if one has begun.
   */
  function Unquoted(s: string, word: Option<string>): Option<seq<string>>
    decreases |s|
  {
    var soFar := if word.Some? then word.value else "";
    if s == "" then Some(if word.Some? then [word.value] else [])
    else if s[0] == '\'' then Quoted(s[1..], soFar)
    else if s[0] == '\\' then
      if |s| == 1 || s[1] == NUL then None
      else if s[1] == '\n' then Unquoted(s[2..], word)
      else Unquoted(s[2..], Some(soFar + [s[1]]))
    else if Blank(s[0]) then
      var rest := Unquoted(s[1..], None);
      if word.None? || rest.None? then rest else Some([word.value] + rest.value)
    else if Special(s[0]) || s[0] == NUL then None
    else Unquoted(s[1..], Some(soFar + [s[0]]))
  }

  /** Inside single quotes every character is literal up to the closing quote. */
  function Quoted(s: string, word: string): Option<seq<string>>
    decreases |s|
  {
    if s == "" || s[0] == NUL then None
    else if s[0] == '\'' then Unquoted(s[1..], Some(word))
    else Quoted(s[1..], word + [s[0]])
  }

  function Split(line: string): Option<seq<string>> {
    Unquoted(line, None)
  }

  // ---- The writer's side ----

  function ReplaceAll(s: string, target: char, text: string): string {
    if s == "" then "" else (if s[0] == target then text else [s[0]]) + ReplaceAll(s[1..], target, text)
  }

  function ShellQuote(s: string): string {
    "'" + ReplaceAll(s, '\'', "'\\''") + "'"
  }

  function QuotedArgs(args: seq<string>): string {
    if args == [] then "" else QuotedArgs(args[..|args| - 1]) + " " + ShellQuote(args[|args| - 1])
  }

  function CommandLine(command: string, args: seq<string>): string {
    ShellQuote(command) + QuotedArgs(args)
  }

  predicate HasNul(words: seq<string>) {
    exists w :: w in words && NUL in w
  }

  // ---- Round trip ----

  /** Reading an escaped body inside quotes yields exactly the original text. */
  lemma {:induction false} ReadEscaped(s: string, word: string, rest: string)
    ensures Quoted(ReplaceAll(s, '\'', "'\\''") + "'" + rest, word) ==
            if NUL in s then None else Unquoted(rest, Some(word + s))
    decreases |s|
  {
    if s == "" {
      assert "'" + rest == ['\''] + rest;
      assert word + s == word;
    } else {
      var c, t := s[0], s[1..];
      var tail := ReplaceAll(t, '\'', "'\\''") + "'" + rest;
      assert s == [c] + t;
      assert word + [c] + t == word + s;
      ReadEscaped(t, word + [c], rest);
      if c == '\'' {
        assert ReplaceAll(s, '\'', "'\\''") + "'" + rest == ['\'', '\\', '\'', '\''] + tail;
        assert Quoted(['\'', '\\', '\'', '\''] + tail, word) == Unquoted(['\\', '\'', '\''] + tail, Some(word)) by {
          assert (['\'', '\\', '\'', '\''] + tail)[1..] == ['\\', '\'', '\''] + tail;
        }
        assert Unquoted(['\\', '\'', '\''] + tail, Some(word)) == Unquoted(['\''] + tail, Some(word + [c])) by {
          assert (['\\', '\'', '\''] + tail)[2..] == ['\''] + tail;
        }
        assert (['\''] + tail)[1..] == tail;
      } else {
        assert ReplaceAll(s, '\'', "'\\''") + "'" + rest == [c] + tail;
        assert ([c] + tail)[1..] == tail;
      }
    }
  }

  /** A quoted word at the start of the input is read back whole. */
  lemma ReadQuoted(s: string, rest: string)
    ensures Unquoted(ShellQuote(s) + rest, None) == if NUL in s then None else Unquoted(rest, Some(s))
  {
    var body := ReplaceAll(s, '\'', "'\\''") + "'" + rest;
    assert ShellQuote(s) + rest == ['\''] + body;
    assert (['\''] + body)[1..] == body;
    ReadEscaped(s, "", rest);
    assert "" + s == s;
  }

  lemma {:induction false} QuotedArgsFirst(arg: string, args: seq<string>)
    ensures QuotedArgs([arg] + args) == " " + ShellQuote(arg) + QuotedArgs(args)
    decreases |args|
  {
    hide ShellQuote;
    var all := [arg] + args;
    if args == [] {
      assert all[..0] == [];
      assert QuotedArgs([]) == "";
    } else {
      var n := |args| - 1;
      assert all[..n + 1] == [arg] + args[..n];
      QuotedArgsFirst(arg, args[..n]);
      var head, init, last := " " + ShellQuote(arg), QuotedArgs(args[..n]), " " + ShellQuote(args[n]);
      assert QuotedArgs(args) == init + last;
      assert QuotedArgs(all) == (head + init) + last;
    }
  }

  lemma {:induction false} ReadArgs(word: string, args: seq<string>)
    ensures Unquoted(QuotedArgs(args), Some(word)) == if HasNul(args) then None else Some([word] + args)
    decreases |args|
  {
    hide ShellQuote;
    if args == [] {
      assert [word] + args == [word];
    } else {
      var a, t := args[0], args[1..];
      assert args == [a] + t;
      QuotedArgsFirst(a, t);
      assert QuotedArgs(args) == [' '] + (ShellQuote(a) + QuotedArgs(t));
      assert ([' '] + (ShellQuote(a) + QuotedArgs(t)))[1..] == ShellQuote(a) + QuotedArgs(t);
      ReadQuoted(a, QuotedArgs(t));
      ReadArgs(a, t);
      assert HasNul(args) <==> NUL in a || HasNul(t);
    }
  }

  /**
   Splitting the assembled line gives back the command and its arguments, empty
   strings and embedded quotes included; it fails exactly when some word holds a NUL.
   */
  lemma CommandLineRoundTrip(command: string, args: seq<string>)
    ensures Split(CommandLine(command, args)) ==
            if HasNul([command] + args) then None else Some([command] + args)
  {
    ReadQuoted(command, QuotedArgs(args));
    ReadArgs(command, args);
    assert HasNul([command] + args) <==> NUL in command || HasNul(args);
  }

  /** The line that Execute hands to the remote shell, built as it builds it. */
  method BuildCommand(command: string, args: seq<string>) returns (line: string)
    ensures Split(line) == if HasNul([command] + args) then None else Some([command] + args)
  {
    line := ShellQuote(command);
    for i := 0 to |args|
      invariant line == CommandLine(command, args[..i])
    {
      line := line + " " + ShellQuote(args[i]);
      assert args[..i + 1][..i] == args[..i];
    }
    assert args[..|args|] == args;
    CommandLineRoundTrip(command, args);
  }
}
