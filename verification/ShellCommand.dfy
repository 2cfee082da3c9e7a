/** How a terminal command is shown: rendered as one line that a POSIX shell splits back into its words. */
module ShellCommand {
  import opened Prelude

  const LIMIT: nat := 8192

  predicate IsSafe(c: char) {
    'a' <= c <= 'z' || 'A' <= c <= 'Z' || '0' <= c <= '9' || c == '-' || c == '.' || c == '_' || c == '/' || c == ':'
        || c == '='
    || c == '@'
  }

  predicate AllSafe(s: string) { forall i :: 0 <= i < |s| ==> IsSafe(s[i]) }

  /** Inside single quotes a quote is written by leaving them, escaping it, and entering again. */
  function Escape(s: string): string {
    if s == "" then "" else (if s[0] == '\'' then "'\\''" else [s[0]]) + Escape(s[1..])
  }

  function Quote(part: string): string { if AllSafe(part) then part else "'" + Escape(part) + "'" }

  function Render(parts: seq<string>): string {
    if parts == [] then ""
    else if |parts| == 1 then Quote(parts[0])
    else Quote(parts[0]) + " " + Render(parts[1..])
  }

  /** Arguments come as arbitrary values; one that is not text has no rendering, nor has too long a line. */
  function TerminalCommand(command: string, args: seq<Option<string>>): Option<string> {
    if exists i :: 0 <= i < |args| && args[i].None? then None
    else
      var line := Render(Words(command, args));
      if Utf8Length(line) <= LIMIT then Some(line) else None
  }

  // ---------------------------------------------------------------- the shell's own splitting

  predicate IsBlank(c: char) { c == ' ' || c == '\t' || c == '\n' }

  /** Characters with a meaning of their own when unquoted (section 2.2 of the POSIX Shell Command Language). */
  predicate IsSpecial(c: char) {
    || c == '|' || c == '&' || c == ';' || c == '<' || c == '>' || c == '(' || c == ')' || c == '$' || c == '`'
    || c == '"' || c == '*' || c == '?' || c == '[' || c == '#' || c == '~' || c == '%'
  }

  /**
   Words of an unquoted line, `word` being the one under way: a backslash keeps the next character (section
   2.2.1), single quotes keep everything up to the next one (section 2.2.2). No result for anything else special.
   */
  function Split(s: string, word: Option<string>): Option<seq<string>>
    decreases |s|
  {
    var sofar := if word.Some? then word.value else "";
    if s == "" then Some(if word.Some? then [word.value] else [])
    else if IsBlank(s[0]) then
      var rest := Split(s[1..], None);
      if rest.None? then None else Some((if word.Some? then [word.value] else []) + rest.value)
    else if s[0] == '\'' then Quoted(s[1..], sofar)
    else if s[0] == '\\' then
      if |s| == 1 then None
      else if s[1] == '\n' then Split(s[2..], word)
      else Split(s[2..], Some(sofar + [s[1]]))
    else if IsSpecial(s[0]) then None
    else Split(s[1..], Some(sofar + [s[0]]))
  }

  function Quoted(s: string, word: string): Option<seq<string>>
    decreases |s|
  {
    if s == "" then None
    else if s[0] == '\'' then Split(s[1..], Some(word))
    else Quoted(s[1..], word + [s[0]])
  }

  // ---------------------------------------------------------------- round trip

  lemma SafeSplitsOne(c: char, rest: string, word: Option<string>)
    requires IsSafe(c)
    ensures Split([c] + rest, word) == Split(rest, Some((if word.Some? then word.value else "") + [c]))
  {
    assert ([c] + rest)[1..] == rest;
  }

  lemma {:induction false} SafeSplits(part: string, rest: string, word: string)
    requires AllSafe(part)
    ensures Split(part + rest, Some(word)) == Split(rest, Some(word + part))
    decreases |part|
  {
    if part == "" {
      assert part + rest == rest && word + part == word;
    } else {
      SafeSplitsOne(part[0], part[1..] + rest, Some(word));
      SafeSplits(part[1..], rest, word + [part[0]]);
      assert part + rest == [part[0]] + (part[1..] + rest);
      assert (word + [part[0]]) + part[1..] == word + part;
    }
  }

  lemma QuoteSplits(rest: string, word: string)
    ensures Quoted("'\\''" + rest, word) == Quoted(rest, word + "'")
  {
    var third := "'" + rest;
    var second := "\\'" + third;
    var first := "'" + second;
    assert first == "'\\''" + rest && first[1..] == second;
    assert Quoted(first, word) == Split(second, Some(word));
    assert second[2..] == third && second[1] == '\'';
    assert Split(second, Some(word)) == Split(third, Some(word + ['\'']));
    assert third[1..] == rest;
  }

  lemma {:induction false} EscapeSplits(part: string, rest: string, word: string)
    ensures Quoted(Escape(part) + "'" + rest, word) == Split(rest, Some(word + part))
    decreases |part|
  {
    var tail := Escape(part[if part == "" then 0 else 1..]) + "'" + rest;
    if part == "" {
      assert tail == "'" + rest && word + part == word && tail[1..] == rest;
    } else {
      EscapeSplits(part[1..], rest, word + [part[0]]);
      assert (word + [part[0]]) + part[1..] == word + part;
      if part[0] == '\'' {
        assert Escape(part) + "'" + rest == "'\\''" + tail;
        QuoteSplits(tail, word);
      } else {
        assert Escape(part) + "'" + rest == [part[0]] + tail;
      }
    }
  }

  lemma SafeWordSplits(part: string, rest: string)
    requires AllSafe(part) && part != ""
    ensures Split(part + rest, None) == Split(rest, Some(part))
  {
    var first, more := [part[0]], part[1..];
    assert first + more == part && part + rest == first + (more + rest);
    SafeSplitsOne(part[0], more + rest, None);
    assert "" + first == first;
    SafeSplits(more, rest, first);
  }

  lemma QuotedWordSplits(part: string, rest: string)
    ensures Split("'" + Escape(part) + "'" + rest, None) == Split(rest, Some(part))
  {
    var line := "'" + Escape(part) + "'" + rest;
    assert line[1..] == Escape(part) + "'" + rest;
    EscapeSplits(part, rest, "");
    assert "" + part == part;
  }

  /** One rendered word in front of `rest`: it is read back whole, an empty one not at all. */
  lemma WordSplits(part: string, rest: string)
    ensures Split(Quote(part) + rest, None) == Split(rest, if part == "" then None else Some(part))
  {
    if part == "" {
      assert Quote(part) + rest == rest;
    } else if AllSafe(part) {
      SafeWordSplits(part, rest);
    } else {
      QuotedWordSplits(part, rest);
    }
  }

  function NonEmpty(parts: seq<string>): seq<string> {
    if parts == [] then [] else (if parts[0] == "" then [] else [parts[0]]) + NonEmpty(parts[1..])
  }

  lemma SplitWord(part: string)
    ensures Split(Quote(part), None) == Some(NonEmpty([part]))
  {
    WordSplits(part, "");
    assert Quote(part) + "" == Quote(part);
    assert Split("", Some(part)) == Some([part]) && Split("", None) == Some([]);
    assert Split(Quote(part), None) == Some(if part == "" then [] else [part]);
    assert [part][1..] == [] && NonEmpty([]) == [];
    assert NonEmpty([part]) == if part == "" then [] else [part];
  }

  /** A shell reads a rendered line back as exactly its non-empty words, in order. */
  lemma {:induction false} RenderSplits(parts: seq<string>)
    ensures Split(Render(parts), None) == Some(NonEmpty(parts))
  {
    if |parts| == 1 {
      SplitWord(parts[0]);
      assert parts == [parts[0]];
    } else if parts != [] {
      RenderSplits(parts[1..]);
      NextWordSplits(parts[0], Render(parts[1..]));
    }
  }

  /** A word, a blank, and the rest of the line. */
  lemma NextWordSplits(part: string, line: string)
    requires Split(line, None).Some?
    ensures Split(Quote(part) + " " + line, None) == Some((if part == "" then [] else [part]) + Split(line, None).value)
  {
    var rest := " " + line;
    WordSplits(part, rest);
    assert Quote(part) + " " + line == Quote(part) + rest;
    assert rest[0] == ' ' && rest[1..] == line;
  }

  lemma {:induction false} NonEmptyLength(parts: seq<string>)
    ensures |NonEmpty(parts)| <= |parts|
    ensures |NonEmpty(parts)| == |parts| <==> "" !in parts
    ensures "" !in parts ==> NonEmpty(parts) == parts
  {
    if parts != [] {
      NonEmptyLength(parts[1..]);
    }
  }

  /** So the words come back as they were exactly when none of them is empty. */
  lemma RoundTripExactly(parts: seq<string>)
    ensures Split(Render(parts), None) == Some(parts) <==> "" !in parts
  {
    RenderSplits(parts);
    NonEmptyLength(parts);
  }

  function Words(command: string, args: seq<Option<string>>): seq<string>
    requires forall i :: 0 <= i < |args| ==> args[i].Some?
  {
    [command] + seq(|args|, i requires 0 <= i < |args| => args[i].value)
  }

  lemma WordsInjective(command: string, args: seq<Option<string>>, command': string, args': seq<Option<string>>)
    requires (forall i :: 0 <= i < |args| ==> args[i].Some?) && (forall i :: 0 <= i < |args'| ==> args'[i].Some?)
    requires Words(command, args) == Words(command', args')
    ensures command == command' && args == args'
  {
    var w, w' := Words(command, args), Words(command', args');
    assert w[0] == w'[0] && |w| == |w'|;
    forall i | 0 <= i < |args| ensures args[i] == args'[i] {
      assert w[i + 1] == w'[i + 1];
    }
  }

  /** Rendering tells command lines apart as far as they have no empty word. */
  lemma RenderInjective(command: string, args: seq<Option<string>>, command': string, args': seq<Option<string>>)
    requires TerminalCommand(command, args).Some? && TerminalCommand(command, args) == TerminalCommand(command', args')
    requires command != "" && command' != "" && Some("") !in args && Some("") !in args'
    ensures command == command' && args == args'
  {
    RoundTripExactly(Words(command, args));
    RoundTripExactly(Words(command', args'));
    WordsInjective(command, args, command', args');
  }

  // ---------------------------------------------------------------- how it looks

  /** A word is shown as it is exactly when each of its characters is plain, and in single quotes otherwise. */
  lemma QuotesExactly(part: string)
    ensures Quote(part) == part <==> forall i :: 0 <= i < |part| ==> IsSafe(part[i])
    ensures Quote(part) != part ==>
        |Quote(part)| >= 2 && Quote(part)[0] == '\'' && Quote(part)[|Quote(part)| - 1] == '\''
  {
    EscapeLength(part);
  }

  lemma {:induction false} EscapeLength(s: string)
    ensures |Escape(s)| >= |s|
  {
    if s != "" {
      EscapeLength(s[1..]);
    }
  }

  lemma RenderFirst(part: string, more: seq<string>)
    requires more != []
    ensures Render([part] + more) == (Quote(part) + " ") + Render(more)
  {
    assert ([part] + more)[1..] == more && ([part] + more)[0] == part;
  }

  lemma Regroup(head: string, more: string, rest: string)
    ensures head + ((more + " ") + rest) == ((head + more) + " ") + rest
  {
    Associate(head, more + " ", rest);
    Associate(head, more, " ");
  }

  /** Words are set apart by one blank each. */
  lemma {:induction false} RenderJoins(a: seq<string>, b: seq<string>)
    requires a != [] && b != []
    ensures Render(a + b) == (Render(a) + " ") + Render(b)
  {
    var part, more := a[0], a[1..];
    assert a == [part] + more && a + b == [part] + (more + b);
    RenderFirst(part, more + b);
    if more == [] {
      assert more + b == b && Render(a) == Quote(part);
    } else {
      RenderFirst(part, more);
      RenderJoins(more, b);
      Regroup(Quote(part) + " ", Render(more), Render(b));
    }
  }

  /** A command is shown exactly when all its arguments are text and the line is within the limit. */
  lemma ShownExactly(command: string, args: seq<Option<string>>)
    ensures TerminalCommand(command, args).Some? <==>
              && (forall i :: 0 <= i < |args| ==> args[i].Some?)
              && Utf8Length(Render(Words(command, args))) <= 8192
    ensures TerminalCommand(command, args).Some? ==>
        TerminalCommand(command, args).value == Render(Words(command, args))
  {
  }
}
