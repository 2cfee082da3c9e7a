/** The patch as it runs, on one string with byte ranges, against its meaning on lines. */
module MarkerText {
  import opened Prelude
  import opened WorkflowMarker
  import opened MarkerLaws
  import opened MarkerKept

  // ---------------------------------------------------------------- a text and its lines

  function Lines(text: string): (r: seq<string>)
    ensures r != []
  {
    if text == "" then [""]
    else
      var rest := Lines(text[1..]);
      if text[0] == '\n' then [""] + rest else [[text[0]] + rest[0]] + rest[1..]
  }

  function Unlines(lines: seq<string>): string
    requires lines != []
  {
    if |lines| == 1 then lines[0] else lines[0] + "\n" + Unlines(lines[1..])
  }

  /** Lines that are each followed by a line feed. */
  function Block(lines: seq<string>): string {
    if lines == [] then "" else lines[0] + "\n" + Block(lines[1..])
  }

  lemma {:induction false} UnlinesLines(text: string)
    ensures Unlines(Lines(text)) == text && IsFile(Lines(text))
    decreases |text|
  {
    if text != "" {
      UnlinesLines(text[1..]);
      var rest := Lines(text[1..]);
      if text[0] == '\n' {
        assert ([""] + rest)[1..] == rest;
        assert "" + "\n" + text[1..] == text;
      } else {
        assert ([[text[0]] + rest[0]] + rest[1..])[1..] == rest[1..];
        assert text == [text[0]] + text[1..];
      }
    }
  }

  lemma {:induction false} LineLeads(line: string, rest: string)
    requires '\n' !in line
    ensures Lines(line + "\n" + rest) == [line] + Lines(rest) && Lines(line) == [line]
    decreases |line|
  {
    if line == "" {
      assert (line + "\n" + rest)[1..] == rest;
    } else {
      LineLeads(line[1..], rest);
      assert (line + "\n" + rest)[1..] == line[1..] + "\n" + rest;
      assert [line[0]] + line[1..] == line;
    }
  }

  lemma {:induction false} LinesUnlines(lines: seq<string>)
    requires IsFile(lines)
    ensures Lines(Unlines(lines)) == lines
    decreases |lines|
  {
    if |lines| == 1 {
      LineLeads(lines[0], "");
    } else {
      LinesUnlines(lines[1..]);
      LineLeads(lines[0], Unlines(lines[1..]));
    }
  }

  lemma {:induction false} UnlinesSplit(a: seq<string>, b: seq<string>)
    requires b != []
    ensures Unlines(a + b) == Block(a) + Unlines(b)
    decreases |a|
  {
    if a == [] {
      assert a + b == b;
    } else {
      UnlinesSplit(a[1..], b);
      assert (a + b)[1..] == a[1..] + b;
    }
  }

  lemma {:induction false} BlockSplit(a: seq<string>, b: seq<string>)
    ensures Block(a + b) == Block(a) + Block(b)
    decreases |a|
  {
    if a == [] {
      assert a + b == b;
    } else {
      BlockSplit(a[1..], b);
      assert (a + b)[1..] == a[1..] + b;
    }
  }

  /** What follows a line in its file. */
  function After(rest: seq<string>): string { if rest == [] then "" else "\n" + Unlines(rest) }

  lemma UnlinesFirst(line: string, rest: seq<string>)
    ensures Unlines([line] + rest) == line + After(rest)
  {
    assert ([line] + rest)[1..] == rest;
    if rest == [] {
      assert line + "" == line;
    } else {
      Associate(line, "\n", Unlines(rest));
    }
  }

  lemma UnlinesAround(a: seq<string>, line: string, b: seq<string>)
    ensures Unlines(a + [line] + b) == Block(a) + line + After(b)
  {
    UnlinesSplit(a, [line] + b);
    UnlinesFirst(line, b);
    Associate(a, [line], b);
    Associate(Block(a), line, After(b));
  }

  // ---------------------------------------------------------------- finding a word

  lemma StartsInLine(line: string, rest: string, word: string)
    requires '\n' !in word
    ensures word <= line + "\n" + rest <==> word <= line
  {
    var text := line + "\n" + rest;
    if |word| > |line| {
      assert text[|line|] == '\n' && word[|line|] != '\n';
    } else {
      assert text[..|word|] == line[..|word|];
    }
  }

  function Shifted(r: Option<nat>, n: nat): Option<nat> { if r.None? then None else Some(r.value + n) }

  lemma FindStep(c: char, t: string, word: string)
    ensures Find([c] + t, word) == if word <= [c] + t then Some(0) else Shifted(Find(t, word), 1)
  {
    assert ([c] + t)[1..] == t;
  }

  /** `text` is found where `line` is, else where `later` says, counted from its `n`-th character. */
  ghost predicate FoundIn(text: string, line: string, word: string, later: Option<nat>, n: nat) {
    Find(text, word) == if Find(line, word).Some? then Find(line, word) else Shifted(later, n)
  }

  lemma FoundStep(c: char, text: string, line: string, word: string, later: Option<nat>, n: nat)
    requires FoundIn(text, line, word, later, n) && (word <= [c] + text <==> word <= [c] + line)
    ensures FoundIn([c] + text, [c] + line, word, later, n + 1)
  {
    FindStep(c, text, word);
    FindStep(c, line, word);
  }

  lemma FirstApart(line: string, rest: string)
    requires line != ""
    ensures line == [line[0]] + line[1..] && line + "\n" + rest == [line[0]] + (line[1..] + "\n" + rest)
  {
    Associate([line[0]], line[1..], "\n");
    Associate([line[0]], line[1..] + "\n", rest);
  }

  lemma {:induction false} FindInLine(line: string, rest: string, word: string)
    requires word != "" && '\n' !in word
    ensures FoundIn(line + "\n" + rest, line, word, Find(rest, word), |line| + 1)
    decreases |line|
  {
    StartsInLine(line, rest, word);
    if line == "" {
      FindStep('\n', rest, word);
      assert line + "\n" + rest == ['\n'] + rest;
    } else {
      FindInLine(line[1..], rest, word);
      FirstApart(line, rest);
      FoundStep(line[0], line[1..] + "\n" + rest, line[1..], word, Find(rest, word), |line|);
    }
  }

  /** Where a word that was found in a line stands in the text. */
  function Position(lines: seq<string>, at: Option<(nat, nat)>): Option<nat>
    requires at.Some? ==> at.value.0 <= |lines|
  {
    if at.None? then None else Some(|Block(lines[..at.value.0])| + at.value.1)
  }

  lemma PositionShifts(line: string, rest: seq<string>, j: nat, c: nat)
    requires j <= |rest|
    ensures Position([line] + rest, Some((j + 1, c))) == Some(|line| + 1 + Position(rest, Some((j, c))).value)
  {
    assert ([line] + rest)[..j + 1] == [line] + rest[..j];
    assert ([line] + rest[..j])[1..] == rest[..j];
  }

  function NextLine(at: Option<(nat, nat)>): Option<(nat, nat)> {
    if at.None? then None else Some((at.value.0 + 1, at.value.1))
  }

  lemma FindLineFirst(line: string, rest: seq<string>, word: string)
    ensures FindLine([line] + rest, word) ==
            if Find(line, word).Some? then Some((0, Find(line, word).value)) else NextLine(FindLine(rest, word))
  {
    assert ([line] + rest)[1..] == rest;
  }

  lemma PositionNext(line: string, rest: seq<string>, at: Option<(nat, nat)>)
    requires at.Some? ==> at.value.0 <= |rest|
    ensures Position([line] + rest, NextLine(at)) == Shifted(Position(rest, at), |line| + 1)
  {
    if at.Some? {
      PositionShifts(line, rest, at.value.0, at.value.1);
    }
  }

  lemma PositionFirst(lines: seq<string>, c: nat)
    ensures Position(lines, Some((0, c))) == Some(c)
  {
    assert lines[..0] == [];
  }

  lemma FindInFirst(line: string, rest: seq<string>, word: string, text: string)
    requires Find(text, word) == Position(rest, FindLine(rest, word))
    requires FoundIn(line + "\n" + text, line, word, Find(text, word), |line| + 1)
    ensures Find(line + "\n" + text, word) == Position([line] + rest, FindLine([line] + rest, word))
  {
    FindLineFirst(line, rest, word);
    PositionNext(line, rest, FindLine(rest, word));
    if Find(line, word).Some? {
      PositionFirst([line] + rest, Find(line, word).value);
    }
  }

  /** A word without a line feed is found in the text where it is found in the lines. */
  lemma {:induction false} FindInLines(lines: seq<string>, word: string)
    requires lines != [] && word != "" && '\n' !in word
    ensures Find(Unlines(lines), word) == Position(lines, FindLine(lines, word))
    decreases |lines|
  {
    if |lines| == 1 {
      assert FindLine(lines[1..], word) == None;
    } else {
      FindInLines(lines[1..], word);
      FindInLine(lines[0], Unlines(lines[1..]), word);
      FindInFirst(lines[0], lines[1..], word, Unlines(lines[1..]));
      assert lines == [lines[0]] + lines[1..];
    }
  }

  // ---------------------------------------------------------------- edits of the text

  lemma ReplaceRange(lines: seq<string>, a: seq<string>, line: string, b: seq<string>, other: string)
    requires lines == a + [line] + b
    ensures var text, start := Unlines(lines), |Block(a)|;
      start + |line| <= |text| && text[..start] + other + text[start + |line|..] == Unlines(a + [other] + b)
  {
    UnlinesAround(a, line, b);
    UnlinesAround(a, other, b);
    var text := Unlines(lines);
    assert text[..|Block(a)|] == Block(a) && text[|Block(a)| + |line|..] == After(b);
  }

  lemma {:induction false} ReplaceLine(lines: seq<string>, i: nat, other: string)
    requires i < |lines|
    ensures var text, start := Unlines(lines), |Block(lines[..i])|;
      start + |lines[i]| <= |text| && text[..start] + other + text[start + |lines[i]|..] == Unlines(lines[i := other])
  {
    SplitAround(lines, i, lines[i]);
    SplitAround(lines, i, other);
    ReplaceRange(lines, lines[..i], lines[i], lines[i + 1..], other);
  }

  lemma SplitAround(lines: seq<string>, i: nat, other: string)
    requires i < |lines|
    ensures lines[i := other] == lines[..i] + [other] + lines[i + 1..] && lines == lines[i := lines[i]]
  {
  }

  lemma BlockFirst(line: string, rest: seq<string>)
    ensures Block([line] + rest) == line + "\n" + Block(rest)
  {
    assert ([line] + rest)[1..] == rest;
  }

  lemma RegroupEdit(a: string, prefix: string, first: string, more: string, suffix: string,
                    b: string)
    ensures (a + prefix) + (first + "\n" + more) + (suffix + b) == (a + ((prefix + first) + "\n" + more)) + suffix + b
  {
    assert prefix + (first + "\n" + more) == (prefix + first) + "\n" + more;
    Associate(a, prefix, first + "\n" + more);
    Associate(a + (prefix + (first + "\n" + more)), suffix, b);
  }

  /** Where the pieces of a file that is cut inside one of its lines stand in its text. */
  lemma CutInLine(lines: seq<string>, a: seq<string>, prefix: string, suffix: string, b: seq<string>)
    requires lines == a + [prefix + suffix] + b
    ensures var text, at := Unlines(lines), |Block(a)| + |prefix|;
      at <= |text| && text[..at] == Block(a) + prefix && text[at..] == suffix + After(b)
  {
    UnlinesAround(a, prefix + suffix, b);
    Cut(Block(a), prefix, suffix, After(b));
  }

  lemma Cut(a: string, prefix: string, suffix: string, b: string)
    ensures var text := a + (prefix + suffix) + b;
        text[..|a| + |prefix|] == a + prefix && text[|a| + |prefix|..] == suffix + b
  {
    Associate(a, prefix, suffix);
    Associate(a + prefix, suffix, b);
  }

  /** Putting a block of lines in the middle of a line splits it around the block's first and last line feed. */
  lemma InsertInLine(lines: seq<string>, a: seq<string>, prefix: string, suffix: string,
                     b: seq<string>, first: string, more: seq<string>)
    requires lines == a + [prefix + suffix] + b
    ensures var text, at := Unlines(lines), |Block(a)| + |prefix|;
      at <= |text|
      && text[..at] + Block([first] + more) + text[at..] == Unlines(a + [prefix + first] + more + [suffix] + b)
  {
    CutInLine(lines, a, prefix, suffix, b);
    BlockFirst(first, more);
    InsertedBlock(a, prefix + first, more);
    UnlinesAround(a + [prefix + first] + more, suffix, b);
    RegroupEdit(Block(a), prefix, first, Block(more), suffix, After(b));
  }

  lemma InsertedBlock(a: seq<string>, line: string, more: seq<string>)
    ensures Block(a + [line] + more) == Block(a) + (line + "\n" + Block(more))
  {
    BlockSplit(a, [line] + more);
    BlockFirst(line, more);
    assert a + ([line] + more) == a + [line] + more;
  }

  lemma UnlinesLast(init: seq<string>, last: string)
    ensures Unlines(init + [last]) == Block(init) + last
  {
    UnlinesSplit(init, [last]);
  }

  lemma BlockLast(init: seq<string>, last: string)
    ensures Block(init + [last]) == Block(init) + last + "\n"
  {
    BlockSplit(init, [last]);
    BlockFirst(last, []);
    assert [last] + [] == [last] && last + "\n" + "" == last + "\n";
    Associate(Block(init), last, "\n");
  }

  lemma BlockIsText(lines: seq<string>)
    requires lines != []
    ensures Block(lines) == Unlines(lines) + "\n"
    ensures Unlines(lines) == Block(lines[..|lines| - 1]) + Last(lines)
  {
    assert lines == lines[..|lines| - 1] + [Last(lines)];
    UnlinesLast(lines[..|lines| - 1], Last(lines));
    BlockLast(lines[..|lines| - 1], Last(lines));
  }

  /** A text ends with a line feed exactly when its last line is empty and not its only one. */
  lemma EndsWithFeed(lines: seq<string>)
    requires IsFile(lines)
    ensures var text := Unlines(lines);
      && (text == "" <==> lines == [""])
      && (text != "" && text[|text| - 1] == '\n' <==> |lines| >= 2 && Last(lines) == "")
  {
    BlockIsText(lines);
    var n := |lines| - 1;
    if n > 0 {
      BlockIsText(lines[..n]);
    }
    assert Last(lines) != "" ==> Last(lines)[|Last(lines)| - 1] != '\n';
  }

  lemma EndsWithTwoFeeds(lines: seq<string>)
    requires IsFile(lines) && |lines| >= 2 && Last(lines) == ""
    ensures var text := Unlines(lines);
      (|text| >= 2 && text[|text| - 2] == '\n' <==> |lines| >= 3 && lines[|lines| - 2] == "")
  {
    var init := lines[..|lines| - 1];
    BlockIsText(lines);
    BlockIsText(init);
    EndsWithFeed(init);
    var text := Unlines(init);
    assert Unlines(lines) == text + "\n" + "";
    assert |text| > 0 ==> (text + "\n")[|text| - 1] == text[|text| - 1];
  }

  lemma SectionAtEnd(before: seq<string>, section: seq<string>)
    ensures Unlines(before + section + [""]) == Block(before) + Block(section)
  {
    UnlinesSplit(before + section, [""]);
    BlockSplit(before, section);
  }

  method EndLastLine(workflow: string) returns (text: string)
    ensures text == Unlines(Ended(Lines(workflow))) || (workflow == "" == text)
    ensures text == "" <==> workflow == ""
    ensures text == workflow + (if workflow == "" || EndsLine(workflow) then "" else "\n")
  {
    assert workflow + "" == workflow;
    ghost var lines := Lines(workflow);
    UnlinesLines(workflow);
    EndsWithFeed(lines);
    UnlinesSplit(lines, [""]);
    BlockIsText(lines);
    text := workflow;
    if text != "" && text[|text| - 1] != '\n' {
      text := text + "\n";
    }
  }

  /** The last line of an ended file is empty, so the file's text is its ended lines. */
  lemma SetOffText(lines: seq<string>)
    requires IsFile(lines) && lines != [""]
    ensures var text := Unlines(Ended(lines));
      Block(SetOff(lines)) == if |text| >= 2 && text[|text| - 2..] == "\n\n" then text else text + "\n"
  {
    var ended := Ended(lines);
    BlockIsText(ended);
    EndsWithFeed(ended);
    EndsWithTwoFeeds(ended);
    assert Block(ended[..|ended| - 1]) + "" == Block(ended[..|ended| - 1]);
  }

  predicate EndsLine(text: string) { text != "" && text[|text| - 1] == '\n' }

  predicate EndsBlank(text: string) { EndsLine(text) && EndsLine(text[..|text| - 1]) }

  /** The line feeds that set a section off from the text before it: as many as are missing to one empty line. */
  function Gap(text: string): string {
    if text == "" || EndsBlank(text) then "" else if EndsLine(text) then "\n" else "\n" + "\n"
  }

  /** Ending the last line and then setting off by an empty one adds the gap. */
  lemma GapAdded(text: string, ended: string)
    requires ended == text + (if text == "" || EndsLine(text) then "" else "\n")
    ensures text + Gap(text) == if ended != "" && !EndsBlank(ended) then ended + "\n" else ended
  {
    assert text + "" == text;
    if text != "" && !EndsLine(text) {
      assert ended[..|ended| - 1] == text;
      Associate(text, "\n", "\n");
    }
  }

  lemma BlankEnd(text: string)
    ensures EndsBlank(text) <==> |text| >= 2 && text[|text| - 2..] == "\n\n"
  {
    if |text| >= 2 {
      assert text[|text| - 2..] == [text[|text| - 2], text[|text| - 1]];
      assert text[..|text| - 1][|text| - 2] == text[|text| - 2];
      assert "\n\n" == ['\n', '\n'];
    }
  }

  /** Append a section, set off by one empty line. */
  method AppendSection(workflow: string, section: seq<string>) returns (text: string)
    ensures text == Unlines(Appended(Lines(workflow), section))
    ensures text == (workflow + Gap(workflow)) + Block(section)
  {
    ghost var lines := Lines(workflow);
    UnlinesLines(workflow);
    EndsWithFeed(lines);
    SectionAtEnd(SetOff(lines), section);
    text := EndLastLine(workflow);
    GapAdded(workflow, text);
    if text != "" {
      SetOffText(lines);
      BlankEnd(text);
      if !(|text| >= 2 && text[|text| - 2..] == "\n\n") {
        text := text + "\n";
      }
    }
    text := text + Block(section);
  }

  lemma {:induction false} FeedAt(line: string, more: string)
    requires '\n' !in line
    ensures Find(line + "\n" + more, "\n") == Some(|line|)
    decreases |line|
  {
    if line == "" {
      FindStep('\n', more, "\n");
      assert line + "\n" + more == ['\n'] + more;
    } else {
      FeedAt(line[1..], more);
      FindStep(line[0], line[1..] + "\n" + more, "\n");
      assert line + "\n" + more == [line[0]] + (line[1..] + "\n" + more);
    }
  }

  lemma {:induction false} NoFeed(line: string)
    requires '\n' !in line
    ensures Find(line, "\n") == None
    decreases |line|
  {
    if line != "" {
      assert "\n"[0] == '\n' && line[0] != '\n';
      NoFeed(line[1..]);
    }
  }

  lemma FeedInLine(line: string, b: seq<string>)
    requires '\n' !in line
    ensures Find(line + After(b), "\n") == if b == [] then None else Some(|line|)
  {
    if b == [] {
      NoFeed(line);
      assert line + "" == line;
    } else {
      FeedAt(line, Unlines(b));
      Associate(line, "\n", Unlines(b));
    }
  }

  lemma StripHeading(h: string, below: string)
    requires below != "" && !IsWhite(below[0])
    ensures var text := h + "\n" + ("" + "\n" + below); h <= text && TrimStart(text[|h|..]) == below
  {
    var text := h + "\n" + ("" + "\n" + below);
    assert text == h + ("\n\n" + below);
    assert text[|h|..] == "\n\n" + below;
    TrimStartBlank("\n\n", below);
  }

  lemma SectionText(s: Setting, value: string)
    ensures Block(Section(s, value)) == Heading(s) + "\n" + ("" + "\n" + Block(Below(s, value)))
    ensures Section(s, value) == [Heading(s)] + ([""] + Below(s, value))
  {
    assert Section(s, value) == [Heading(s)] + ([""] + Below(s, value));
    BlockFirst(Heading(s), [""] + Below(s, value));
    BlockFirst("", Below(s, value));
  }

  lemma BelowStarts(s: Setting, value: string)
    ensures var below := Block(Below(s, value)); below != "" && !IsWhite(below[0])
  {
    BlockFirst(MarkerLine(s, value), Tail(s));
    assert Block(Below(s, value))[0] == Marker(s)[0];
  }

  /** The section without its heading and the blank below it: the marker and what follows. */
  method MarkerOnly(s: Setting, value: string) returns (text: string)
    ensures text == Block(Below(s, value))
  {
    SectionText(s, value);
    BelowStarts(s, value);
    StripHeading(Heading(s), Block(Below(s, value)));
    var section := Block(Section(s, value));
    text := TrimStart(if Heading(s) <= section then section[|Heading(s)|..] else section);
  }

  /** The place of the review heading, in the text and in the lines. */
  lemma HeadingPlace(workflow: string)
    ensures Find(workflow, REVIEW_HEADING) == Position(Lines(workflow), FindLine(Lines(workflow), REVIEW_HEADING))
  {
    UnlinesLines(workflow);
    HeadingHasNoFeed();
    FindInLines(Lines(workflow), REVIEW_HEADING);
  }

  lemma HeadingHasNoFeed()
    ensures '\n' !in REVIEW_HEADING && REVIEW_HEADING != ""
  {
  }

  lemma CutLine(lines: seq<string>, j: nat, c: nat)
    requires j < |lines| && c <= |lines[j]|
    ensures lines == lines[..j] + [lines[j][..c] + lines[j][c..]] + lines[j + 1..]
  {
    assert lines[j][..c] + lines[j][c..] == lines[j];
    assert lines == lines[..j] + [lines[j]] + lines[j + 1..];
  }

  lemma BranchText(lines: seq<string>, a: seq<string>, prefix: string, suffix: string,
                   b: seq<string>, heading: string, below: seq<string>)
    requires lines == a + [prefix + suffix] + b
    ensures var text, at := Unlines(lines), |Block(a)| + |prefix|;
      at <= |text| && text[..at] + Block([heading] + ([""] + below)) + text[at..]
        == Unlines(a + [prefix + heading, ""] + below + [suffix] + b)
  {
    InsertInLine(lines, a, prefix, suffix, b, heading, [""] + below);
    InsertedShape(a, prefix + heading, below, [suffix], b);
  }

  lemma BelowLine(lines: seq<string>, j: nat, block: seq<string>)
    requires j + 1 < |lines|
    ensures var text, at := Unlines(lines), |Block(lines[..j])| + |lines[j]| + 1;
      at <= |text| && text[..at] + Block(block) + text[at..] == Unlines(lines[..j + 1] + block + lines[j + 1..])
  {
    var text, at := Unlines(lines), |Block(lines[..j])| + |lines[j]| + 1;
    assert lines == lines[..j + 1] + lines[j + 1..] && lines[..j + 1] == lines[..j] + [lines[j]];
    UnlinesSplit(lines[..j + 1], lines[j + 1..]);
    BlockSplit(lines[..j], [lines[j]]);
    BlockFirst(lines[j], []);
    assert [lines[j]] + [] == [lines[j]];
    assert |Block(lines[..j + 1])| == at;
    assert text[..at] == Block(lines[..j + 1]) && text[at..] == Unlines(lines[j + 1..]);
    UnlinesSplit(lines[..j + 1] + block, lines[j + 1..]);
    BlockSplit(lines[..j + 1], block);
  }

  /** The first line feed after a place inside a line. */
  lemma FeedAfter(lines: seq<string>, a: seq<string>, prefix: string, suffix: string, b: seq<string>)
    requires lines == a + [prefix + suffix] + b && '\n' !in suffix
    ensures var text, at := Unlines(lines), |Block(a)| + |prefix|;
      at <= |text| && Find(text[at..], "\n") == if b == [] then None else Some(|suffix|)
  {
    CutInLine(lines, a, prefix, suffix, b);
    FeedInLine(suffix, b);
  }

  lemma BelowLastLine(lines: seq<string>, j: nat, below: seq<string>)
    requires j + 1 == |lines|
    ensures Unlines(lines) + "\n" + Block(below) == Unlines(lines[..j + 1] + below + [""])
  {
    assert lines[..j + 1] == lines;
    SectionAtEnd(lines, below);
    BlockIsText(lines);
  }

  /** Put a block below the line of a place in the text; the line gets a line feed if it has none. */
  function PutBelow(text: string, at: nat, block: string): string
    requires at <= |text|
  {
    var feed := Find(text[at..], "\n");
    if feed.None? then text + "\n" + block
    else text[..at + feed.value + 1] + block + text[at + feed.value + 1..]
  }

  lemma {:induction false} PutBelowInside(lines: seq<string>, j: nat, at: nat, rest: nat, below: seq<string>)
    requires j + 1 < |lines| && at <= |Unlines(lines)| && Find(Unlines(lines)[at..], "\n") == Some(rest)
    requires at + rest == |Block(lines[..j])| + |lines[j]|
    ensures PutBelow(Unlines(lines), at, Block(below)) == Unlines(lines[..j + 1] + below + lines[j + 1..])
  {
    BelowLine(lines, j, below);
  }

  lemma {:induction false} PutBelowLast(lines: seq<string>, j: nat, at: nat, below: seq<string>)
    requires j + 1 == |lines| && at <= |Unlines(lines)| && Find(Unlines(lines)[at..], "\n") == None
    ensures PutBelow(Unlines(lines), at, Block(below)) == Unlines(lines[..j + 1] + below + [""])
  {
    BelowLastLine(lines, j, below);
  }

  lemma ProviderText(lines: seq<string>, j: nat, c: nat, below: seq<string>)
    requires IsFile(lines) && j < |lines| && c <= |lines[j]|
    ensures var text, at := Unlines(lines), |Block(lines[..j])| + c;
      at <= |text|
      && PutBelow(text, at, Block(below))
          == Unlines(lines[..j + 1] + below + (if j + 1 < |lines| then lines[j + 1..] else [""]))
  {
    var at := |Block(lines[..j])| + c;
    CutLine(lines, j, c);
    FeedAfter(lines, lines[..j], lines[j][..c], lines[j][c..], lines[j + 1..]);
    if j + 1 < |lines| {
      PutBelowInside(lines, j, at, |lines[j]| - c, below);
    } else {
      PutBelowLast(lines, j, at, below);
    }
  }

  lemma {:induction false} BranchPlaced(lines: seq<string>, j: nat, c: nat, heading: string, below: seq<string>)
    requires j < |lines| && c <= |lines[j]|
    ensures var text, at := Unlines(lines), |Block(lines[..j])| + c;
      at <= |text| && text[..at] + Block([heading] + ([""] + below)) + text[at..]
        == Unlines(lines[..j] + [lines[j][..c] + heading, ""] + below + [lines[j][c..]] + lines[j + 1..])
  {
    CutLine(lines, j, c);
    BranchText(lines, lines[..j], lines[j][..c], lines[j][c..], lines[j + 1..], heading, below);
  }

  function PutAt(text: string, at: nat, block: string): string
    requires at <= |text|
  {
    text[..at] + block + text[at..]
  }

  lemma {:induction false} BranchEdit(s: Setting, lines: seq<string>, value: string, j: nat, c: nat)
    requires s == TargetBranch && j < |lines| && c <= |lines[j]|
    ensures var text, at := Unlines(lines), |Block(lines[..j])| + c;
      at <= |text| && PutAt(text, at, Block(Section(s, value))) == Unlines(InsertedAt(s, lines, Some((j, c)), value))
  {
    var heading, below := Heading(s), Below(s, value);
    SectionText(s, value);
    BranchPlaced(lines, j, c, heading, below);
    assert InsertedAt(s, lines, Some((j, c)), value)
        == lines[..j] + [lines[j][..c] + heading, ""] + below + [lines[j][c..]] + lines[j + 1..];
  }

  lemma ProviderEdit(s: Setting, lines: seq<string>, value: string, j: nat, c: nat)
    requires s == ReviewProvider && IsFile(lines) && j < |lines| && c <= |lines[j]|
    ensures var text, at := Unlines(lines), |Block(lines[..j])| + c;
      at <= |text| && PutBelow(text, at, Block(Below(s, value))) == Unlines(InsertedAt(s, lines, Some((j, c)), value))
  {
    ProviderText(lines, j, c, Below(s, value));
  }

  /** The edit itself, on a text that is known by its lines, at the place of the review heading in both. */
  method InsertManagedSection(workflow: string, s: Setting, value: string, ghost lines: seq<string>,
                              ghost place: Option<(nat, nat)>)
    returns (text: string)
    requires lines == Lines(workflow) && IsFile(lines) && Unlines(lines) == workflow
    requires place.Some? ==> place.value.0 < |lines| && place.value.1 <= |lines[place.value.0]|
    requires Find(workflow, REVIEW_HEADING) == Position(lines, place)
    ensures text == Unlines(InsertedAt(s, lines, place, value))
    ensures var at := Find(workflow, REVIEW_HEADING);
      if at.None? then text == (workflow + Gap(workflow)) + Block(Section(s, value))
      else if s == TargetBranch then text == workflow[..at.value] + Block(Section(s, value)) + workflow[at.value..]
      else
        var feed := Find(workflow[at.value..], "\n");
        text == if feed.None? then workflow + "\n" + Block(Below(s, value))
                else workflow[..at.value + feed.value + 1] + Block(Below(s, value))
                     + workflow[at.value + feed.value + 1..]
  {
    var at := Find(workflow, REVIEW_HEADING);
    if s == TargetBranch && at.Some? {
      BranchEdit(s, lines, value, place.value.0, place.value.1);
      text := PutAt(workflow, at.value, Block(Section(s, value)));
    } else if s == ReviewProvider && at.Some? {
      ProviderEdit(s, lines, value, place.value.0, place.value.1);
      var markerOnly := MarkerOnly(s, value);
      text := PutBelow(workflow, at.value, markerOnly);
    } else {
      text := AppendSection(workflow, Section(s, value));
    }
  }

  // ---------------------------------------------------------------- the scan and the patch

  /** A marker found by the scan: its line's byte range and the value it held. */
  datatype Match = Match(start: nat, end: nat, value: string)

  datatype MarkerPatch = MarkerPatch(workflow: string, previous: Option<string>)

  lemma {:induction false} FirstFeed(text: string)
    ensures match Find(text, "\n")
      case None => '\n' !in text
      case Some(k) => k < |text| && '\n' !in text[..k] && text == text[..k] + "\n" + text[k + 1..]
    decreases |text|
  {
    if text != "" {
      assert text == [text[0]] + text[1..];
      FindStep(text[0], text[1..], "\n");
      assert "\n" <= text <==> text[0] == '\n';
      FirstFeed(text[1..]);
      var rest := Find(text[1..], "\n");
      if text[0] != '\n' && rest.Some? {
        assert text[..rest.value + 1] == [text[0]] + text[1..][..rest.value];
      }
    }
  }

  /** The line that the scan is at, and the lines after it. */
  lemma NextLineOf(text: string)
    ensures match Find(text, "\n")
      case None => Lines(text) == [text]
      case Some(k) => k < |text| && Lines(text) == [text[..k]] + Lines(text[k + 1..])
  {
    FirstFeed(text);
    var k := Find(text, "\n");
    LineLeads(if k.Some? then text[..k.value] else text, if k.Some? then text[k.value + 1..] else "");
  }

  /** The matches are the managed markers of the lines scanned so far, with their byte ranges and values. */
  ghost predicate Recorded(s: Setting, done: seq<string>, matches: seq<Match>) {
    RecordedAs(Items(s, done, false), done, matches)
  }

  /** Every managed marker with its line's byte range and its value, in order. */
  function MatchesOf(items: seq<Reading>, lines: seq<string>): seq<Match>
    requires |items| == |lines|
  {
    if items == [] then []
    else
      var n := |items| - 1;
      MatchesOf(items[..n], lines[..n]) + Noted([], |Block(lines[..n])|, lines[n], items[n])
  }

  ghost predicate RecordedAs(items: seq<Reading>, done: seq<string>, matches: seq<Match>)
    requires |items| == |done|
  {
    Reading.Malformed !in items && matches == MatchesOf(items, done)
  }

  lemma ScanKeeps(s: Setting, done: seq<string>, line: string, matches: seq<Match>)
    requires Recorded(s, done, matches) && Item(s, line, Open(s, done, false)) != Reading.Malformed
    ensures var item := Item(s, line, Open(s, done, false)); var start := |Block(done)|;
      Recorded(s, done + [line], Noted(matches, start, line, item))
    ensures Open(s, done + [line], false) == Opens(s, line, Open(s, done, false))
  {
    var item := Item(s, line, Open(s, done, false));
    LineAdded(s, done, line);
    RecordedGrows(Items(s, done, false), Items(s, done + [line], false), item, done, line, matches);
  }

  lemma LineAdded(s: Setting, done: seq<string>, line: string)
    ensures Items(s, done + [line], false) == Items(s, done, false) + [Item(s, line, Open(s, done, false))]
    ensures Open(s, done + [line], false) == Opens(s, line, Open(s, done, false))
  {
    ItemsConcat(s, done, [line], false);
    ItemsFirst(s, line, [], Open(s, done, false));
    assert [line] + [] == [line];
    assert [Item(s, line, Open(s, done, false))] + [] == [Item(s, line, Open(s, done, false))];
  }

  lemma RecordedGrows(items: seq<Reading>, items': seq<Reading>, item: Reading, done: seq<string>,
                      line: string, matches: seq<Match>)
    requires items' == items + [item] && |items| == |done| && item != Reading.Malformed
        && RecordedAs(items, done, matches)
    ensures RecordedAs(items', done + [line], Noted(matches, |Block(done)|, line, item))
  {
    var n := |items|;
    assert items'[..n] == items && (done + [line])[..n] == done && (done + [line])[n] == line;
    assert matches + [] == matches;
  }

  /** The matches carry the values of the lines; the first one is where the first marker is. */
  ghost predicate Agreeing(items: seq<Reading>, lines: seq<string>)
    requires |items| == |lines|
  {
    var matches := MatchesOf(items, lines);
    && |matches| == |Values(items)|
    && (forall k :: 0 <= k < |matches| ==> matches[k].value == Values(items)[k])
    && (matches != [] ==> IsMatchAt(matches[0], lines, FirstMarked(items)))
  }

  lemma MatchesOfAppend(items: seq<Reading>, lines: seq<string>, item: Reading, line: string)
    requires |items| == |lines|
    ensures MatchesOf(items + [item], lines + [line]) == MatchesOf(items, lines) + Noted([], |Block(lines)|, line, item)
  {
    var n := |items|;
    assert (items + [item])[..n] == items && (lines + [line])[..n] == lines;
  }

  lemma AgreeingAppend(items: seq<Reading>, lines: seq<string>, item: Reading, line: string)
    requires |items| == |lines| && Agreeing(items, lines)
    ensures Agreeing(items + [item], lines + [line])
  {
    var n := |items|;
    MatchesOfAppend(items, lines, item, line);
    RecordedStep(items, item);
    assert (lines + [line])[..n] == lines && (lines + [line])[n] == line;
    if MatchesOf(items, lines) != [] {
      var i := FirstMarked(items);
      assert (lines + [line])[..i] == lines[..i] && (lines + [line])[i] == lines[i];
    }
  }

  lemma AgreeingLast(items: seq<Reading>, lines: seq<string>)
    requires 0 < |items| == |lines| && Agreeing(items[..|items| - 1], lines[..|items| - 1])
    ensures Agreeing(items, lines)
  {
    var n := |items| - 1;
    var item, line := items[n], lines[n];
    AgreeingAppend(items[..n], lines[..n], item, line);
    assert items[..n] + [item] == items && lines[..n] + [line] == lines;
  }

  lemma {:induction false} MatchesAgree(items: seq<Reading>, lines: seq<string>)
    requires |items| == |lines|
    ensures Agreeing(items, lines)
    decreases |items|
  {
    if items != [] {
      var n := |items| - 1;
      MatchesAgree(items[..n], lines[..n]);
      AgreeingLast(items, lines);
    }
  }

  predicate IsMatchAt(m: Match, lines: seq<string>, i: nat)
    requires i < |lines|
  {
    m.start == |Block(lines[..i])| && m.end == m.start + |lines[i]|
  }

  lemma StillFirst(items: seq<Reading>, item: Reading)
    requires Values(items) != []
    ensures Values(items + [item]) != [] && FirstMarked(items + [item]) == FirstMarked(items)
  {
    var i := FirstMarked(items);
    NoneBeforeFirst(items);
    assert (items + [item])[..i] == items[..i] && (items + [item])[i] == items[i];
    FirstMarkedAt(items + [item], i);
  }

  lemma NowFirst(items: seq<Reading>, item: Reading)
    requires Values(items) == [] && item.Marked?
    ensures Values(items + [item]) != [] && FirstMarked(items + [item]) == |items|
  {
    assert (items + [item])[..|items|] == items;
    FirstMarkedAt(items + [item], |items|);
  }

  lemma RecordedStep(items: seq<Reading>, item: Reading)
    ensures Values(items + [item]) == Values(items) + (if item.Marked? then [item.value] else [])
    ensures Values(items) != [] ==> FirstMarked(items + [item]) == FirstMarked(items)
    ensures Values(items) == [] && item.Marked? ==> FirstMarked(items + [item]) == |items|
  {
    ValuesConcat(items, [item]);
    assert [item][1..] == [];
    if Values(items) != [] {
      StillFirst(items, item);
    } else if item.Marked? {
      NowFirst(items, item);
    }
  }

  /** The scan stands at `offset`, after the lines `done` and before the lines `tail`. */
  ghost predicate Standing(workflow: string, offset: nat, done: seq<string>, tail: seq<string>) {
    && offset <= |workflow| && done + tail == Lines(workflow)
    && (offset < |workflow| ==> tail == Lines(workflow[offset..]) && offset == |Block(done)|)
    && (offset == |workflow| ==> tail == [] || tail == [""])
  }

  function LineAt(text: string, offset: nat): string
    requires offset <= |text|
  {
    var feed := Find(text[offset..], "\n");
    if feed.Some? then text[offset..offset + feed.value] else text[offset..]
  }

  /** Past the line and its line feed, if it has one. */
  function PastLine(text: string, offset: nat): (n: nat)
    requires offset <= |text|
    ensures offset < |text| ==> offset < n <= |text|
  {
    var feed := Find(text[offset..], "\n");
    if feed.Some? then offset + feed.value + 1 else |text|
  }

  lemma SliceOfRest(text: string, offset: nat, k: nat)
    requires offset + k <= |text|
    ensures text[offset..][..k] == text[offset..offset + k] && text[offset..][k..] == text[offset + k..]
  {
  }

  lemma FeedLineOf(text: string, offset: nat, k: nat)
    requires offset <= |text| && Find(text[offset..], "\n") == Some(k)
    ensures offset + k < |text| && Lines(text[offset..]) == [text[offset..offset + k]] + Lines(text[offset + k + 1..])
  {
    NextLineOf(text[offset..]);
    SliceOfRest(text, offset, k);
    SliceOfRest(text, offset, k + 1);
  }

  lemma ShiftOne(done: seq<string>, line: string, tail: seq<string>)
    ensures (done + [line]) + tail == done + ([line] + tail) && ([line] + tail)[1..] == tail
  {
  }

  lemma AdvancesPastFeed(workflow: string, offset: nat, done: seq<string>, tail: seq<string>, k: nat)
    requires Standing(workflow, offset, done, tail) && offset < |workflow| && Find(workflow[offset..], "\n") == Some(k)
    ensures offset + k < |workflow| && tail != [] && tail[0] == workflow[offset..offset + k]
    ensures Standing(workflow, offset + k + 1, done + [tail[0]], tail[1..])
  {
    var line := workflow[offset..offset + k];
    FeedLineOf(workflow, offset, k);
    BlockLast(done, line);
    ShiftOne(done, line, Lines(workflow[offset + k + 1..]));
    assert offset + k + 1 == |workflow| ==> workflow[offset + k + 1..] == "";
  }

  lemma Advances(workflow: string, offset: nat, done: seq<string>, tail: seq<string>)
    requires Standing(workflow, offset, done, tail) && offset < |workflow|
    ensures tail != [] && tail[0] == LineAt(workflow, offset)
    ensures Standing(workflow, PastLine(workflow, offset), done + [tail[0]], tail[1..])
  {
    var feed := Find(workflow[offset..], "\n");
    if feed.Some? {
      AdvancesPastFeed(workflow, offset, done, tail, feed.value);
    } else {
      NextLineOf(workflow[offset..]);
      ShiftOne(done, workflow[offset..], []);
    }
  }

  function Noted(matches: seq<Match>, start: nat, line: string, item: Reading): seq<Match> {
    if item.Marked? then matches + [Match(start, start + |line|, item.value)] else matches
  }

  method Scan(workflow: string, s: Setting) returns (r: Result<seq<Match>, Error>)
    ensures r.Failure? ==> r.error == MalformedMarker && Reading.Malformed in Items(s, Lines(workflow), false)
    ensures r.Success? ==> Recorded(s, Lines(workflow), r.value)
  {
    var matches: seq<Match> := [];
    var offset, open := 0, false;
    ghost var done: seq<string>, tail := [], Lines(workflow);
    while offset < |workflow|
      invariant Standing(workflow, offset, done, tail)
      invariant open == Open(s, done, false) && Recorded(s, done, matches)
    {
      Advances(workflow, offset, done, tail);
      var line := LineAt(workflow, offset);
      var item := Item(s, line, open);
      if item.Malformed? {
        MalformedStays(s, done, line, tail[1..]);
        return Failure(MalformedMarker);
      }
      ScanKeeps(s, done, line, matches);
      matches := Noted(matches, offset, line, item);
      open := Opens(s, line, open);
      offset := PastLine(workflow, offset);
      done, tail := done + [line], tail[1..];
    }
    if tail == [""] {
      PlainLine(s, "", open);
      ScanKeeps(s, done, "", matches);
    } else {
      assert done + [] == done;
    }
    return Success(matches);
  }

  lemma MalformedStays(s: Setting, done: seq<string>, line: string, tail: seq<string>)
    requires Item(s, line, Open(s, done, false)).Malformed?
    ensures Reading.Malformed in Items(s, (done + [line]) + tail, false)
  {
    ItemsConcat(s, done, [line] + tail, false);
    ItemsFirst(s, line, tail, Open(s, done, false));
    assert (done + [line]) + tail == done + ([line] + tail);
    var rest := Items(s, tail, Opens(s, line, Open(s, done, false)));
    assert (Items(s, done, false) + ([Reading.Malformed] + rest))[|done|] == Reading.Malformed;
  }

  /** Replace the byte range of one line. */
  method ReplaceMarker(workflow: string, only: Match, line: string, ghost lines: seq<string>, ghost i: nat)
    returns (text: string)
    requires lines != [] && Unlines(lines) == workflow && i < |lines|
    requires only.start == |Block(lines[..i])| && only.end == only.start + |lines[i]|
    ensures text == Unlines(lines[i := line])
  {
    ReplaceLine(lines, i, line);
    text := workflow[..only.start] + line + workflow[only.end..];
  }

  /** Setting a marker in a text does to the text what it does to its lines. */
  method PatchMarkerLine(workflow: string, s: Setting, value: string) returns (r: Result<MarkerPatch, Error>)
    ensures var p := Patch(s, Lines(workflow), value);
      && (p.Failure? ==> r == Failure(p.error))
      && (p.Success? ==> p.value.lines != [] && r == Success(MarkerPatch(Unlines(p.value.lines), p.value.previous)))
  {
    var found := Scan(workflow, s);
    if found.Failure? {
      return Failure(found.error);
    }
    var matches := found.value;
    MatchesAgree(Items(s, Lines(workflow), false), Lines(workflow));
    if |matches| == 0 {
      UnlinesLines(workflow);
      HeadingPlace(workflow);
      var text := InsertManagedSection(workflow, s, value, Lines(workflow), FindLine(Lines(workflow), REVIEW_HEADING));
      return Success(MarkerPatch(text, None));
    }
    if |matches| > 1 {
      return Failure(MultipleMarkers);
    }
    UnlinesLines(workflow);
    ghost var i := FirstMarked(Items(s, Lines(workflow), false));
    var text := ReplaceMarker(workflow, matches[0], MarkerLine(s, value), Lines(workflow), i);
    return Success(MarkerPatch(text, Some(matches[0].value)));
  }

  // ---------------------------------------------------------------- the patched text

  lemma SetByHasNoFeed(option: string)
    requires '\n' !in option
    ensures '\n' !in SetBy(option)
  {
  }

  lemma ProvidersHasNoFeed()
    ensures '\n' !in Providers()
  {
  }

  lemma ValueIsHasNoFeed()
    ensures '\n' !in ValueIs()
  {
  }

  lemma WhenSyncingHasNoFeed()
    ensures '\n' !in WhenSyncing()
  {
  }

  lemma MarkerLineHasNoFeed(s: Setting, value: string)
    requires '\n' !in value
    ensures '\n' !in MarkerLine(s, value)
  {
  }

  lemma CommentLineHasNoFeed(s: Setting, k: nat)
    ensures '\n' !in CommentLine(s, k)
  {
    ProvidersHasNoFeed();
    ValueIsHasNoFeed();
    WhenSyncingHasNoFeed();
    SetByHasNoFeed(Providers());
    SetByHasNoFeed("--target-branch`.");
  }

  ghost predicate NoFeeds(lines: seq<string>) { forall i :: 0 <= i < |lines| ==> '\n' !in lines[i] }

  lemma TailHasNoFeeds(s: Setting)
    ensures NoFeeds(Tail(s))
  {
    forall k | 0 <= k < |Tail(s)| ensures '\n' !in Tail(s)[k] {
      if 1 <= k <= |Comment(s)| {
        CommentLineHasNoFeed(s, k - 1);
      }
    }
  }

  lemma {:induction false} BelowHasNoFeeds(s: Setting, value: string)
    requires GoodValue(value)
    ensures NoFeeds(Below(s, value)) && '\n' !in Heading(s)
  {
    MarkerLineHasNoFeed(s, value);
    TailHasNoFeeds(s);
  }

  lemma PatchKeepsFile(s: Setting, lines: seq<string>, value: string)
    requires IsFile(lines) && GoodValue(value) && Patch(s, lines, value).Success?
    ensures IsFile(Patch(s, lines, value).value.lines)
  {
    BelowHasNoFeeds(s, value);
    if Values(Items(s, lines, false)) == [] {
      InsertedIsFile(s, lines, value);
    } else {
      MarkerLineHasNoFeed(s, value);
    }
  }

  lemma AppendedIsFile(lines: seq<string>, section: seq<string>)
    requires IsFile(lines) && NoFeeds(section)
    ensures IsFile(Appended(lines, section))
  {
  }

  lemma BranchIsFile(lines: seq<string>, j: nat, c: nat, heading: string, below: seq<string>)
    requires IsFile(lines) && j < |lines| && c <= |lines[j]| && NoFeeds(below) && '\n' !in heading
    ensures NoFeeds(lines[..j] + [lines[j][..c] + heading, ""] + below + [lines[j][c..]] + lines[j + 1..])
  {
    assert '\n' !in lines[j][..c] + heading && '\n' !in lines[j][c..];
  }

  lemma BelowIsFile(lines: seq<string>, n: nat, below: seq<string>)
    requires IsFile(lines) && n <= |lines| && NoFeeds(below)
    ensures NoFeeds(lines[..n] + below + (if n < |lines| then lines[n..] else [""]))
  {
  }

  lemma InsertedIsFile(s: Setting, lines: seq<string>, value: string)
    requires IsFile(lines) && NoFeeds(Below(s, value)) && '\n' !in Heading(s)
    ensures IsFile(Inserted(s, lines, value))
  {
    var at := FindLine(lines, REVIEW_HEADING);
    if at.None? {
      AppendedIsFile(lines, Section(s, value));
    } else if s == TargetBranch {
      BranchIsFile(lines, at.value.0, at.value.1, Heading(s), Below(s, value));
    } else {
      BelowIsFile(lines, at.value.0 + 1, Below(s, value));
    }
  }

  /** Patching a text twice with the same value: the second time changes nothing, exactly when the first one landed. */
  lemma PatchTwice(s: Setting, text: string, value: string)
    requires GoodValue(value) && Patch(s, Lines(text), value).Success?
    ensures var after := Patch(s, Lines(text), value).value.lines;
      var had := Values(Items(s, Lines(text), false)) != [];
      && after != []
      && (Patch(s, Lines(Unlines(after)), value) == Success(Patched(Lines(Unlines(after)), Some(value))) <==>
          had || Lands(s, Lines(text)))
  {
    UnlinesLines(text);
    PatchIsIdempotent(s, Lines(text), value);
    PatchKeepsFile(s, Lines(text), value);
    LinesUnlines(Patch(s, Lines(text), value).value.lines);
  }

  /** The text as it was, with one piece of text put in. */
  ghost predicate InsertsText(text: string, after: string) {
    exists at, piece :: 0 <= at <= |text| && after == text[..at] + piece + text[at..]
  }

  lemma PutBelowInserts(text: string, at: nat, block: string)
    requires at <= |text|
    ensures InsertsText(text, PutBelow(text, at, block))
  {
    var n := |text|;
    assert text + "\n" + block == text[..n] + ("\n" + block) + text[n..];
  }

  lemma TextAtEnd(text: string, more: string)
    ensures InsertsText(text, text + more)
  {
    var n := |text|;
    assert text + more == text[..n] + more + text[n..];
  }

  lemma ExtendedText(lines: seq<string>, more: seq<string>)
    requires lines != []
    ensures Block(lines + more) == Unlines(lines) + ("\n" + Block(more))
  {
    BlockSplit(lines, more);
    BlockIsText(lines);
    Associate(Unlines(lines), "\n", Block(more));
  }

  lemma SetOffStartsWithText(lines: seq<string>) returns (tail: string)
    requires lines != []
    ensures Block(SetOff(lines)) == Unlines(lines) + tail
  {
    SetOffShape(lines);
    if lines <= SetOff(lines) {
      var more := SetOff(lines)[|lines|..];
      assert SetOff(lines) == lines + more;
      ExtendedText(lines, more);
      tail := "\n" + Block(more);
    } else {
      BlockIsText(lines);
      tail := "";
      assert Block(SetOff(lines)) + "" == Block(SetOff(lines));
    }
  }

  lemma AppendedInsertsText(lines: seq<string>, section: seq<string>)
    requires lines != []
    ensures InsertsText(Unlines(lines), Unlines(Appended(lines, section)))
  {
    var tail := SetOffStartsWithText(lines);
    SectionAtEnd(SetOff(lines), section);
    Associate(Unlines(lines), tail, Block(section));
    TextAtEnd(Unlines(lines), tail + Block(section));
  }

  /** Whatever happens to its lines, an insertion keeps every character of the text, in order. */
  lemma {:induction false} InsertionKeepsText(s: Setting, lines: seq<string>, value: string)
    requires IsFile(lines)
    ensures InsertsText(Unlines(lines), Unlines(Inserted(s, lines, value)))
  {
    var at := FindLine(lines, REVIEW_HEADING);
    if at.None? {
      AppendedInsertsText(lines, Section(s, value));
    } else if s == TargetBranch {
      BranchEdit(s, lines, value, at.value.0, at.value.1);
    } else {
      ProviderEdit(s, lines, value, at.value.0, at.value.1);
      PutBelowInserts(Unlines(lines), |Block(lines[..at.value.0])| + at.value.1, Block(Below(s, value)));
    }
  }
}
