/** Which lines a patch keeps: all others but the replaced one, unless a heading is cut off its own line. */
module MarkerKept {
  import opened Prelude
  import opened WorkflowMarker
  import opened MarkerLaws

  /** The lines as they were, with one block of lines put in. */
  ghost predicate AddsBlock(lines: seq<string>, after: seq<string>) {
    exists k, block :: 0 <= k <= |lines| && after == lines[..k] + block + lines[k..]
  }

  lemma BlockAtEnd(lines: seq<string>, more: seq<string>, section: seq<string>)
    ensures AddsBlock(lines, (lines + more) + section + [""])
  {
    var n := |lines|;
    assert (lines + more) + section + [""] == lines[..n] + (more + section + [""]) + lines[n..];
  }

  lemma BlockBeforeLast(lines: seq<string>, section: seq<string>)
    requires lines != [] && Last(lines) == ""
    ensures AddsBlock(lines, lines[..|lines| - 1] + section + [""])
  {
    var n := |lines| - 1;
    assert lines[n..] == [""];
    assert lines[..n] + section + lines[n..] == lines[..n] + section + [""];
  }

  lemma SetOffShape(lines: seq<string>)
    requires lines != []
    ensures lines <= SetOff(lines) || (SetOff(lines) == lines[..|lines| - 1] && Last(lines) == "")
  {
  }

  lemma AppendedAddsBlock(lines: seq<string>, section: seq<string>)
    requires lines != []
    ensures AddsBlock(lines, Appended(lines, section))
  {
    SetOffShape(lines);
    if lines <= SetOff(lines) {
      var more := SetOff(lines)[|lines|..];
      assert SetOff(lines) == lines + more;
      BlockAtEnd(lines, more, section);
    } else {
      BlockBeforeLast(lines, section);
    }
  }

  lemma BlockBefore(lines: seq<string>, j: nat, heading: string, below: seq<string>)
    requires j < |lines|
    ensures AddsBlock(lines, lines[..j] + [lines[j][..0] + heading, ""] + below + [lines[j][0..]] + lines[j + 1..])
  {
    assert lines[j][..0] + heading == heading && lines[j][0..] == lines[j];
    assert lines[j..] == [lines[j]] + lines[j + 1..];
    assert lines[..j] + [heading, ""] + below + [lines[j]] + lines[j + 1..]
        == lines[..j] + ([heading, ""] + below) + lines[j..];
  }

  lemma BlockAfter(lines: seq<string>, n: nat, below: seq<string>)
    requires n <= |lines|
    ensures AddsBlock(lines, lines[..n] + below + (if n < |lines| then lines[n..] else [""]))
  {
    if n == |lines| {
      assert lines[..n] + below + [""] == lines[..n] + (below + [""]) + lines[n..];
    }
  }

  /** A branch section goes in front of the heading itself, so what stands before it on its line is left behind. */
  predicate CutsLine(s: Setting, lines: seq<string>) {
    var at := FindLine(lines, REVIEW_HEADING);
    s == TargetBranch && at.Some? && at.value.1 > 0
  }

  lemma InsertedAddsBlock(s: Setting, lines: seq<string>, value: string)
    requires lines != [] && !CutsLine(s, lines)
    ensures AddsBlock(lines, Inserted(s, lines, value))
  {
    var at := FindLine(lines, REVIEW_HEADING);
    if at.None? {
      AppendedAddsBlock(lines, Section(s, value));
    } else if s == TargetBranch {
      BlockBefore(lines, at.value.0, Heading(s), Below(s, value));
    } else {
      BlockAfter(lines, at.value.0 + 1, Below(s, value));
    }
  }

  /** A line that is cut before `suffix` and continued by something else is not among the lines any more. */
  lemma CutLineIsLost(lines: seq<string>, j: nat, head: string, mid: seq<string>, suffix: string)
    requires j < |lines| && head != lines[j] && suffix != lines[j]
    ensures !AddsBlock(lines, lines[..j] + [head] + mid + [suffix] + lines[j + 1..])
  {
    var after := lines[..j] + [head] + mid + [suffix] + lines[j + 1..];
    var n, m := |lines|, |after|;
    assert after[j] == head && after[m - (n - j)] == suffix;
    forall k, block | 0 <= k <= n ensures after != lines[..k] + block + lines[k..] {
      var other := lines[..k] + block + lines[k..];
      if |other| == m {
        assert k > j ==> other[j] == lines[j];
        assert k <= j ==> other[m - (n - j)] == lines[j];
      }
    }
  }

  lemma HeadingsDiffer(prefix: string, suffix: string)
    requires REVIEW_HEADING <= suffix
    ensures prefix + TARGET_HEADING != prefix + suffix
  {
    ReviewHeadingParts(suffix[|REVIEW_HEADING|..]);
    assert suffix == REVIEW_HEADING + suffix[|REVIEW_HEADING|..];
    assert (prefix + suffix)[|prefix| + 3] == 'A' && (prefix + TARGET_HEADING)[|prefix| + 3] == 'B';
  }

  lemma InsertedCutsLine(s: Setting, lines: seq<string>, value: string)
    requires lines != [] && CutsLine(s, lines)
    ensures !AddsBlock(lines, Inserted(s, lines, value))
  {
    var (j, c) := FindLine(lines, REVIEW_HEADING).value;
    var prefix, suffix := lines[j][..c], lines[j][c..];
    assert lines[j] == prefix + suffix;
    HeadingsDiffer(prefix, suffix);
    CutLineIsLost(lines, j, prefix + TARGET_HEADING, [""] + Below(s, value), suffix);
    InsertedShape(lines[..j], prefix + TARGET_HEADING, Below(s, value), [suffix], lines[j + 1..]);
  }

  /**
   A patch replaces one line and keeps all others where there was a marker. Where it inserts one, the lines are kept
   with one block put in exactly when no branch section is put before a heading that starts inside its line.
   */
  lemma PatchKeepsLines(s: Setting, lines: seq<string>, value: string)
    requires lines != [] && Patch(s, lines, value).Success?
    ensures var after := Patch(s, lines, value).value.lines; var items := Items(s, lines, false);
      if Values(items) != [] then
        |after| == |lines| && forall i :: 0 <= i < |lines| && i != FirstMarked(items) ==> after[i] == lines[i]
      else
        AddsBlock(lines, after) <==> !CutsLine(s, lines)
  {
    if Values(Items(s, lines, false)) == [] {
      if CutsLine(s, lines) {
        InsertedCutsLine(s, lines, value);
      } else {
        InsertedAddsBlock(s, lines, value);
      }
    }
  }

  /** Even a heading alone on its line loses it when it is indented: the line becomes two others. */
  lemma IndentedHeadingIsCut(value: string)
    ensures var lines := [" " + REVIEW_HEADING];
      && Trim(lines[0]) == REVIEW_HEADING && Patch(TargetBranch, lines, value).Success?
      && !AddsBlock(lines, Patch(TargetBranch, lines, value).value.lines)
  {
    var line := " " + REVIEW_HEADING;
    assert line[0] == ' ' && line[1..] == REVIEW_HEADING;
    ReviewHeadingParts("");
    TrimSolid(REVIEW_HEADING);
    SpaceIsTrimmed(REVIEW_HEADING);
    FindFirst(" ", REVIEW_HEADING, "");
    assert " " + REVIEW_HEADING + "" == line;
    assert FindLine([line], REVIEW_HEADING) == Some((0, 1));
    assert Items(TargetBranch, [line], false) == [NoMarker];
    CleanExactly(Items(TargetBranch, [line], false));
    InsertedCutsLine(TargetBranch, [line], value);
  }
}
