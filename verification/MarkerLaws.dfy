/** What setting a marker does: when exactly one managed marker is left, and what else it keeps. */
module MarkerLaws {
  import opened Prelude
  import opened WorkflowMarker

  // ---------------------------------------------------------------- reading in pieces

  lemma ItemsFirst(s: Setting, line: string, rest: seq<string>, open: bool)
    ensures Items(s, [line] + rest, open) == [Item(s, line, open)] + Items(s, rest, Opens(s, line, open))
    ensures Open(s, [line] + rest, open) == Open(s, rest, Opens(s, line, open))
  {
    assert ([line] + rest)[1..] == rest;
  }

  lemma {:induction false} ItemsConcat(s: Setting, a: seq<string>, b: seq<string>, open: bool)
    ensures Items(s, a + b, open) == Items(s, a, open) + Items(s, b, Open(s, a, open))
    ensures Open(s, a + b, open) == Open(s, b, Open(s, a, open))
    decreases |a|
  {
    if a == [] {
      assert a + b == b;
    } else {
      var line, rest := a[0], a[1..];
      var opens := Opens(s, line, open);
      ItemsConcat(s, rest, b, opens);
      ItemsFirst(s, line, rest, open);
      ItemsFirst(s, line, rest + b, open);
      assert a == [line] + rest && a + b == [line] + (rest + b);
      Associate([Item(s, line, open)], Items(s, rest, opens), Items(s, b, Open(s, rest, opens)));
    }
  }

  lemma {:induction false} ValuesConcat(a: seq<Reading>, b: seq<Reading>)
    ensures Values(a + b) == Values(a) + Values(b)
    decreases |a|
  {
    if a == [] {
      assert a + b == b;
    } else {
      ValuesConcat(a[1..], b);
      assert (a + b)[1..] == a[1..] + b;
    }
  }

  ghost predicate Clean(items: seq<Reading>) { forall i :: 0 <= i < |items| ==> items[i] == NoMarker }

  lemma {:induction false} CleanExactly(items: seq<Reading>)
    ensures Clean(items) <==> Reading.Malformed !in items && Values(items) == []
  {
    if items != [] {
      CleanExactly(items[1..]);
      assert items == [items[0]] + items[1..];
      assert Clean(items) <==> items[0] == NoMarker && Clean(items[1..]);
    }
  }

  lemma CleanFirst(first: Reading, rest: seq<Reading>)
    ensures Clean([first] + rest) <==> first == NoMarker && Clean(rest)
  {
    var all := [first] + rest;
    assert forall i :: 0 <= i < |rest| ==> rest[i] == all[i + 1];
    assert all[0] == first;
  }

  /** A section that is open less often has no more markers. */
  lemma {:induction false} LessOpen(s: Setting, lines: seq<string>, more: bool)
    requires Clean(Items(s, lines, more))
    ensures Clean(Items(s, lines, false))
    decreases |lines|
  {
    if lines != [] && more {
      assert lines == [lines[0]] + lines[1..];
      LessOpenFirst(s, lines[0], lines[1..]);
      if !Opens(s, lines[0], false) {
        LessOpen(s, lines[1..], Opens(s, lines[0], true));
      }
      ItemsClean(s, lines[0], lines[1..], false);
    }
  }

  lemma ItemsClean(s: Setting, line: string, rest: seq<string>, open: bool)
    ensures Clean(Items(s, [line] + rest, open))
            <==> Item(s, line, open) == NoMarker && Clean(Items(s, rest, Opens(s, line, open)))
  {
    ItemsFirst(s, line, rest, open);
    CleanFirst(Item(s, line, open), Items(s, rest, Opens(s, line, open)));
  }

  lemma LessOpenFirst(s: Setting, line: string, rest: seq<string>)
    requires Clean(Items(s, [line] + rest, true))
    ensures Clean(Items(s, rest, Opens(s, line, true))) && Item(s, line, false) == NoMarker
    ensures Opens(s, line, false) ==> Opens(s, line, true)
  {
    ItemsClean(s, line, rest, true);
  }

  // ---------------------------------------------------------------- single lines

  predicate GoodValue(value: string) { Trim(value) != "" && '`' !in value && '\n' !in value }

  lemma TrimSolid(t: string)
    requires t != "" && !IsWhite(t[0]) && !IsWhite(t[|t| - 1])
    ensures TrimStart(t) == t && TrimEnd(t) == t && Trim(t) == t
  {
  }

  lemma TrimFirst(t: string)
    requires TrimStart(t) != ""
    ensures Trim(t) != "" && Trim(t)[0] == TrimStart(t)[0]
  {
    TrimEndFirst(TrimStart(t));
  }

  lemma {:induction false} TrimEndFirst(t: string)
    requires t != "" && !IsWhite(t[0])
    ensures TrimEnd(t) != ""
  {
    if IsWhite(t[|t| - 1]) {
      TrimEndFirst(t[..|t| - 1]);
    }
  }

  /** A line whose first visible character starts neither a heading nor a marker changes nothing. */
  lemma PlainLine(s: Setting, line: string, open: bool)
    requires TrimStart(line) == ""
        || (TrimStart(line)[0] != '#' && TrimStart(line)[0] != 'T' && TrimStart(line)[0] != 'A')
    ensures Item(s, line, open) == NoMarker && Opens(s, line, open) == open
  {
    if TrimStart(line) != "" {
      TrimFirst(line);
    }
    assert Heading(s)[0] == '#' && (Marker(s)[0] == 'T' || Marker(s)[0] == 'A');
  }

  /** Reading back what stands between the backticks of a marker line. */
  lemma BetweenBackticks(value: string)
    ensures Trim(" `" + value + "`") == "`" + value + "`"
    ensures ("`" + value + "`")[1..|value| + 1] == value
  {
    var quoted := "`" + value + "`";
    var rest := " `" + value + "`";
    assert rest[0] == ' ' && rest[1..] == quoted;
    TrimSolid(quoted);
  }

  lemma MarkerLineTrims(s: Setting, value: string)
    ensures var line := MarkerLine(s, value);
      TrimStart(line) == line && Trim(line) == line && Marker(s) <= line && line[|Marker(s)|..] == " `" + value + "`"
  {
    var line := MarkerLine(s, value);
    assert line[0] == Marker(s)[0] && line[|line| - 1] == '`';
    TrimSolid(line);
    assert line == Marker(s) + (" `" + value + "`");
  }

  lemma MarkerLineReads(s: Setting, value: string, open: bool)
    requires GoodValue(value)
    ensures Opens(s, MarkerLine(s, value), open) == open
    ensures Item(s, MarkerLine(s, value), open) == if open then Marked(value) else NoMarker
  {
    var line := MarkerLine(s, value);
    MarkerLineTrims(s, value);
    BetweenBackticks(value);
    assert line[0] != '#' && Heading(s)[0] == '#';
  }

  // ---------------------------------------------------------------- blocks of lines

  ghost predicate Managed(s: Setting, lines: seq<string>, value: string) {
    var items := Items(s, lines, false);
    Reading.Malformed !in items && Values(items) == [value]
  }

  lemma Around(s: Setting, a: seq<string>, block: seq<string>, b: seq<string>)
    ensures var before, after := Open(s, a, false), Open(s, a + block, false);
      && after == Open(s, block, before)
      && Items(s, a + block + b, false) == Items(s, a, false) + Items(s, block, before) + Items(s, b, after)
  {
    ItemsConcat(s, a, block, false);
    ItemsConcat(s, a + block, b, false);
  }

  lemma ValuesAround(a: seq<Reading>, block: seq<Reading>, b: seq<Reading>)
    ensures Values(a + block + b) == Values(a) + Values(block) + Values(b)
  {
    ValuesConcat(a, block);
    ValuesConcat(a + block, b);
  }

  /** Clean lines around a block leave exactly the block's own markers. */
  lemma BlockValues(s: Setting, a: seq<string>, block: seq<string>, b: seq<string>)
    requires Clean(Items(s, a, false)) && Clean(Items(s, b, Open(s, a + block, false)))
    ensures var items := Items(s, a + block + b, false); var inner := Items(s, block, Open(s, a, false));
      Values(items) == Values(inner) && (Reading.Malformed in items <==> Reading.Malformed in inner)
  {
    Around(s, a, block, b);
    var ia, inner, ib := Items(s, a, false), Items(s, block, Open(s, a, false)), Items(s, b, Open(s, a + block, false));
    ValuesAround(ia, inner, ib);
    CleanExactly(ia);
    CleanExactly(ib);
    assert Values(ia) + Values(inner) + Values(ib) == Values(inner);
  }

  ghost predicate Plain(line: string) {
    TrimStart(line) == "" || (TrimStart(line)[0] != '#' && TrimStart(line)[0] != 'T' && TrimStart(line)[0] != 'A')
  }

  lemma {:induction false} PlainBlock(s: Setting, lines: seq<string>, open: bool)
    requires forall i :: 0 <= i < |lines| ==> Plain(lines[i])
    ensures Clean(Items(s, lines, open)) && Open(s, lines, open) == open
    decreases |lines|
  {
    if lines != [] {
      PlainLine(s, lines[0], open);
      PlainBlock(s, lines[1..], open);
      assert Items(s, lines, open) == [NoMarker] + Items(s, lines[1..], open);
    }
  }

  lemma SpaceIsTrimmed(t: string)
    ensures TrimStart(" " + t) == TrimStart(t)
  {
    assert (" " + t)[0] == ' ' && (" " + t)[1..] == t;
  }

  lemma IndentedIsPlain(t: string)
    requires Plain(t)
    ensures Plain("     " + t)
  {
    var one, two := " " + t, " " + (" " + t);
    var three, four := " " + two, " " + (" " + two);
    assert "     " + t == " " + four;
    SpaceIsTrimmed(t);
    SpaceIsTrimmed(one);
    SpaceIsTrimmed(two);
    SpaceIsTrimmed(three);
    SpaceIsTrimmed(four);
  }

  lemma StartIsPlain(line: string)
    requires line == "" || (!IsWhite(line[0]) && line[0] != '#' && line[0] != 'T' && line[0] != 'A')
    ensures Plain(line)
  {
  }

  lemma SetByIsPlain(option: string)
    ensures Plain(SetBy(option))
  {
    assert SetBy(option)[0] == '<';
  }

  lemma ValueIsIsPlain()
    ensures Plain("     " + ValueIs())
  {
    assert ValueIs()[0] == 'V';
    IndentedIsPlain(ValueIs());
  }

  lemma WhenSyncingIsPlain()
    ensures Plain("     " + WhenSyncing())
  {
    assert WhenSyncing()[0] == '`';
    IndentedIsPlain(WhenSyncing());
  }

  lemma CommentLineIsPlain(s: Setting, k: nat)
    ensures Plain(CommentLine(s, k))
  {
    if s == ReviewProvider {
      SetByIsPlain(Providers());
    } else if k == 0 {
      SetByIsPlain("--target-branch`.");
    } else if k == 1 {
      ValueIsIsPlain();
    } else if k == 2 {
      WhenSyncingIsPlain();
    } else {
      StartIsPlain("preparing PRs. -->");
      IndentedIsPlain("preparing PRs. -->");
    }
  }

  lemma TailIsPlain(s: Setting)
    ensures forall i :: 0 <= i < |Tail(s)| ==> Plain(Tail(s)[i])
  {
    StartIsPlain("");
    forall i | 0 <= i < |Tail(s)| ensures Plain(Tail(s)[i]) {
      if 1 <= i <= |Comment(s)| {
        CommentLineIsPlain(s, i - 1);
      }
    }
  }

  /** Where the section is open, a marker line and its tail hold one marker; where it is not, none. */
  lemma MarkerBlock(s: Setting, value: string, open: bool)
    requires GoodValue(value)
    ensures var block := Below(s, value); var items := Items(s, block, open);
      && Values(items) == (if open then [value] else []) && Reading.Malformed !in items
      && Open(s, block, open) == open
  {
    var line := MarkerLine(s, value);
    MarkerLineReads(s, value, open);
    ItemsFirst(s, line, Tail(s), open);
    TailIsPlain(s);
    PlainBlock(s, Tail(s), open);
    CleanExactly(Items(s, Tail(s), open));
    ValuesConcat([Item(s, line, open)], Items(s, Tail(s), open));
  }

  // ---------------------------------------------------------------- replacing the one marker

  lemma {:induction false} FirstMarkedAt(items: seq<Reading>, i: nat)
    requires i < |items| && items[i].Marked? && Values(items[..i]) == []
    ensures Values(items) != [] && FirstMarked(items) == i
    decreases |items|
  {
    if i > 0 {
      assert items[..i][1..] == items[1..][..i - 1];
      FirstMarkedAt(items[1..], i - 1);
    }
  }

  lemma {:induction false} NoneBeforeFirst(items: seq<Reading>)
    requires Values(items) != []
    ensures Values(items[..FirstMarked(items)]) == []
    decreases |items|
  {
    if !items[0].Marked? {
      NoneBeforeFirst(items[1..]);
      assert items[..FirstMarked(items)][1..] == items[1..][..FirstMarked(items[1..])];
    }
  }

  lemma SoleMarked(items: seq<Reading>, i: nat)
    requires i < |items| && items[i].Marked? && |Values(items)| == 1
    ensures FirstMarked(items) == i
  {
    assert items == items[..i] + ([items[i]] + items[i + 1..]);
    ValuesConcat(items[..i], [items[i]] + items[i + 1..]);
    assert Values([items[i]] + items[i + 1..]) != [];
    FirstMarkedAt(items, i);
  }

  lemma ItemsAt(s: Setting, lines: seq<string>, i: nat)
    requires i < |lines|
    ensures var open := Open(s, lines[..i], false); var items := Items(s, lines, false);
      && items[..i] == Items(s, lines[..i], false) && items[i] == Item(s, lines[i], open)
      && items[i + 1..] == Items(s, lines[i + 1..], Opens(s, lines[i], open))
  {
    assert lines == lines[..i] + ([lines[i]] + lines[i + 1..]);
    ItemsConcat(s, lines[..i], [lines[i]] + lines[i + 1..], false);
    ItemsFirst(s, lines[i], lines[i + 1..], Open(s, lines[..i], false));
  }

  lemma SameAround<T>(a: seq<T>, b: seq<T>, i: nat, x: T)
    requires i < |a| == |b| && a[..i] == b[..i] && b[i] == x && a[i + 1..] == b[i + 1..]
    ensures b == a[i := x]
  {
    assert forall k :: 0 <= k < i ==> a[k] == a[..i][k] && b[k] == b[..i][k];
    assert forall k :: i < k < |a| ==> a[k] == a[i + 1..][k - i - 1] && b[k] == b[i + 1..][k - i - 1];
  }

  lemma MarkedIsOpen(s: Setting, line: string, open: bool)
    requires Item(s, line, open).Marked?
    ensures open && Opens(s, line, open)
  {
  }

  lemma ReplacedItems(s: Setting, lines: seq<string>, i: nat, value: string)
    requires GoodValue(value) && i < |lines| && Items(s, lines, false)[i].Marked?
    ensures Items(s, lines[i := MarkerLine(s, value)], false) == Items(s, lines, false)[i := Marked(value)]
  {
    var lines', open := lines[i := MarkerLine(s, value)], Open(s, lines[..i], false);
    ItemsAt(s, lines, i);
    ItemsAt(s, lines', i);
    MarkedIsOpen(s, lines[i], open);
    MarkerLineReads(s, value, open);
    assert lines'[..i] == lines[..i] && lines'[i + 1..] == lines[i + 1..] && lines'[i] == MarkerLine(s, value);
    SameAround(Items(s, lines, false), Items(s, lines', false), i, Marked(value));
  }

  lemma ReplacedValues(items: seq<Reading>, value: string)
    requires |Values(items)| == 1
    ensures var items' := items[FirstMarked(items) := Marked(value)];
      Values(items') == [value] && FirstMarked(items') == FirstMarked(items)
  {
    var i := FirstMarked(items);
    var items' := items[i := Marked(value)];
    assert items' == items[..i] + [Marked(value)] + items[i + 1..] && items == items[..i] + [items[i]] + items[i + 1..];
    ValuesAround(items[..i], [Marked(value)], items[i + 1..]);
    ValuesAround(items[..i], [items[i]], items[i + 1..]);
    NoneBeforeFirst(items);
    assert |Values([items[i]])| == 1 && Values([Marked(value)]) == [value];
    assert items'[..i] == items[..i];
    FirstMarkedAt(items', i);
  }

  /** Replacing the one marker leaves one marker, on the same line, with the new value. */
  lemma ReplacedIsManaged(s: Setting, lines: seq<string>, value: string)
    requires GoodValue(value)
    requires var items := Items(s, lines, false); Reading.Malformed !in items && |Values(items)| == 1
    ensures var i := FirstMarked(Items(s, lines, false)); var lines' := lines[i := MarkerLine(s, value)];
      Managed(s, lines', value) && FirstMarked(Items(s, lines', false)) == i
  {
    var items := Items(s, lines, false);
    ReplacedItems(s, lines, FirstMarked(items), value);
    ReplacedValues(items, value);
  }

  // ---------------------------------------------------------------- inserting a missing one

  lemma {:induction false} CleanPrefix(s: Setting, lines: seq<string>, i: nat)
    requires i <= |lines| && Clean(Items(s, lines, false))
    ensures Clean(Items(s, lines[..i], false)) && Clean(Items(s, lines[i..], Open(s, lines[..i], false)))
  {
    ItemsConcat(s, lines[..i], lines[i..], false);
    assert lines[..i] + lines[i..] == lines;
    var a, b := Items(s, lines[..i], false), Items(s, lines[i..], Open(s, lines[..i], false));
    assert forall k :: 0 <= k < |a| ==> a[k] == (a + b)[k];
    assert forall k :: 0 <= k < |b| ==> b[k] == (a + b)[|a| + k];
  }

  lemma CleanWithBlank(s: Setting, lines: seq<string>)
    requires Clean(Items(s, lines, false))
    ensures Clean(Items(s, lines + [""], false))
  {
    ItemsConcat(s, lines, [""], false);
    PlainLine(s, "", Open(s, lines, false));
  }

  lemma HeadingOpens(s: Setting, open: bool)
    ensures Trim(Heading(s)) == Heading(s) && Opens(s, Heading(s), open) && Item(s, Heading(s), open) == NoMarker
  {
    TrimSolid(Heading(s));
  }

  /** A whole section holds one marker wherever it is put. */
  lemma SectionReads(s: Setting, value: string, open: bool)
    requires GoodValue(value)
    ensures var items := Items(s, Section(s, value), open); Values(items) == [value] && Reading.Malformed !in items
  {
    HeadingOpens(s, open);
    var block := Below(s, value);
    var below := [""] + block;
    assert Section(s, value) == [Heading(s)] + below;
    ItemsFirst(s, Heading(s), below, open);
    PlainLine(s, "", true);
    ItemsFirst(s, "", block, true);
    MarkerBlock(s, value, true);
  }

  lemma AppendedIsManaged(s: Setting, before: seq<string>, value: string)
    requires GoodValue(value) && Clean(Items(s, before, false))
    ensures Managed(s, before + Section(s, value) + [""], value)
  {
    SectionReads(s, value, Open(s, before, false));
    BlankIsClean(s, Open(s, before + Section(s, value), false));
    BlockValues(s, before, Section(s, value), [""]);
  }

  lemma SetOffIsClean(s: Setting, lines: seq<string>)
    requires lines != [] && Clean(Items(s, lines, false))
    ensures Clean(Items(s, SetOff(lines), false))
  {
    CleanWithBlank(s, lines);
    CleanPrefix(s, Ended(lines), |Ended(lines)| - 1);
  }

  lemma AppendsToClean(s: Setting, lines: seq<string>, value: string)
    requires lines != [] && GoodValue(value) && Clean(Items(s, lines, false))
    ensures Managed(s, Appended(lines, Section(s, value)), value)
  {
    SetOffIsClean(s, lines);
    AppendedIsManaged(s, SetOff(lines), value);
  }

  /** A marker put between clean lines is managed exactly when the section is open there. */
  lemma MarkerBetween(s: Setting, before: seq<string>, value: string, rest: seq<string>)
    requires GoodValue(value) && Clean(Items(s, before, false)) && Clean(Items(s, rest, Open(s, before, false)))
    ensures var items := Items(s, before + Below(s, value) + rest, false);
      Reading.Malformed !in items && Values(items) == if Open(s, before, false) then [value] else []
  {
    var block := Below(s, value);
    MarkerBlock(s, value, Open(s, before, false));
    ItemsConcat(s, before, block, false);
    BlockValues(s, before, block, rest);
  }

  /** Below the first `n` lines: the marker is managed exactly when the section is open there. */
  lemma InsertedBelow(s: Setting, lines: seq<string>, n: nat, value: string)
    requires 1 <= n <= |lines| && GoodValue(value) && Clean(Items(s, lines, false))
    ensures var rest := if n < |lines| then lines[n..] else [""];
      var items := Items(s, lines[..n] + Below(s, value) + rest, false);
      Reading.Malformed !in items && Values(items) == if Open(s, lines[..n], false) then [value] else []
  {
    CleanPrefix(s, lines, n);
    if n < |lines| {
      MarkerBetween(s, lines[..n], value, lines[n..]);
    } else {
      BlankIsClean(s, Open(s, lines[..n], false));
      MarkerBetween(s, lines[..n], value, [""]);
    }
  }

  lemma BlankIsClean(s: Setting, open: bool)
    ensures Clean(Items(s, [""], open)) && Open(s, [""], open) == open
  {
    PlainBlock(s, [""], open);
  }

  // ---------------------------------------------------------------- a branch section before the review heading

  lemma {:induction false} TrimStartAppend(prefix: string, t: string)
    requires t != "" && !IsWhite(t[0])
    ensures TrimStart(prefix + t) == TrimStart(prefix) + t
    decreases |prefix|
  {
    if prefix == "" {
      assert prefix + t == t;
    } else if IsWhite(prefix[0]) {
      TrimStartAppend(prefix[1..], t);
      assert (prefix + t)[1..] == prefix[1..] + t;
    }
  }

  lemma {:induction false} ReviewHeadingParts(tail: string)
    ensures REVIEW_HEADING == "## " + "Automated AI PR review" && TARGET_HEADING == "## " + "Branch target"
    ensures var t := REVIEW_HEADING + tail; t[0] == '#' && t[3] == 'A'
    ensures TARGET_HEADING[0] == '#' && TARGET_HEADING[3] == 'B' && '#' !in TARGET_MARKER && TARGET_MARKER[0] == 'T'
  {
  }

  /** A prefix of text without a hash ends before the first hash. */
  lemma PrefixBeforeHash(m: string, p: string, t: string)
    requires '#' !in m && t != "" && t[0] == '#'
    ensures m <= p + t <==> m <= p
  {
    if |m| > |p| {
      assert (p + t)[|p|] == '#' && m[|p|] != '#';
    }
  }

  /** Splitting the review heading's line leaves nothing that reads as a branch marker. */
  lemma SplitLine(line: string, c: nat, open: bool)
    requires c + |REVIEW_HEADING| <= |line| && line[c..][..|REVIEW_HEADING|] == REVIEW_HEADING
    requires Item(TargetBranch, line, open) == NoMarker
    ensures Item(TargetBranch, line[..c] + TARGET_HEADING, open) == NoMarker
    ensures TrimStart(line[c..]) == line[c..] && StartsWithHash(line[c..])
  {
    var prefix, tail := line[..c], line[c + |REVIEW_HEADING|..];
    assert line[c..] == REVIEW_HEADING + tail && line == prefix + line[c..];
    ReviewHeadingParts(tail);
    TrimStartAppend(prefix, line[c..]);
    TrimStartAppend(prefix, TARGET_HEADING);
    PrefixBeforeHash(TARGET_MARKER, TrimStart(prefix), line[c..]);
    PrefixBeforeHash(TARGET_MARKER, TrimStart(prefix), TARGET_HEADING);
  }

  lemma ReviewLineCloses(line: string, open: bool)
    requires REVIEW_HEADING <= line
    ensures Item(TargetBranch, line, open) == NoMarker && !Opens(TargetBranch, line, open)
  {
    ReviewHeadingParts(line[|REVIEW_HEADING|..]);
    assert line == REVIEW_HEADING + line[|REVIEW_HEADING|..];
    assert TrimStart(line) == line;
    assert Trim(line) <= line;
    assert |line| > 3 && line[3] != TARGET_HEADING[3];
  }

  /** From the review heading on, the branch section is closed and stays clean. */
  lemma CleanAfterHeading(lines: seq<string>, j: nat, c: nat, open: bool)
    requires j < |lines| && Clean(Items(TargetBranch, lines, false))
    requires c <= |lines[j]| && REVIEW_HEADING <= lines[j][c..]
    ensures Clean(Items(TargetBranch, [lines[j][c..]] + lines[j + 1..], open))
  {
    var s, rest := TargetBranch, lines[j + 1..];
    CleanPrefix(s, lines, j + 1);
    if Open(s, lines[..j + 1], false) {
      LessOpen(s, rest, true);
    }
    ReviewLineCloses(lines[j][c..], open);
    ItemsFirst(s, lines[j][c..], rest, open);
  }

  lemma {:induction false} CleanBeforeHeading(lines: seq<string>, j: nat, c: nat)
    requires j < |lines| && Clean(Items(TargetBranch, lines, false))
    requires c <= |lines[j]| && REVIEW_HEADING <= lines[j][c..]
    ensures var s := TargetBranch; var before := lines[..j] + [lines[j][..c] + TARGET_HEADING, ""];
      && Clean(Items(s, before, false))
      && Open(s, before, false) == Opens(s, lines[j][..c] + TARGET_HEADING, Open(s, lines[..j], false))
  {
    var s, head := TargetBranch, lines[j][..c] + TARGET_HEADING;
    var open := Open(s, lines[..j], false);
    CleanPrefix(s, lines, j);
    ItemsAt(s, lines, j);
    SplitLine(lines[j], c, open);
    ItemsFirst(s, head, [""], open);
    BlankIsClean(s, Opens(s, head, open));
    assert [head, ""] == [head] + [""];
    ItemsConcat(s, lines[..j], [head, ""], false);
  }

  lemma TargetInserted(lines: seq<string>, j: nat, c: nat, value: string)
    requires j < |lines| && GoodValue(value) && Clean(Items(TargetBranch, lines, false))
    requires c <= |lines[j]| && REVIEW_HEADING <= lines[j][c..]
    ensures var s := TargetBranch; var head := lines[j][..c] + TARGET_HEADING;
      var items := Items(s, lines[..j] + [head, ""] + Below(s, value) + [lines[j][c..]] + lines[j + 1..], false);
      Reading.Malformed !in items && Values(items) == if Opens(s, head, Open(s, lines[..j], false)) then [value] else []
  {
    var s, head := TargetBranch, lines[j][..c] + TARGET_HEADING;
    var before, rest := lines[..j] + [head, ""], [lines[j][c..]] + lines[j + 1..];
    CleanBeforeHeading(lines, j, c);
    CleanAfterHeading(lines, j, c, Open(s, before, false));
    MarkerBetween(s, before, value, rest);
    assert before + Below(s, value) + rest
        == lines[..j] + [head, ""] + Below(s, value) + [lines[j][c..]] + lines[j + 1..];
  }

  lemma InsertedShape(a: seq<string>, head: string, below: seq<string>, suffix: seq<string>,
                      b: seq<string>)
    ensures a + [head] + ([""] + below) + suffix + b == a + [head, ""] + below + suffix + b
  {
    assert a + [head] + ([""] + below) == a + [head, ""] + below;
  }

  // ---------------------------------------------------------------- the whole patch

  /** Where a missing marker would be put, its section is open. */
  predicate Lands(s: Setting, lines: seq<string>) {
    var at := FindLine(lines, REVIEW_HEADING);
    if at.None? then true
    else
      var (j, c) := at.value;
      if s == TargetBranch then Opens(s, lines[j][..c] + TARGET_HEADING, Open(s, lines[..j], false))
      else Open(s, lines[..j + 1], false)
  }

  lemma TargetExactly(lines: seq<string>, value: string)
    requires lines != [] && GoodValue(value) && Clean(Items(TargetBranch, lines, false))
    requires FindLine(lines, REVIEW_HEADING).Some?
    ensures var items := Items(TargetBranch, Inserted(TargetBranch, lines, value), false);
      Reading.Malformed !in items && Values(items) == if Lands(TargetBranch, lines) then [value] else []
  {
    var (j, c) := FindLine(lines, REVIEW_HEADING).value;
    TargetInserted(lines, j, c, value);
  }

  lemma {:induction false} InsertedExactly(s: Setting, lines: seq<string>, value: string)
    requires lines != [] && GoodValue(value) && Clean(Items(s, lines, false))
    ensures var items := Items(s, Inserted(s, lines, value), false);
      Reading.Malformed !in items && Values(items) == if Lands(s, lines) then [value] else []
  {
    var at := FindLine(lines, REVIEW_HEADING);
    if at.None? {
      AppendsToClean(s, lines, value);
    } else if s == TargetBranch {
      TargetExactly(lines, value);
    } else {
      InsertedBelow(s, lines, at.value.0 + 1, value);
    }
  }

  /**
   A successful patch leaves exactly one managed marker, reading back the requested value, exactly when there was
   a marker to replace or the place for a new one lies in its section. Otherwise it leaves none.
   */
  lemma PatchLeavesOne(s: Setting, lines: seq<string>, value: string)
    requires lines != [] && GoodValue(value) && Patch(s, lines, value).Success?
    ensures var after := Patch(s, lines, value).value.lines; var had := Values(Items(s, lines, false)) != [];
      && (Managed(s, after, value) <==> had || Lands(s, lines))
      && (!Managed(s, after, value) ==> Clean(Items(s, after, false)))
  {
    var items := Items(s, lines, false);
    if Values(items) == [] {
      CleanExactly(items);
      InsertedExactly(s, lines, value);
      CleanExactly(Items(s, Inserted(s, lines, value), false));
    } else {
      ReplacedIsManaged(s, lines, value);
    }
  }

  /** The line that carries the one marker is in canonical form. */
  lemma ManagedLine(s: Setting, before: seq<string>, value: string, rest: seq<string>)
    requires GoodValue(value)
    requires Managed(s, before + Below(s, value) + rest, value) && Open(s, before, false)
    ensures FirstMarked(Items(s, before + Below(s, value) + rest, false)) == |before|
  {
    var lines := before + Below(s, value) + rest;
    assert lines[..|before|] == before && lines[|before|] == MarkerLine(s, value);
    ItemsAt(s, lines, |before|);
    MarkerLineReads(s, value, true);
    SoleMarked(Items(s, lines, false), |before|);
  }

  /** The one managed marker of these lines is written canonically. */
  ghost predicate Canonical(s: Setting, lines: seq<string>, value: string) {
    && Managed(s, lines, value)
    && lines[FirstMarked(Items(s, lines, false))] == MarkerLine(s, value)
  }

  lemma BetweenIsCanonical(s: Setting, before: seq<string>, value: string, rest: seq<string>)
    requires GoodValue(value) && Open(s, before, false) && Managed(s, before + Below(s, value) + rest, value)
    ensures Canonical(s, before + Below(s, value) + rest, value)
  {
    ManagedLine(s, before, value, rest);
  }

  lemma SectionIsCanonical(s: Setting, before: seq<string>, value: string)
    requires GoodValue(value) && Managed(s, before + Section(s, value) + [""], value)
    ensures Canonical(s, before + Section(s, value) + [""], value)
  {
    var open := before + [Heading(s), ""];
    assert open + Below(s, value) + [""] == before + Section(s, value) + [""];
    ItemsConcat(s, before, [Heading(s), ""], false);
    assert [Heading(s), ""] == [Heading(s)] + [""];
    ItemsFirst(s, Heading(s), [""], Open(s, before, false));
    HeadingOpens(s, Open(s, before, false));
    BlankIsClean(s, true);
    BetweenIsCanonical(s, open, value, [""]);
  }

  lemma AppendedIsCanonical(s: Setting, lines: seq<string>, value: string)
    requires lines != [] && GoodValue(value) && Managed(s, Appended(lines, Section(s, value)), value)
    ensures Canonical(s, Appended(lines, Section(s, value)), value)
  {
    SectionIsCanonical(s, SetOff(lines), value);
  }

  lemma BranchIsCanonical(lines: seq<string>, j: nat, c: nat, value: string)
    requires j < |lines| && GoodValue(value) && Clean(Items(TargetBranch, lines, false))
    requires c <= |lines[j]| && REVIEW_HEADING <= lines[j][c..]
    requires Opens(TargetBranch, lines[j][..c] + TARGET_HEADING, Open(TargetBranch, lines[..j], false))
    ensures var s := TargetBranch;
      Canonical(
        s, lines[..j] + [lines[j][..c] + TARGET_HEADING, ""] + Below(s, value)
           + [lines[j][c..]] + lines[j + 1..], value)
  {
    var s := TargetBranch;
    var before, suffix := lines[..j] + [lines[j][..c] + TARGET_HEADING, ""], [lines[j][c..]];
    CleanBeforeHeading(lines, j, c);
    TargetInserted(lines, j, c, value);
    Associate(before + Below(s, value), suffix, lines[j + 1..]);
    BetweenIsCanonical(s, before, value, suffix + lines[j + 1..]);
  }

  lemma BelowIsCanonical(s: Setting, lines: seq<string>, n: nat, value: string)
    requires 1 <= n <= |lines| && GoodValue(value) && Clean(Items(s, lines, false)) && Open(s, lines[..n], false)
    ensures Canonical(s, lines[..n] + Below(s, value) + (if n < |lines| then lines[n..] else [""]), value)
  {
    InsertedBelow(s, lines, n, value);
    BetweenIsCanonical(s, lines[..n], value, if n < |lines| then lines[n..] else [""]);
  }

  lemma {:induction false} InsertedIsCanonical(s: Setting, lines: seq<string>, value: string)
    requires lines != [] && GoodValue(value) && Clean(Items(s, lines, false)) && Lands(s, lines)
    ensures Canonical(s, Inserted(s, lines, value), value)
  {
    var at := FindLine(lines, REVIEW_HEADING);
    if at.None? {
      AppendsToClean(s, lines, value);
      AppendedIsCanonical(s, lines, value);
    } else if s == TargetBranch {
      var (j, c) := at.value;
      assert REVIEW_HEADING <= lines[j][c..];
      BranchIsCanonical(lines, j, c, value);
    } else {
      BelowIsCanonical(s, lines, at.value.0 + 1, value);
    }
  }

  lemma CanonicalIsFixed(s: Setting, lines: seq<string>, value: string)
    requires lines != [] && Canonical(s, lines, value)
    ensures Patch(s, lines, value) == Success(Patched(lines, Some(value)))
  {
    var i := FirstMarked(Items(s, lines, false));
    assert lines[i := MarkerLine(s, value)] == lines;
  }

  /** A second patch with the same value changes nothing and finds it set, exactly under the same condition. */
  lemma PatchIsIdempotent(s: Setting, lines: seq<string>, value: string)
    requires lines != [] && GoodValue(value) && Patch(s, lines, value).Success?
    ensures var after := Patch(s, lines, value).value.lines; var had := Values(Items(s, lines, false)) != [];
      after != [] && (Patch(s, after, value) == Success(Patched(after, Some(value))) <==> had || Lands(s, lines))
  {
    PatchLeavesOne(s, lines, value);
    var items, after := Items(s, lines, false), Patch(s, lines, value).value.lines;
    if Values(items) != [] {
      ReplacedIsManaged(s, lines, value);
      CanonicalIsFixed(s, after, value);
    } else if Lands(s, lines) {
      CleanExactly(items);
      InsertedIsCanonical(s, lines, value);
      CanonicalIsFixed(s, after, value);
    } else {
      CleanExactly(Items(s, after, false));
    }
  }

  // ---------------------------------------------------------------- headings alone on their line

  lemma {:induction false} FindFirst(blank: string, word: string, tail: string)
    requires word != "" && forall i :: 0 <= i < |blank| ==> blank[i] != word[0]
    ensures Find(blank + word + tail, word) == Some(|blank|)
    decreases |blank|
  {
    var text := blank + word + tail;
    if blank == "" {
      assert text == word + tail;
    } else {
      assert text[1..] == blank[1..] + word + tail;
      FindFirst(blank[1..], word, tail);
      assert text[0] == blank[0];
    }
  }

  lemma {:induction false} TrimParts(line: string) returns (blank: string, tail: string)
    ensures line == blank + Trim(line) + tail
    ensures forall i :: 0 <= i < |blank| ==> IsWhite(blank[i])
    decreases |line|
  {
    if line != "" && IsWhite(line[0]) {
      var more: string;
      more, tail := TrimParts(line[1..]);
      blank := [line[0]] + more;
      assert line == [line[0]] + line[1..];
    } else {
      blank, tail := "", line[|TrimEnd(line)|..];
    }
  }

  lemma {:induction false} TrimStartBlank(blank: string, t: string)
    requires t != "" && !IsWhite(t[0]) && forall i :: 0 <= i < |blank| ==> IsWhite(blank[i])
    ensures TrimStart(blank + t) == t
    decreases |blank|
  {
    if blank == "" {
      assert blank + t == t;
    } else {
      assert (blank + t)[1..] == blank[1..] + t;
      TrimStartBlank(blank[1..], t);
    }
  }

  lemma OpenNext(s: Setting, lines: seq<string>, j: nat)
    requires j < |lines|
    ensures Open(s, lines[..j + 1], false) == Opens(s, lines[j], Open(s, lines[..j], false))
  {
    assert lines[..j + 1] == lines[..j] + [lines[j]];
    ItemsConcat(s, lines[..j], [lines[j]], false);
    ItemsFirst(s, lines[j], [], Open(s, lines[..j], false));
    assert [lines[j]] + [] == [lines[j]];
  }

  /** If the first review heading stands alone on its line, or there is none, the marker lands in its section. */
  lemma AloneLands(s: Setting, lines: seq<string>)
    requires var at := FindLine(lines, REVIEW_HEADING); at.None? || Trim(lines[at.value.0]) == REVIEW_HEADING
    ensures Lands(s, lines)
  {
    var at := FindLine(lines, REVIEW_HEADING);
    if at.Some? {
      var (j, c) := at.value;
      if s == TargetBranch {
        var blank, tail := TrimParts(lines[j]);
        assert REVIEW_HEADING[0] == '#';
        FindFirst(blank, REVIEW_HEADING, tail);
        assert lines[j][..c] == blank;
        TrimStartBlank(blank, TARGET_HEADING);
        TrimSolid(TARGET_HEADING);
      } else {
        OpenNext(s, lines, j);
      }
    }
  }

  /**
   A first review heading whose line starts with a hash but holds more than the heading closes the section: nothing
   managed is left, and patching again inserts again.
   */
  lemma DecoratedHeadingLoses(lines: seq<string>, value: string)
    requires lines != [] && GoodValue(value) && Clean(Items(ReviewProvider, lines, false))
    requires var at := FindLine(lines, REVIEW_HEADING);
      at.Some? && StartsWithHash(lines[at.value.0]) && Trim(lines[at.value.0]) != REVIEW_HEADING
    ensures !Lands(ReviewProvider, lines) && Patch(ReviewProvider, lines, value).Success?
    ensures Clean(Items(ReviewProvider, Patch(ReviewProvider, lines, value).value.lines, false))
  {
    OpenNext(ReviewProvider, lines, FindLine(lines, REVIEW_HEADING).value.0);
    CleanExactly(Items(ReviewProvider, lines, false));
    PatchLeavesOne(ReviewProvider, lines, value);
  }

  /** Such a file: the heading with a word after it. */
  lemma DecoratedHeading()
    ensures var lines := [REVIEW_HEADING + " (beta)"]; var at := FindLine(lines, REVIEW_HEADING);
      && Clean(Items(ReviewProvider, lines, false))
      && at == Some((0, 0)) && StartsWithHash(lines[0]) && Trim(lines[0]) != REVIEW_HEADING
  {
    var line := REVIEW_HEADING + " (beta)";
    ReviewHeadingParts(" (beta)");
    TrimSolid(line);
    assert Items(ReviewProvider, [line], false) == [NoMarker];
    assert REVIEW_HEADING <= line;
  }
}
