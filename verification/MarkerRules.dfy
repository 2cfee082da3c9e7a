/** What a managed marker is, told on the characters of the lines: where its section is, and how the line is written. */
module MarkerRules {
  import opened Prelude
  import opened WorkflowMarker
  import opened MarkerLaws

  predicate AllWhite(s: string) { forall i :: 0 <= i < |s| ==> IsWhite(s[i]) }

  /** It neither begins nor ends with white space. */
  predicate Solid(t: string) { t != "" && !IsWhite(t[0]) && !IsWhite(t[|t| - 1]) }

  // ---------------------------------------------------------------- trimming

  lemma {:induction false} StartOf(s: string) returns (a: string)
    ensures s == a + TrimStart(s) && AllWhite(a)
    decreases |s|
  {
    a := "";
    if s != "" && IsWhite(s[0]) {
      var more := StartOf(s[1..]);
      a := [s[0]] + more;
      assert s == [s[0]] + s[1..];
      Associate([s[0]], more, TrimStart(s[1..]));
    } else {
      assert "" + s == s;
    }
  }

  lemma {:induction false} EndOf(s: string) returns (c: string)
    ensures s == TrimEnd(s) + c && AllWhite(c)
    decreases |s|
  {
    c := "";
    if s != "" && IsWhite(s[|s| - 1]) {
      var init, last := s[..|s| - 1], [s[|s| - 1]];
      var more := EndOf(init);
      c := more + last;
      assert s == init + last;
      Associate(TrimEnd(init), more, last);
    } else {
      assert s + "" == s;
    }
  }

  lemma {:induction false} EndTrimmed(t: string, c: string)
    requires t != "" && !IsWhite(t[|t| - 1]) && AllWhite(c)
    ensures TrimEnd(t + c) == t
    decreases |c|
  {
    if c == "" {
      assert t + c == t;
    } else {
      assert (t + c)[..|t + c| - 1] == t + c[..|c| - 1];
      EndTrimmed(t, c[..|c| - 1]);
    }
  }

  ghost predicate Within(line: string, t: string) { exists a, c :: AllWhite(a) && AllWhite(c) && line == a + (t + c) }

  /** Trimming leaves a solid text exactly when there is only white space around it. */
  lemma TrimExactly(line: string, t: string)
    requires Solid(t)
    ensures Trim(line) == t <==> Within(line, t)
  {
    if Trim(line) == t {
      var a := StartOf(line);
      var c := EndOf(TrimStart(line));
      assert line == a + (t + c);
    }
    if Within(line, t) {
      var a, c :| AllWhite(a) && AllWhite(c) && line == a + (t + c);
      TrimStartBlank(a, t + c);
      EndTrimmed(t, c);
    }
  }

  lemma EmptyExactly(s: string)
    ensures Trim(s) == "" <==> AllWhite(s)
  {
    if Trim(s) == "" {
      var a := StartOf(s);
      var c := EndOf(TrimStart(s));
      assert "" + c == c;
    } else {
      var a := StartOf(s);
      var t := TrimStart(s);
      assert t != "" && s[|a|] == t[0];
    }
  }

  // ---------------------------------------------------------------- how a marker line is written

  /** The marker, then between backticks a value that is not blank and holds none; white space around either. */
  ghost predicate Written(line: string, marker: string, value: string) {
    && (exists a, b :: AllWhite(a) && line == a + (marker + b) && Within(b, "`" + value + "`"))
    && '`' !in value && !AllWhite(value)
  }

  ghost predicate StartsAs(line: string, marker: string) {
    exists a, b :: AllWhite(a) && line == a + (marker + b)
  }

  lemma StartExactly(line: string, marker: string)
    requires marker != "" && !IsWhite(marker[0])
    ensures marker <= TrimStart(line) <==> StartsAs(line, marker)
    ensures forall a, b :: AllWhite(a) && line == a + (marker + b) ==> TrimStart(line) == marker + b
  {
    if marker <= TrimStart(line) {
      var a := StartOf(line);
      assert TrimStart(line) == marker + TrimStart(line)[|marker|..];
    }
    forall a, b | AllWhite(a) && line == a + (marker + b) ensures TrimStart(line) == marker + b {
      TrimStartBlank(a, marker + b);
    }
  }

  lemma QuotedIsSolid(value: string)
    ensures Solid("`" + value + "`") && ("`" + value + "`")[1..|value| + 1] == value
    ensures |"`" + value + "`"| == |value| + 2
  {
  }

  lemma QuotedExactly(rest: string, value: string)
    ensures (|rest| >= 2 && rest[0] == '`' && rest[|rest| - 1] == '`' && rest[1..|rest| - 1] == value)
            <==> rest == "`" + value + "`"
  {
    if |rest| >= 2 && rest[0] == '`' && rest[|rest| - 1] == '`' && rest[1..|rest| - 1] == value {
      assert rest == [rest[0]] + rest[1..|rest| - 1] + [rest[|rest| - 1]];
    }
  }

  /** A line reads as a marker with this value exactly when it is written so. */
  lemma ReadsExactly(line: string, marker: string, value: string)
    requires marker != "" && !IsWhite(marker[0])
    ensures ReadLine(line, marker) == Marked(value) <==> Written(line, marker, value)
    ensures ReadLine(line, marker) == NoMarker <==> !StartsAs(line, marker)
  {
    StartExactly(line, marker);
    if marker <= TrimStart(line) {
      var b := TrimStart(line)[|marker|..];
      assert TrimStart(line) == marker + b;
      QuotedIsSolid(value);
      TrimExactly(b, "`" + value + "`");
      QuotedExactly(Trim(b), value);
      EmptyExactly(value);
      var a := StartOf(line);
      assert line == a + (marker + b);
      forall a', b' | AllWhite(a') && line == a' + (marker + b') ensures b' == b {
        assert (marker + b')[|marker|..] == b' && (marker + b)[|marker|..] == b;
      }
    }
  }

  // ---------------------------------------------------------------- where its section is

  lemma HeadingIsSolid(s: Setting)
    ensures Solid(Heading(s)) && Heading(s)[0] == '#'
    ensures Marker(s) != "" && !IsWhite(Marker(s)[0])
  {
    var last := Heading(s)[|Heading(s)| - 1];
    assert last == if s == TargetBranch then 't' else 'w';
  }

  ghost predicate HeadingLine(s: Setting, line: string) { Within(line, Heading(s)) }

  ghost predicate HashLine(line: string) { StartsAs(line, "#") }

  lemma HashExactly(line: string)
    ensures StartsWithHash(line) <==> HashLine(line)
  {
    StartExactly(line, "#");
    assert "#" <= TrimStart(line) <==> TrimStart(line) != "" && TrimStart(line)[0] == '#';
  }

  lemma HeadingStartsWithHash(s: Setting, line: string)
    requires Trim(line) == Heading(s)
    ensures StartsWithHash(line)
  {
    HeadingIsSolid(s);
    assert TrimEnd(TrimStart(line)) <= TrimStart(line);
  }

  /** The section is open after these lines: some heading has no line starting with a hash behind it. */
  ghost predicate Inside(s: Setting, lines: seq<string>) {
    exists j :: 0 <= j < |lines| && HeadingLine(s, lines[j]) && NoHash(lines, j)
  }

  ghost predicate NoHash(lines: seq<string>, j: nat) { forall k :: j < k < |lines| ==> !HashLine(lines[k]) }

  lemma {:induction false} OpenExactly(s: Setting, lines: seq<string>)
    ensures Open(s, lines, false) <==> Inside(s, lines)
    decreases |lines|
  {
    if lines != [] {
      var n := |lines| - 1;
      var before, last := lines[..n], lines[n];
      OpenExactly(s, before);
      OpenNext(s, lines, n);
      assert lines[..n + 1] == lines;
      assert lines == before + [last];
      InsideStep(s, before, last);
    }
  }

  lemma InsideStep(s: Setting, before: seq<string>, last: string)
    ensures Inside(s, before + [last]) <==> HeadingHere(s, last) || (Inside(s, before) && !StartsWithHash(last))
  {
    HeadingIsSolid(s);
    TrimExactly(last, Heading(s));
    HashExactly(last);
    if HeadingLine(s, last) {
      var lines, n := before + [last], |before|;
      assert HeadingLine(s, lines[n]) && NoHash(lines, n);
    } else {
      InsideNext(s, before, last);
    }
  }

  predicate HeadingHere(s: Setting, line: string) { Trim(line) == Heading(s) }

  lemma InsideNext(s: Setting, before: seq<string>, last: string)
    requires !HeadingLine(s, last)
    ensures Inside(s, before + [last]) <==> Inside(s, before) && !HashLine(last)
  {
    var lines := before + [last];
    if Inside(s, lines) {
      var j :| 0 <= j < |lines| && HeadingLine(s, lines[j]) && NoHash(lines, j);
      assert j < |before| && lines[|before|] == last;
      assert forall k :: j < k < |before| ==> before[k] == lines[k];
      assert NoHash(before, j);
    }
    if Inside(s, before) && !HashLine(last) {
      var j :| 0 <= j < |before| && HeadingLine(s, before[j]) && NoHash(before, j);
      assert NoHash(lines, j) && lines[j] == before[j];
    }
  }

  /** Line `i` is a managed marker with this value exactly when it stands in its section and is written so. */
  lemma MarkedExactly(s: Setting, lines: seq<string>, i: nat, value: string)
    requires i < |lines|
    ensures Items(s, lines, false)[i] == Marked(value) <==>
            Inside(s, lines[..i]) && !HashLine(lines[i]) && Written(lines[i], Marker(s), value)
    ensures Items(s, lines, false)[i] == NoMarker <==>
            !Inside(s, lines[..i]) || HashLine(lines[i]) || !StartsAs(lines[i], Marker(s))
  {
    ItemsAt(s, lines, i);
    OpenExactly(s, lines[..i]);
    HashExactly(lines[i]);
    HeadingIsSolid(s);
    ReadsExactly(lines[i], Marker(s), value);
    if Trim(lines[i]) == Heading(s) {
      HeadingStartsWithHash(s, lines[i]);
    }
  }

  /** The place of a word in a text is its first occurrence. */
  lemma {:induction false} FindExactly(text: string, word: string)
    ensures Find(text, word).None? <==> forall i :: 0 <= i <= |text| ==> !(word <= text[i..])
    ensures Find(text, word).Some? ==>
              var i := Find(text, word).value;
              i <= |text| && word <= text[i..] && forall j :: 0 <= j < i ==> !(word <= text[j..])
    decreases |text|
  {
    assert text[0..] == text;
    if !(word <= text) {
      if text == "" {
        assert forall i :: 0 <= i <= |text| ==> text[i..] == text;
      } else {
        var rest := text[1..];
        FindExactly(rest, word);
        assert forall i :: 0 <= i <= |rest| ==> rest[i..] == text[i + 1..];
        forall i | 0 <= i <= |text| ensures word <= text[i..] <==> i > 0 && word <= rest[i - 1..] {
        }
      }
    }
  }

  // ---------------------------------------------------------------- what a patch refuses and what it reports

  /** Two of the lines are markers. */
  predicate Several(items: seq<Reading>) {
    exists i, j :: 0 <= i < j < |items| && items[i].Marked? && items[j].Marked?
  }

  predicate AnyMarked(items: seq<Reading>) { exists i :: 0 <= i < |items| && items[i].Marked? }

  lemma {:induction false} ValuesExactly(items: seq<Reading>)
    ensures |Values(items)| == 0 <==> !AnyMarked(items)
    ensures |Values(items)| >= 2 <==> Several(items)
  {
    if items != [] {
      var rest := items[1..];
      ValuesExactly(rest);
      if AnyMarked(rest) {
        var i :| 0 <= i < |rest| && rest[i].Marked?;
        assert items[i + 1].Marked?;
      }
      if Several(rest) {
        var i, j :| 0 <= i < j < |rest| && rest[i].Marked? && rest[j].Marked?;
        assert items[i + 1].Marked? && items[j + 1].Marked?;
      }
      if AnyMarked(items) && !items[0].Marked? {
        var i :| 0 <= i < |items| && items[i].Marked?;
        assert rest[i - 1].Marked?;
      }
      if Several(items) {
        var i, j :| 0 <= i < j < |items| && items[i].Marked? && items[j].Marked?;
        assert rest[j - 1].Marked? && (i > 0 ==> rest[i - 1].Marked?);
      }
    }
  }

  /** A patch is refused exactly for a marker line that is not well written, or else for a second marker. */
  lemma RefusesExactly(s: Setting, lines: seq<string>, value: string)
    requires lines != []
    ensures var items, p := Items(s, lines, false), Patch(s, lines, value);
      && (p == Failure(MalformedMarker) <==> exists i :: 0 <= i < |items| && items[i] == Reading.Malformed)
      && (p == Failure(MultipleMarkers) <==>
            Several(items) && forall i :: 0 <= i < |items| ==> items[i] != Reading.Malformed)
  {
    ValuesExactly(Items(s, lines, false));
  }

  /** It reports the value that the one marker had, and gives that line the new value; without one it reports none. */
  lemma ReportsExactly(s: Setting, lines: seq<string>, value: string, i: nat)
    requires lines != [] && i < |lines| && Patch(s, lines, value).Success?
    ensures var items, patched := Items(s, lines, false), Patch(s, lines, value).value;
      && (items[i].Marked? ==>
            patched.previous == Some(items[i].value) && patched.lines == lines[i := MarkerLine(s, value)])
      && (!AnyMarked(items) ==> patched.previous == None)
  {
    var items := Items(s, lines, false);
    ValuesExactly(items);
    if items[i].Marked? {
      var k := FirstMarked(items);
      assert k == i;
    }
  }
}
