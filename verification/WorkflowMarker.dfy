/**
 The managed marker lines of a workflow file: how they are read, and how one is set.

 A file is its lines, split at every line feed; the last line is empty when the file ends with one. A marker is
 managed only inside its section: from the section's heading to the next line that starts with a hash.
 */
module WorkflowMarker {
  import opened Prelude

  datatype Setting = TargetBranch | ReviewProvider

  const TARGET_HEADING: string := "## Branch target"
  const REVIEW_HEADING: string := "## Automated AI PR review"
  const TARGET_MARKER: string := "Target branch:"
  const REVIEW_MARKER: string := "Active review provider:"

  function Heading(s: Setting): string { if s == TargetBranch then TARGET_HEADING else REVIEW_HEADING }

  function Marker(s: Setting): string { if s == TargetBranch then TARGET_MARKER else REVIEW_MARKER }

  /** The Unicode White_Space property. */
  predicate IsWhite(c: char) {
    var v := c as int;
    || 0x09 <= v <= 0x0D || v == 0x20 || v == 0x85 || v == 0xA0 || v == 0x1680 || 0x2000 <= v <= 0x200A
    || v == 0x2028 || v == 0x2029 || v == 0x202F || v == 0x205F || v == 0x3000
  }

  function TrimStart(s: string): (r: string)
    ensures r == "" || !IsWhite(r[0])
  {
    if s != "" && IsWhite(s[0]) then TrimStart(s[1..]) else s
  }

  function TrimEnd(s: string): (r: string)
    ensures r <= s && (r == "" || !IsWhite(r[|r| - 1]))
  {
    if s != "" && IsWhite(s[|s| - 1]) then TrimEnd(s[..|s| - 1]) else s
  }

  function Trim(s: string): string { TrimEnd(TrimStart(s)) }

  datatype Reading = NoMarker | Malformed | Marked(value: string)

  /** A marker line is the marker, then one value between backticks. */
  function ReadLine(line: string, marker: string): Reading {
    var trimmed := TrimStart(line);
    if !(marker <= trimmed) then NoMarker
    else
      var rest := Trim(trimmed[|marker|..]);
      if |rest| < 2 || rest[0] != '`' || rest[|rest| - 1] != '`' then Malformed
      else
        var value := rest[1..|rest| - 1];
        if Trim(value) == "" || '`' in value then Malformed else Marked(value)
  }

  predicate StartsWithHash(line: string) { TrimStart(line) != "" && TrimStart(line)[0] == '#' }

  /** Whether the section is open after a line. */
  predicate Opens(s: Setting, line: string, open: bool) {
    Trim(line) == Heading(s) || (open && !StartsWithHash(line))
  }

  function Item(s: Setting, line: string, open: bool): Reading {
    if Trim(line) == Heading(s) || !open || StartsWithHash(line) then NoMarker else ReadLine(line, Marker(s))
  }

  function Open(s: Setting, lines: seq<string>, open: bool): bool {
    if lines == [] then open else Open(s, lines[1..], Opens(s, lines[0], open))
  }

  /** What each line is, read in order from a state of the section. */
  function Items(s: Setting, lines: seq<string>, open: bool): (r: seq<Reading>)
    ensures |r| == |lines|
  {
    if lines == [] then [] else [Item(s, lines[0], open)] + Items(s, lines[1..], Opens(s, lines[0], open))
  }

  function Values(items: seq<Reading>): seq<string> {
    if items == [] then [] else (if items[0].Marked? then [items[0].value] else []) + Values(items[1..])
  }

  function FirstMarked(items: seq<Reading>): (i: nat)
    requires Values(items) != []
    ensures i < |items| && items[i].Marked? && items[i].value == Values(items)[0]
  {
    if items[0].Marked? then 0 else 1 + FirstMarked(items[1..])
  }

  function MarkerLine(s: Setting, value: string): string { Marker(s) + " `" + value + "`" }

  function SetBy(option: string): string {
    "<!-- Set by `opensymphony " + ("init` or `opensymphony " + ("update " + option))
  }

  function Providers(): string { "--code-review`; " + ("valid values: " + ("`openhands`, `codex`, " + "`none`. -->")) }

  function ValueIs(): string {
    "Value is a local " + ("branch name, not an " + ("`origin/...` ref. " + "Agents should use"))
  }

  function WhenSyncing(): string {
    "`origin/<target-" + ("branch>` when syncing, " + ("creating replacement " + "branches, and"))
  }

  /** The explanation below an inserted marker, line by line. */
  function CommentLine(s: Setting, k: nat): string {
    if s == ReviewProvider then SetBy(Providers())
    else if k == 0 then SetBy("--target-branch`.")
    else if k == 1 then "     " + ValueIs()
    else if k == 2 then "     " + WhenSyncing()
    else "     " + "preparing PRs. -->"
  }

  function Comment(s: Setting): seq<string> {
    seq(if s == TargetBranch then 4 else 1, k requires 0 <= k => CommentLine(s, k))
  }

  /** The lines below an inserted marker. */
  function Tail(s: Setting): seq<string> { [""] + Comment(s) + (if s == TargetBranch then [""] else []) }

  function Below(s: Setting, value: string): seq<string> { [MarkerLine(s, value)] + Tail(s) }

  /** The section as inserted, without what follows its last line feed. */
  function Section(s: Setting, value: string): seq<string> { [Heading(s), ""] + Below(s, value) }

  /** The first position of `word` in a text. */
  function Find(text: string, word: string): (r: Option<nat>)
    ensures r.Some? ==> r.value + |word| <= |text| && text[r.value..][..|word|] == word
  {
    if word <= text then Some(0)
    else if text == "" then None
    else
      var rest := Find(text[1..], word);
      if rest.None? then None else Some(rest.value + 1)
  }

  /** The first line that contains `word`, and where in it. */
  function FindLine(lines: seq<string>, word: string): (r: Option<(nat, nat)>)
    ensures r.Some? ==> r.value.0 < |lines| && Find(lines[r.value.0], word) == Some(r.value.1)
  {
    if lines == [] then None
    else if Find(lines[0], word).Some? then Some((0, Find(lines[0], word).value))
    else
      var rest := FindLine(lines[1..], word);
      if rest.None? then None else Some((rest.value.0 + 1, rest.value.1))
  }

  predicate IsFile(lines: seq<string>) { lines != [] && forall i :: 0 <= i < |lines| ==> '\n' !in lines[i] }

  function Last(lines: seq<string>): string
    requires lines != []
  {
    lines[|lines| - 1]
  }

  /** The file with its last line ended. */
  function Ended(lines: seq<string>): (r: seq<string>)
    requires lines != []
    ensures r != [] && lines <= r
  {
    if Last(lines) != "" then lines + [""] else lines
  }

  /** The lines that an appended section follows, each of them ended: one empty line sets it off. */
  function SetOff(lines: seq<string>): seq<string>
    requires lines != []
  {
    if lines == [""] then []
    else
      var ended := Ended(lines);
      if |ended| >= 3 && ended[|ended| - 2] == "" then ended[..|ended| - 1] else ended
  }

  function Appended(lines: seq<string>, section: seq<string>): seq<string>
    requires lines != []
  {
    SetOff(lines) + section + [""]
  }

  /**
   Where a missing marker goes: a branch section before the review heading, a provider right below it, else at the end.
   */
  function InsertedAt(s: Setting, lines: seq<string>, at: Option<(nat, nat)>, value: string): seq<string>
    requires lines != [] && (at.Some? ==> at.value.0 < |lines| && at.value.1 <= |lines[at.value.0]|)
  {
    if at.None? then Appended(lines, Section(s, value))
    else
      var (j, c) := at.value;
      if s == TargetBranch then
        lines[..j] + [lines[j][..c] + Heading(s), ""] + Below(s, value) + [lines[j][c..]] + lines[j + 1..]
      else
        lines[..j + 1] + Below(s, value) + (if j + 1 < |lines| then lines[j + 1..] else [""])
  }

  function Inserted(s: Setting, lines: seq<string>, value: string): seq<string>
    requires lines != []
  {
    InsertedAt(s, lines, FindLine(lines, REVIEW_HEADING), value)
  }

  datatype Error = MalformedMarker | MultipleMarkers

  datatype Patched = Patched(lines: seq<string>, previous: Option<string>)

  function Patch(s: Setting, lines: seq<string>, value: string): Result<Patched, Error>
    requires lines != []
  {
    var items := Items(s, lines, false);
    if Reading.Malformed in items then Failure(MalformedMarker)
    else
      var values := Values(items);
      if |values| == 0 then Success(Patched(Inserted(s, lines, value), None))
      else if |values| == 1 then Success(Patched(lines[FirstMarked(items) := MarkerLine(s, value)], Some(values[0])))
      else Failure(MultipleMarkers)
  }
}
