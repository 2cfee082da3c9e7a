/** What a version text says and which of two versions comes first, told on the texts and numbers themselves. */
module ReleaseRules {
  import opened Prelude
  import opened Release

  // ---------------------------------------------------------------- cutting text

  lemma {:induction false} SplitOnceExactly(s: string, c: char)
    ensures SplitOnce(s, c).None? <==> c !in s
    ensures SplitOnce(s, c).Some? ==> var (a, b) := SplitOnce(s, c).value; s == (a + [c]) + b && c !in a
  {
    if s != "" && s[0] != c {
      SplitOnceExactly(s[1..], c);
      if SplitOnce(s[1..], c).Some? {
        var (a, b) := SplitOnce(s[1..], c).value;
        assert s == [s[0]] + s[1..] && ([s[0]] + a) + [c] == [s[0]] + (a + [c]);
      }
    }
  }

  function Join(parts: seq<string>): string
    requires parts != []
  {
    if |parts| == 1 then parts[0] else parts[0] + ("." + Join(parts[1..]))
  }

  predicate NoDots(parts: seq<string>) { forall i :: 0 <= i < |parts| ==> '.' !in parts[i] }

  lemma SplitDotsFirst(c: char, s: string)
    ensures SplitDots([c] + s) == if c == '.' then [""] + SplitDots(s) else [[c] + SplitDots(s)[0]] + SplitDots(s)[1..]
  {
    assert ([c] + s)[1..] == s;
  }

  lemma JoinFirst(part: string, rest: seq<string>)
    requires rest != []
    ensures Join([part] + rest) == part + ("." + Join(rest))
  {
    assert ([part] + rest)[1..] == rest;
  }

  lemma {:induction false} SplitDotsJoins(s: string)
    ensures NoDots(SplitDots(s)) && Join(SplitDots(s)) == s
  {
    if s != "" {
      var c, t := s[0], s[1..];
      assert s == [c] + t;
      SplitDotsFirst(c, t);
      SplitDotsJoins(t);
      var parts := SplitDots(t);
      if c == '.' {
        JoinFirst("", parts);
        assert "" + ("." + t) == s;
      } else if |parts| == 1 {
        assert parts[1..] == [] && [[c] + parts[0]] + [] == [[c] + parts[0]];
      } else {
        JoinFirst([c] + parts[0], parts[1..]);
        assert parts == [parts[0]] + parts[1..];
        JoinFirst(parts[0], parts[1..]);
        Associate([c], parts[0], "." + Join(parts[1..]));
      }
    }
  }

  lemma {:induction false} PlainSplits(part: string, rest: string)
    requires '.' !in part
    ensures SplitDots(part + ("." + rest)) == [part] + SplitDots(rest) && SplitDots(part) == [part]
    decreases |part|
  {
    if part == "" {
      assert part + ("." + rest) == ['.'] + rest;
      SplitDotsFirst('.', rest);
    } else {
      var c, t := part[0], part[1..];
      PlainSplits(t, rest);
      assert part == [c] + t && part + ("." + rest) == [c] + (t + ("." + rest));
      SplitDotsFirst(c, t + ("." + rest));
      SplitDotsFirst(c, t);
      assert ([t] + SplitDots(rest))[1..] == SplitDots(rest) && [t][1..] == [];
      assert [[c] + t] + [] == [part];
    }
  }

  lemma {:induction false} JoinSplits(parts: seq<string>)
    requires parts != [] && NoDots(parts)
    ensures SplitDots(Join(parts)) == parts
  {
    var part, rest := parts[0], parts[1..];
    assert parts == [part] + rest;
    if rest == [] {
      PlainSplits(part, "");
      assert parts == [part];
    } else {
      JoinFirst(part, rest);
      PlainSplits(part, Join(rest));
      JoinSplits(rest);
    }
  }

  // ---------------------------------------------------------------- what a version text says

  predicate IsNumber(s: string, n: nat) { s != "" && IsDigits(s) && Decimal(s) == n <= 0xFFFF_FFFF_FFFF_FFFF }

  /** An identifier is a number when it is all digits, and itself otherwise. */
  predicate Says(s: string, id: Identifier) {
    if IsDigits(s) then id.Numeric? && IsNumber(s, id.n) else id == Text(s)
  }

  lemma {:induction false} IdentifiersExactly(parts: seq<string>, ids: seq<Identifier>)
    ensures ParseIdentifiers(parts) == Some(ids) <==>
            |ids| == |parts| && forall i :: 0 <= i < |parts| ==> Says(parts[i], ids[i])
  {
    if parts != [] {
      if ids == [] {
        assert ParseIdentifiers(parts) != Some(ids);
      } else {
        IdentifiersExactly(parts[1..], ids[1..]);
        FirstSays(parts, ids);
        assert ids == [ids[0]] + ids[1..];
      }
    }
  }

  lemma FirstSays(parts: seq<string>, ids: seq<Identifier>)
    requires parts != [] && ids != []
    ensures (|ids| == |parts| && forall i :: 0 <= i < |parts| ==> Says(parts[i], ids[i])) <==>
            && Says(parts[0], ids[0])
            && |ids[1..]| == |parts[1..]| && forall i :: 0 <= i < |parts[1..]| ==> Says(parts[1..][i], ids[1..][i])
  {
    if |ids| == |parts| && forall i :: 0 <= i < |parts[1..]| ==> Says(parts[1..][i], ids[1..][i]) {
      forall i | 1 <= i < |parts| ensures Says(parts[i], ids[i]) {
        assert Says(parts[1..][i - 1], ids[1..][i - 1]);
      }
    }
  }

  /** The identifiers of a pre-release, between its dots. */
  ghost predicate IdentifiersOf(pre: string, ids: seq<Identifier>) {
    exists parts: seq<string> ::
      && parts != [] && NoDots(parts) && pre == Join(parts) && |ids| == |parts|
      && forall i :: 0 <= i < |parts| ==> Says(parts[i], ids[i])
  }

  lemma PreExactly(pre: string, ids: seq<Identifier>)
    ensures ParseIdentifiers(SplitDots(pre)) == Some(ids) <==> IdentifiersOf(pre, ids)
  {
    SplitDotsJoins(pre);
    IdentifiersExactly(SplitDots(pre), ids);
    forall parts: seq<string> | parts != [] && NoDots(parts) && pre == Join(parts) ensures SplitDots(pre) == parts {
      JoinSplits(parts);
    }
  }

  function Core(major: string, minor: string, patch: string): string { major + ("." + (minor + ("." + patch))) }

  function Tail(mark: char, s: Option<string>): string { if s.Some? then [mark] + s.value else "" }

  /** Three numbers between dots. */
  ghost predicate CoreOf(core: string, v: Version) {
    exists major, minor, patch ::
      && core == Core(major, minor, patch)
      && IsNumber(major, v.major) && IsNumber(minor, v.minor) && IsNumber(patch, v.patch)
  }

  /** `s` spells `v`: its three numbers, a pre-release after the first hyphen, and any build after a plus. */
  ghost predicate Spells(s: string, v: Version) {
    exists core, pre: Option<string>, build: Option<string> :: Spelled(s, v, core, pre, build)
  }

  ghost predicate Spelled(s: string, v: Version, core: string, pre: Option<string>, build: Option<string>) {
    && s == (core + Tail('-', pre)) + Tail('+', build)
    && CoreOf(core, v)
    && (pre.None? ==> v.pre.None?)
    && (pre.Some? ==> '+' !in pre.value && v.pre.Some? && IdentifiersOf(pre.value, v.pre.value))
  }

  lemma CoreSplits(major: string, minor: string, patch: string)
    requires IsDigits(major) && IsDigits(minor) && IsDigits(patch)
    ensures SplitDots(Core(major, minor, patch)) == [major, minor, patch]
    ensures '-' !in Core(major, minor, patch) && '+' !in Core(major, minor, patch)
  {
    PlainSplits(major, minor + ("." + patch));
    PlainSplits(minor, patch);
    PlainSplits(patch, "");
    assert [major] + ([minor] + [patch]) == [major, minor, patch];
  }

  lemma CoreJoins(s: string)
    requires |SplitDots(s)| == 3
    ensures var parts := SplitDots(s); s == Core(parts[0], parts[1], parts[2])
  {
    SplitDotsJoins(s);
    var parts := SplitDots(s);
    assert parts[1..][1..] == [parts[2]] && parts[1..][0] == parts[1];
    assert Join(parts[1..]) == parts[1] + ("." + Join(parts[1..][1..]));
  }

  lemma CoreExactly(core: string, v: Version)
    ensures ParseCore(SplitDots(core)) == Some(v.(pre := None)) <==> CoreOf(core, v)
    ensures CoreOf(core, v) ==> '-' !in core && '+' !in core
  {
    if ParseCore(SplitDots(core)) == Some(v.(pre := None)) {
      CoreJoins(core);
    }
    if CoreOf(core, v) {
      var major, minor, patch :| core == Core(major, minor, patch) && IsNumber(major, v.major)
                                 && IsNumber(minor, v.minor) && IsNumber(patch, v.patch);
      CoreSplits(major, minor, patch);
    }
  }

  lemma CutAt(s: string, mark: char, tail: Option<string>)
    requires mark !in s
    ensures SplitOnce(s + Tail(mark, tail), mark) == if tail.Some? then Some((s, tail.value)) else None
  {
    if tail.Some? {
      SplitAtFirst(s, mark, tail.value);
      assert s + ([mark] + tail.value) == s + [mark] + tail.value;
    } else {
      SplitOnceExactly(s, mark);
      assert s + "" == s;
    }
  }

  /** Cutting a text at its first mark, the other way round. */
  lemma CutJoins(s: string, mark: char) returns (head: string, tail: Option<string>)
    ensures s == head + Tail(mark, tail) && mark !in head
    ensures SplitOnce(s, mark) == if tail.Some? then Some((head, tail.value)) else None
    ensures tail.None? ==> head == s
  {
    SplitOnceExactly(s, mark);
    var cut := SplitOnce(s, mark);
    if cut.Some? {
      head, tail := cut.value.0, Some(cut.value.1);
      assert (head + [mark]) + cut.value.1 == head + ([mark] + cut.value.1);
    } else {
      head, tail := s, None;
      assert s + "" == s;
    }
  }

  lemma PreReads(pre: string, ids: Option<seq<Identifier>>)
    ensures var read := ParseIdentifiers(SplitDots(pre));
      && read != Some([])
      && (ids.Some? ==> (read == ids <==> IdentifiersOf(pre, ids.value)))
  {
    if ids.Some? {
      PreExactly(pre, ids.value);
    }
    IdentifiersExactly(SplitDots(pre), []);
  }

  /** What the two cuts of a text read as. */
  lemma CutsRead(s: string, rest: string, core: string, pre: Option<string>, build: Option<string>, v: Version)
    requires SplitOnce(s, '+') == if build.Some? then Some((rest, build.value)) else None
    requires SplitOnce(rest, '-') == if pre.Some? then Some((core, pre.value)) else None
    requires (build.None? ==> s == rest) && (pre.None? ==> rest == core)
    ensures Parse(s) == Some(v) <==>
              && CoreOf(core, v) && (pre.None? ==> v.pre.None?)
              && (pre.Some? ==> v.pre.Some? && IdentifiersOf(pre.value, v.pre.value))
  {
    CoreExactly(core, v);
    assert WithoutBuild(s) == rest;
    if pre.Some? {
      PreReads(pre.value, v.pre);
    }
  }

  lemma InFirst(c: char, a: string, b: string)
    requires c !in a + b
    ensures c !in a && c !in b
  {
    assert forall i :: 0 <= i < |a| ==> (a + b)[i] == a[i];
    assert forall i :: 0 <= i < |b| ==> (a + b)[|a| + i] == b[i];
  }

  lemma ReadsSpells(s: string, v: Version)
    requires Parse(s) == Some(v)
    ensures Spells(s, v)
  {
    var rest, build := CutJoins(s, '+');
    var core, pre := CutJoins(rest, '-');
    CutsRead(s, rest, core, pre, build, v);
    InFirst('+', core, Tail('-', pre));
    if pre.Some? {
      InFirst('+', ['-'], pre.value);
    }
    assert Spelled(s, v, core, pre, build);
  }

  lemma SpelledReads(s: string, v: Version, core: string, pre: Option<string>, build: Option<string>)
    requires Spelled(s, v, core, pre, build)
    ensures Parse(s) == Some(v)
  {
    CoreExactly(core, v);
    CutAt(core, '-', pre);
    assert '+' !in core + Tail('-', pre);
    CutAt(core + Tail('-', pre), '+', build);
    assert pre.None? ==> core + "" == core;
    assert build.None? ==> (core + Tail('-', pre)) + "" == core + Tail('-', pre);
    CutsRead(s, core + Tail('-', pre), core, pre, build, v);
  }

  /** A text is read as a version exactly when it spells it, so as one version at most. */
  lemma ParsesExactly(s: string, v: Version)
    ensures Parse(s) == Some(v) <==> Spells(s, v)
  {
    if Parse(s) == Some(v) {
      ReadsSpells(s, v);
    }
    if Spells(s, v) {
      var core, pre: Option<string>, build: Option<string> :| Spelled(s, v, core, pre, build);
      SpelledReads(s, v, core, pre, build);
    }
  }

  // ---------------------------------------------------------------- decimal numbers

  function Digit(n: nat): char
    requires n < 10
  {
    ('0' as int + n) as char
  }

  /** The usual digits of a number. */
  function Digits(n: nat): string {
    if n < 10 then [Digit(n)] else Digits(n / 10) + [Digit(n % 10)]
  }

  /** A number is read back from its digits, leading zeros or not. */
  lemma {:induction false} DigitsRead(n: nat)
    ensures Digits(n) != "" && IsDigits(Digits(n)) && Decimal(Digits(n)) == n
  {
    if n >= 10 {
      DigitsRead(n / 10);
    }
    assert Digits(n)[..|Digits(n)| - 1] == if n < 10 then "" else Digits(n / 10);
  }

  // ---------------------------------------------------------------- which version comes first

  /** The texts agree up to `i`, where the first ends or has the smaller character. */
  predicate TextLessAt(a: string, b: string, i: nat) {
    && i <= |a| && i <= |b| && a[..i] == b[..i]
    && if i == |a| then i < |b| else i < |b| && a[i] < b[i]
  }

  ghost predicate TextLess(a: string, b: string) { exists i: nat :: TextLessAt(a, b, i) }

  lemma {:induction false} TextExactly(a: string, b: string)
    ensures CompareText(a, b) == Less <==> TextLess(a, b)
    decreases |a|
  {
    if a == "" || b == "" {
      if a == "" && b != "" {
        assert TextLessAt(a, b, 0);
      }
    } else {
      TextExactly(a[1..], b[1..]);
      if TextLess(a[1..], b[1..]) && a[0] == b[0] {
        var i: nat :| TextLessAt(a[1..], b[1..], i);
        assert a[..i + 1] == [a[0]] + a[1..][..i] && b[..i + 1] == [b[0]] + b[1..][..i];
        assert TextLessAt(a, b, i + 1);
      }
      if a[0] < b[0] {
        assert TextLessAt(a, b, 0);
      }
      if TextLess(a, b) {
        var i: nat :| TextLessAt(a, b, i);
        if i > 0 {
          assert a[..i][0] == a[0] && b[..i][0] == b[0];
          assert a[1..][..i - 1] == a[..i][1..] && b[1..][..i - 1] == b[..i][1..];
          assert TextLessAt(a[1..], b[1..], i - 1);
        }
      }
    }
  }

  /** Numbers come before text, and each in its own order. */
  ghost predicate IdentifierLess(a: Identifier, b: Identifier) {
    match (a, b)
    case (Numeric(m), Numeric(n)) => m < n
    case (Numeric(_), Text(_)) => true
    case (Text(_), Numeric(_)) => false
    case (Text(s), Text(t)) => TextLess(s, t)
  }

  ghost predicate IdentifiersLessAt(a: seq<Identifier>, b: seq<Identifier>, i: nat) {
    && i <= |a| && i <= |b| && a[..i] == b[..i]
    && if i == |a| then i < |b| else i < |b| && IdentifierLess(a[i], b[i])
  }

  ghost predicate IdentifiersLess(a: seq<Identifier>, b: seq<Identifier>) {
    exists i: nat :: IdentifiersLessAt(a, b, i)
  }

  lemma IdentifierExactly(a: Identifier, b: Identifier)
    ensures CompareIdentifier(a, b) == Less <==> IdentifierLess(a, b)
    ensures CompareIdentifier(a, b) == Equal <==> a == b
    ensures !IdentifierLess(a, a)
  {
    IdentifierOrder(a, b, b);
    IdentifierOrder(a, a, a);
    if a.Text? && b.Text? {
      TextExactly(a.s, b.s);
    }
    if a.Text? {
      TextExactly(a.s, a.s);
      TextOrder(a.s, a.s, a.s);
    }
  }

  lemma {:induction false} IdentifiersCompare(a: seq<Identifier>, b: seq<Identifier>)
    ensures CompareIdentifiers(a, b) == Less <==> IdentifiersLess(a, b)
    decreases |a|
  {
    if a == [] || b == [] {
      if a == [] && b != [] {
        assert IdentifiersLessAt(a, b, 0);
      }
    } else {
      IdentifiersCompare(a[1..], b[1..]);
      IdentifierExactly(a[0], b[0]);
      if IdentifiersLess(a[1..], b[1..]) && a[0] == b[0] {
        var i: nat :| IdentifiersLessAt(a[1..], b[1..], i);
        assert a[..i + 1] == [a[0]] + a[1..][..i] && b[..i + 1] == [b[0]] + b[1..][..i];
        assert IdentifiersLessAt(a, b, i + 1);
      }
      if IdentifierLess(a[0], b[0]) {
        assert IdentifiersLessAt(a, b, 0);
      }
      if IdentifiersLess(a, b) {
        var i: nat :| IdentifiersLessAt(a, b, i);
        if i > 0 {
          assert a[..i][0] == a[0] && b[..i][0] == b[0];
          assert a[1..][..i - 1] == a[..i][1..] && b[1..][..i - 1] == b[..i][1..];
          assert IdentifiersLessAt(a[1..], b[1..], i - 1);
        }
      }
    }
  }

  /** A pre-release comes before its release. */
  ghost predicate PreLess(a: Option<seq<Identifier>>, b: Option<seq<Identifier>>) {
    a.Some? && (b.None? || IdentifiersLess(a.value, b.value))
  }

  /** The major number decides first, then the minor, then the patch, then the pre-release. */
  lemma PrecedenceExactly(a: Version, b: Version)
    ensures Compare(a, b) == Less <==>
              || a.major < b.major
              || (a.major == b.major && a.minor < b.minor)
              || (a.major == b.major && a.minor == b.minor && a.patch < b.patch)
              || (a.major == b.major && a.minor == b.minor && a.patch == b.patch && PreLess(a.pre, b.pre))
  {
    if a.pre.Some? && b.pre.Some? {
      IdentifiersCompare(a.pre.value, b.pre.value);
    }
  }

  // ---------------------------------------------------------------- what is offered

  /** An asset fits when it is valid, for this machine, and spells a version that the installed one comes before. */
  lemma EligibleExactly(a: Asset, platform: string, arch: string, installed: Version)
    ensures Eligible(a, platform, arch, installed) <==>
              && a.valid && a.platform == platform && a.arch == arch
              && exists v :: Spells(a.version, v) && Compare(installed, v) == Less
  {
    var read := Parse(a.version);
    if read.Some? {
      ParsesExactly(a.version, read.value);
      VersionOrder(read.value, installed, installed);
    }
    forall v | Spells(a.version, v) ensures read == Some(v) {
      ParsesExactly(a.version, v);
    }
  }

  /** Nothing is offered to an installation whose own version cannot be read. */
  lemma UnreadableIsOfferedNothing(assets: seq<Asset>, platform: string, arch: string, installed: string)
    requires forall v :: !Spells(installed, v)
    ensures NewestCompatible(assets, platform, arch, installed) == None
  {
    if Parse(installed).Some? {
      ParsesExactly(installed, Parse(installed).value);
    }
  }
}
