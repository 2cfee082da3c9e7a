/** Semantic versions and the choice of the newest release that fits this machine. */
module Release {
  import opened Prelude

  const U64_MAX: nat := 0xFFFF_FFFF_FFFF_FFFF

  datatype Identifier = Numeric(n: nat) | Text(s: string)

  datatype Version = Version(major: nat, minor: nat, patch: nat, pre: Option<seq<Identifier>>)

  // ---------------------------------------------------------------- reading a version

  /** What stands before and after the first `c`. */
  function SplitOnce(s: string, c: char): Option<(string, string)> {
    if s == "" then None
    else if s[0] == c then Some(("", s[1..]))
    else
      var rest := SplitOnce(s[1..], c);
      if rest.None? then None else Some(([s[0]] + rest.value.0, rest.value.1))
  }

  /** The pieces between the dots; never none. */
  function SplitDots(s: string): (r: seq<string>)
    ensures r != []
  {
    if s == "" then [""]
    else
      var rest := SplitDots(s[1..]);
      if s[0] == '.' then [""] + rest else [[s[0]] + rest[0]] + rest[1..]
  }

  predicate IsDigits(s: string) { forall i :: 0 <= i < |s| ==> '0' <= s[i] <= '9' }

  function Decimal(s: string): nat
    requires IsDigits(s)
  {
    if s == "" then 0 else 10 * Decimal(s[..|s| - 1]) + (s[|s| - 1] as int - '0' as int)
  }

  function ParsePart(s: string): Option<nat> {
    if s == "" || !IsDigits(s) || Decimal(s) > U64_MAX then None else Some(Decimal(s))
  }

  function ParseIdentifier(s: string): Option<Identifier> {
    if s == "" then None
    else if !IsDigits(s) then Some(Text(s))
    else if Decimal(s) > U64_MAX then None
    else Some(Numeric(Decimal(s)))
  }

  function ParseIdentifiers(parts: seq<string>): Option<seq<Identifier>> {
    if parts == [] then Some([])
    else
      var first, rest := ParseIdentifier(parts[0]), ParseIdentifiers(parts[1..]);
      if first.None? || rest.None? then None else Some([first.value] + rest.value)
  }

  function WithoutBuild(s: string): string { var cut := SplitOnce(s, '+'); if cut.Some? then cut.value.0 else s }

  function ParseCore(core: seq<string>): Option<Version> {
    if |core| != 3 || ParsePart(core[0]).None? || ParsePart(core[1]).None? || ParsePart(core[2]).None? then None
    else Some(Version(ParsePart(core[0]).value, ParsePart(core[1]).value, ParsePart(core[2]).value, None))
  }

  function Parse(s: string): Option<Version> {
    var cut := SplitOnce(WithoutBuild(s), '-');
    var version := ParseCore(SplitDots(if cut.Some? then cut.value.0 else WithoutBuild(s)));
    if version.None? || cut.None? then version
    else
      var pre := ParseIdentifiers(SplitDots(cut.value.1));
      if pre.None? then None else Some(version.value.(pre := if pre.value == [] then None else pre))
  }

  lemma {:induction false} SplitAtFirst(s: string, c: char, rest: string)
    requires c !in s
    ensures SplitOnce(s + [c] + rest, c) == Some((s, rest)) && SplitOnce(s, c) == None
    decreases |s|
  {
    if s == "" {
      assert s + [c] + rest == [c] + rest;
    } else {
      SplitAtFirst(s[1..], c, rest);
      assert (s + [c] + rest)[1..] == s[1..] + [c] + rest;
      assert s == [s[0]] + s[1..];
    }
  }

  /** Build metadata has no part in a version. */
  lemma BuildIsIgnored(s: string, build: string)
    requires '+' !in s
    ensures Parse(s + "+" + build) == Parse(s)
  {
    SplitAtFirst(s, '+', build);
  }

  // ---------------------------------------------------------------- the order

  function CompareIdentifier(a: Identifier, b: Identifier): Ordering {
    match (a, b)
    case (Numeric(m), Numeric(n)) => CompareNat(m, n)
    case (Numeric(_), Text(_)) => Less
    case (Text(_), Numeric(_)) => Greater
    case (Text(s), Text(t)) => CompareText(s, t)
  }

  function CompareIdentifiers(a: seq<Identifier>, b: seq<Identifier>): Ordering {
    if a == [] || b == [] then CompareNat(|a|, |b|)
    else Then(CompareIdentifier(a[0], b[0]), CompareIdentifiers(a[1..], b[1..]))
  }

  function ComparePre(a: Option<seq<Identifier>>, b: Option<seq<Identifier>>): Ordering {
    if a.None? then (if b.None? then Equal else Greater)
    else if b.None? then Less
    else CompareIdentifiers(a.value, b.value)
  }

  function Compare(a: Version, b: Version): Ordering {
    Then(CompareNat(a.major, b.major),
         Then(CompareNat(a.minor, b.minor), Then(CompareNat(a.patch, b.patch), ComparePre(a.pre, b.pre))))
  }

  lemma {:induction false} IdentifierOrder(a: Identifier, b: Identifier, c: Identifier)
    ensures CompareIdentifier(a, b) == Equal <==> a == b
    ensures CompareIdentifier(b, a) == Reverse(CompareIdentifier(a, b))
    ensures CompareIdentifier(a, b) != Greater && CompareIdentifier(b, c) != Greater ==>
        CompareIdentifier(a, c) != Greater
  {
    if a.Text? && b.Text? {
      TextOrder(a.s, b.s, if c.Text? then c.s else "");
    }
  }

  lemma {:induction false} IdentifiersOrder(a: seq<Identifier>, b: seq<Identifier>, c: seq<Identifier>)
    ensures CompareIdentifiers(a, b) == Equal <==> a == b
    ensures CompareIdentifiers(b, a) == Reverse(CompareIdentifiers(a, b))
    ensures CompareIdentifiers(a, b) != Greater && CompareIdentifiers(b, c) != Greater ==>
        CompareIdentifiers(a, c) != Greater
    decreases |a| + |b| + |c|
  {
    if a != [] && b != [] {
      IdentifierOrder(a[0], b[0], if c == [] then a[0] else c[0]);
      IdentifiersOrder(a[1..], b[1..], if c == [] then c else c[1..]);
      assert a == b <==> a[0] == b[0] && a[1..] == b[1..];
    }
    if b != [] && c != [] {
      IdentifierOrder(b[0], c[0], b[0]);
      IdentifierOrder(if a == [] then c[0] else a[0], c[0], c[0]);
      assert b == c <==> b[0] == c[0] && b[1..] == c[1..];
    }
  }

  /** Comparison is a total order in which only identical versions are equal. */
  lemma VersionOrder(a: Version, b: Version, c: Version)
    ensures Compare(a, b) == Equal <==> a == b
    ensures Compare(b, a) == Reverse(Compare(a, b))
    ensures Compare(a, b) != Greater && Compare(b, c) != Greater ==> Compare(a, c) != Greater
  {
    IdentifiersOrder(if a.pre.Some? then a.pre.value else [], if b.pre.Some? then b.pre.value else [],
                     if c.pre.Some? then c.pre.value else []);
  }

  // ---------------------------------------------------------------- the newest asset

  datatype Asset = Asset(platform: string, arch: string, version: string, valid: bool)

  predicate Eligible(a: Asset, platform: string, arch: string, installed: Version) {
    && a.platform == platform && a.arch == arch && a.valid
    && Parse(a.version).Some? && Compare(Parse(a.version).value, installed) == Greater
  }

  /** The last of the greatest eligible assets. */
  function Newest(assets: seq<Asset>, platform: string, arch: string, installed: Version): Option<Asset> {
    if assets == [] then None
    else
      var best, next := Newest(assets[..|assets| - 1], platform, arch, installed), assets[|assets| - 1];
      if !Eligible(next, platform, arch, installed) then best
      else if best.None? || Parse(best.value.version).None? then Some(next)
      else if Compare(Parse(best.value.version).value, Parse(next.version).value) == Greater then best
      else Some(next)
  }

  function NewestCompatible(assets: seq<Asset>, platform: string, arch: string, installed: string): Option<Asset> {
    var version := Parse(installed);
    if version.None? then None else Newest(assets, platform, arch, version.value)
  }

  /** Nothing eligible means no answer, and an answer is eligible and at least as new as every eligible asset. */
  lemma {:induction false} NewestIsGreatest(assets: seq<Asset>, platform: string, arch: string, installed: Version)
    ensures var best := Newest(assets, platform, arch, installed);
      && (best.None? <==> forall i :: 0 <= i < |assets| ==> !Eligible(assets[i], platform, arch, installed))
      && (best.Some? ==> best.value in assets && Eligible(best.value, platform, arch, installed))
      && (best.Some? ==> forall i :: 0 <= i < |assets| && Eligible(assets[i], platform, arch, installed) ==>
            Compare(Parse(best.value.version).value, Parse(assets[i].version).value) != Less)
  {
    if assets != [] {
      var n := |assets| - 1;
      var before, next := assets[..n], assets[n];
      NewestIsGreatest(before, platform, arch, installed);
      var was, best := Newest(before, platform, arch, installed), Newest(assets, platform, arch, installed);
      assert forall i :: 0 <= i < n ==> assets[i] == before[i];
      if best.Some? {
        forall i | 0 <= i < |assets| && Eligible(assets[i], platform, arch, installed)
          ensures Compare(Parse(best.value.version).value, Parse(assets[i].version).value) != Less
        {
          var v := Parse(assets[i].version).value;
          VersionOrder(v, v, v);
          if was.Some? && i < n {
            VersionOrder(v, Parse(was.value.version).value, Parse(best.value.version).value);
            VersionOrder(Parse(was.value.version).value, Parse(best.value.version).value, v);
            VersionOrder(v, Parse(best.value.version).value, v);
          } else if was.Some? {
            VersionOrder(Parse(was.value.version).value, v, v);
          }
        }
      }
    }
  }

  /** Asset `i` is the choice: the eligible ones after it are all older. */
  ghost predicate LastGreatest(assets: seq<Asset>, i: nat, platform: string, arch: string, installed: Version) {
    && i < |assets| && Eligible(assets[i], platform, arch, installed)
    && forall j :: i < j < |assets| && Eligible(assets[j], platform, arch, installed) ==>
         Compare(Parse(assets[i].version).value, Parse(assets[j].version).value) == Greater
  }

  lemma OlderStays(assets: seq<Asset>, i: nat, platform: string, arch: string, installed: Version)
    requires i + 1 < |assets| && LastGreatest(assets[..|assets| - 1], i, platform, arch, installed)
    requires var next := assets[|assets| - 1]; Eligible(next, platform, arch, installed) ==>
               Compare(Parse(assets[i].version).value, Parse(next.version).value) == Greater
    ensures LastGreatest(assets, i, platform, arch, installed)
  {
    var before := assets[..|assets| - 1];
    forall j | i < j < |assets| && Eligible(assets[j], platform, arch, installed)
      ensures Compare(Parse(assets[i].version).value, Parse(assets[j].version).value) == Greater
    {
      if j < |before| {
        assert before[j] == assets[j] && before[i] == assets[i];
      }
    }
  }

  /** Of equally new assets, as builds of one version are, the last one is chosen. */
  lemma {:induction false} NewestIsLast(assets: seq<Asset>, platform: string, arch: string, installed: Version)
    returns (i: nat)
    requires Newest(assets, platform, arch, installed).Some?
    ensures LastGreatest(assets, i, platform, arch, installed)
    ensures Newest(assets, platform, arch, installed) == Some(assets[i])
  {
    var n := |assets| - 1;
    NewestIsGreatest(assets, platform, arch, installed);
    if Newest(assets, platform, arch, installed) == Some(assets[n]) {
      i := n;
    } else {
      NewestIsGreatest(assets[..n], platform, arch, installed);
      i := NewestIsLast(assets[..n], platform, arch, installed);
      assert forall j :: 0 <= j < n ==> assets[..n][j] == assets[j];
      OlderStays(assets, i, platform, arch, installed);
    }
  }

  /** For a readable installed version: no update exactly when no eligible asset is offered. */
  lemma UpdateOfferedExactly(assets: seq<Asset>, platform: string, arch: string, installed: string)
    requires Parse(installed).Some?
    ensures NewestCompatible(assets, platform, arch, installed).None? <==>
            forall i :: 0 <= i < |assets| ==> !Eligible(assets[i], platform, arch, Parse(installed).value)
  {
    NewestIsGreatest(assets, platform, arch, Parse(installed).value);
  }
}
