/** Failure-carrying values and the byte length of text, shared by every component. */
module Prelude {
  datatype Option<+T> = None | Some(value: T)

  datatype Result<+T, +E> = Success(value: T) | Failure(error: E)

  datatype Unit = Unit

  /** Bytes that one Unicode scalar value takes in UTF-8. */
  function CharBytes(c: char): nat {
    var v := c as int;
    if v < 0x80 then 1 else if v < 0x800 then 2 else if v < 0x1_0000 then 3 else 4
  }

  /** The length a Rust string reports: its UTF-8 byte count. */
  function Utf8Length(s: string): nat {
    if s == "" then 0 else CharBytes(s[0]) + Utf8Length(s[1..])
  }

  function Min(a: int, b: int): int { if a <= b then a else b }

  function Max(a: int, b: int): int { if a <= b then b else a }

  lemma Associate<T>(a: seq<T>, b: seq<T>, c: seq<T>)
    ensures a + (b + c) == (a + b) + c
  {
  }

  lemma SubsetSize<T>(a: set<T>, b: set<T>)
    requires a <= b
    ensures |a| <= |b|
  {
    assert b == a + (b - a);
  }

  datatype Ordering = Less | Equal | Greater

  function CompareNat(a: nat, b: nat): Ordering { if a < b then Less else if a == b then Equal else Greater }

  function Then(first: Ordering, second: Ordering): Ordering { if first == Equal then second else first }

  /** Text compares by code point, which for UTF-8 is the order of its bytes. */
  function CompareText(a: string, b: string): Ordering {
    if a == "" || b == "" then CompareNat(|a|, |b|)
    else Then(CompareNat(a[0] as nat, b[0] as nat), CompareText(a[1..], b[1..]))
  }

  function Reverse(o: Ordering): Ordering { match o case Less => Greater case Equal => Equal case Greater => Less }

  lemma {:induction false} TextOrder(a: string, b: string, c: string)
    ensures CompareText(a, b) == Equal <==> a == b
    ensures CompareText(b, a) == Reverse(CompareText(a, b))
    ensures CompareText(a, b) != Greater && CompareText(b, c) != Greater ==> CompareText(a, c) != Greater
    decreases |a| + |b| + |c|
  {
    if a != "" && b != "" {
      TextOrder(a[1..], b[1..], if c == "" then c else c[1..]);
      assert a == b <==> a[0] == b[0] && a[1..] == b[1..];
    }
    if b != "" && c != "" {
      TextOrder(b[1..], c[1..], if a == "" then a else a[1..]);
      assert b == c <==> b[0] == c[0] && b[1..] == c[1..];
    }
  }
}
