/** UTF-8 at the byte level: one sequence at the front, and what a malformed or unfinished front is. */
module Utf8 {
  import opened Prelude

  type Byte = b: int | 0 <= b < 0x100

  predicate IsScalar(v: int) { 0 <= v < 0xD800 || 0xE000 <= v < 0x11_0000 }

  /** The UTF-8 form of one Unicode scalar value (section 3 of RFC 3629). */
  function Encode(v: int): (b: seq<Byte>)
    requires IsScalar(v)
    ensures 1 <= |b| <= 4
  {
    if v < 0x80 then [v]
    else if v < 0x800 then [0xC0 + v / 0x40, 0x80 + v % 0x40]
    else if v < 0x1_0000 then [0xE0 + v / 0x1000, 0x80 + v / 0x40 % 0x40, 0x80 + v % 0x40]
    else [0xF0 + v / 0x4_0000, 0x80 + v / 0x1000 % 0x40, 0x80 + v / 0x40 % 0x40, 0x80 + v % 0x40]
  }

  predicate IsTail(b: Byte) { 0x80 <= b < 0xC0 }

  /** How long a sequence a first byte announces; zero when no sequence starts with it. */
  function Announced(b: Byte): nat {
    if b < 0x80 then 1
    else if 0xC2 <= b < 0xE0 then 2
    else if 0xE0 <= b < 0xF0 then 3
    else if 0xF0 <= b < 0xF5 then 4
    else 0
  }

  /** The second bytes that may follow a first byte: no overlong form, no surrogate, nothing above U+10FFFF. */
  predicate SecondOk(first: Byte, second: Byte) {
    && IsTail(second)
    && (first == 0xE0 ==> 0xA0 <= second)
    && (first == 0xED ==> second < 0xA0)
    && (first == 0xF0 ==> 0x90 <= second)
    && (first == 0xF4 ==> second < 0x90)
  }

  predicate FollowOk(b: seq<Byte>, i: nat)
    requires 1 <= i < |b|
  {
    if i == 1 then SecondOk(b[0], b[1]) else IsTail(b[i])
  }

  datatype Head = Whole(n: nat) | Bad(n: nat) | Unfinished

  /** The first sequence of nonempty bytes, as a strict decoder reports it. */
  function HeadOf(b: seq<Byte>): Head
    requires b != []
  {
    var n := Announced(b[0]);
    if n == 0 then Bad(1)
    else if n == 1 then Whole(1)
    else if |b| == 1 then Unfinished
    else if !FollowOk(b, 1) then Bad(1)
    else if n == 2 then Whole(2)
    else if |b| == 2 then Unfinished
    else if !FollowOk(b, 2) then Bad(2)
    else if n == 3 then Whole(3)
    else if |b| == 3 then Unfinished
    else if !FollowOk(b, 3) then Bad(3)
    else Whole(4)
  }

  // ---------------------------------------------------------------- against the encoding

  predicate Starts(b: seq<Byte>, v: int)
    requires IsScalar(v)
  {
    |Encode(v)| <= |b| && b[..|Encode(v)|] == Encode(v)
  }

  /** `b` is an unfinished sequence: some scalar's encoding continues it. */
  ghost predicate Begins(b: seq<Byte>) {
    exists v: int :: IsScalar(v) && |b| < |Encode(v)| && Encode(v)[..|b|] == b
  }

  function Value(b: seq<Byte>): int
    requires 1 <= |b| <= 4
  {
    var at := (i: int) requires 0 <= i < |b| => b[i] as int;
    if |b| == 1 then at(0)
    else if |b| == 2 then (at(0) - 0xC0) * 0x40 + (at(1) - 0x80)
    else if |b| == 3 then (at(0) - 0xE0) * 0x1000 + (at(1) - 0x80) * 0x40 + (at(2) - 0x80)
    else (at(0) - 0xF0) * 0x4_0000 + (at(1) - 0x80) * 0x1000 + (at(2) - 0x80) * 0x40 + (at(3) - 0x80)
  }

  lemma Digits(a: int, b: int, c: int, d: int)
    requires 0 <= a && 0 <= b < 0x40 && 0 <= c < 0x40 && 0 <= d < 0x40
    ensures var v := a * 0x4_0000 + b * 0x1000 + c * 0x40 + d;
      v % 0x40 == d && v / 0x40 % 0x40 == c && v / 0x1000 % 0x40 == b && v / 0x1000 == a * 0x40 + b && v / 0x4_0000 == a
  {
    var v := a * 0x4_0000 + b * 0x1000 + c * 0x40 + d;
    assert v / 0x40 == a * 0x1000 + b * 0x40 + c;
    assert v / 0x1000 == a * 0x40 + b;
  }

  lemma TwoEncode(b: seq<Byte>)
    requires |b| == 2 && HeadOf(b) == Whole(2)
    ensures IsScalar(Value(b)) && Encode(Value(b)) == b
  {
    Digits(0, 0, b[0] as int - 0xC0, b[1] as int - 0x80);
  }

  lemma ThreeEncode(b: seq<Byte>)
    requires |b| == 3 && HeadOf(b) == Whole(3)
    ensures IsScalar(Value(b)) && Encode(Value(b)) == b
  {
    Digits(0, b[0] as int - 0xE0, b[1] as int - 0x80, b[2] as int - 0x80);
  }

  lemma FourEncode(b: seq<Byte>)
    requires |b| == 4 && HeadOf(b) == Whole(4)
    ensures IsScalar(Value(b)) && Encode(Value(b)) == b
  {
    Digits(b[0] as int - 0xF0, b[1] as int - 0x80, b[2] as int - 0x80, b[3] as int - 0x80);
  }

  lemma WholePrefix(b: seq<Byte>)
    requires b != [] && HeadOf(b).Whole?
    ensures 1 <= HeadOf(b).n <= 4 && HeadOf(b).n <= |b| && HeadOf(b[..HeadOf(b).n]) == HeadOf(b)
  {
  }

  /** A whole head is exactly the encoding of a scalar value. */
  lemma WholeEncodes(b: seq<Byte>)
    requires b != [] && HeadOf(b).Whole?
    ensures 1 <= HeadOf(b).n <= 4 && HeadOf(b).n <= |b|
    ensures IsScalar(Value(b[..HeadOf(b).n])) && Encode(Value(b[..HeadOf(b).n])) == b[..HeadOf(b).n]
  {
    WholePrefix(b);
    var whole := b[..HeadOf(b).n];
    match |whole|
    case 1 =>
    case 2 => TwoEncode(whole);
    case 3 => ThreeEncode(whole);
    case _ => FourEncode(whole);
  }

  lemma EncodingIsWhole(b: seq<Byte>, v: int)
    requires IsScalar(v) && Starts(b, v)
    ensures HeadOf(b) == Whole(|Encode(v)|)
  {
  }

  lemma WholeExactly(b: seq<Byte>, n: nat)
    requires b != []
    ensures HeadOf(b) == Whole(n) <==> exists v: int :: IsScalar(v) && Starts(b, v) && |Encode(v)| == n
  {
    if HeadOf(b) == Whole(n) {
      WholeEncodes(b);
      assert Starts(b, Value(b[..n]));
    }
    forall v: int | IsScalar(v) && Starts(b, v) ensures HeadOf(b) == Whole(|Encode(v)|) {
      EncodingIsWhole(b, v);
    }
  }

  /** Bytes that finish an unfinished sequence. */
  function Filler(b: seq<Byte>): seq<Byte>
    requires b != [] && HeadOf(b).Unfinished?
  {
    var second := if b[0] == 0xE0 then 0xA0 else if b[0] == 0xF0 then 0x90 else 0x80;
    ([second, 0x80, 0x80][|b| - 1..])[..Announced(b[0]) - |b|]
  }

  lemma FillerFinishes(b: seq<Byte>)
    requires b != [] && HeadOf(b).Unfinished?
    ensures HeadOf(b + Filler(b)) == Whole(|b + Filler(b)|) && |b| < |b + Filler(b)|
  {
    var filler := Filler(b);
    var whole := b + filler;
    assert forall k :: 0 <= k < |filler| ==> whole[|b| + k] == filler[k];
    assert forall k :: 0 <= k < |b| ==> whole[k] == b[k];
  }

  /** A front is unfinished exactly when it properly begins some scalar's encoding. */
  lemma UnfinishedExactly(b: seq<Byte>)
    requires b != []
    ensures HeadOf(b).Unfinished? <==> Begins(b)
  {
    if HeadOf(b).Unfinished? {
      FillerFinishes(b);
      var whole := b + Filler(b);
      WholeEncodes(whole);
      assert whole[..|whole|] == whole && whole[..|b|] == b;
      assert Encode(Value(whole))[..|b|] == b;
    }
    if Begins(b) {
      var v: int :| IsScalar(v) && |b| < |Encode(v)| && Encode(v)[..|b|] == b;
      EncodingIsWhole(Encode(v), v);
      PrefixUnfinished(Encode(v), |b|);
    }
  }

  lemma PrefixUnfinished(b: seq<Byte>, k: nat)
    requires b != [] && HeadOf(b) == Whole(|b|) && 1 <= k < |b|
    ensures HeadOf(b[..k]).Unfinished?
  {
  }

  /**
   A malformed front is dropped by its maximal subpart: the longest start that could still have become a
   sequence, or one byte when there is none (section 3.9 of the Unicode Standard).
   */
  lemma BadIsMaximalSubpart(b: seq<Byte>)
    requires b != [] && HeadOf(b).Bad?
    ensures var n := HeadOf(b).n;
      && 1 <= n <= 3 && n <= |b|
      && (n == 1 || Begins(b[..n]))
      && forall m :: n < m <= |b| ==> !Begins(b[..m]) && forall v: int :: IsScalar(v) ==> !Starts(b[..m], v)
  {
    var n := HeadOf(b).n;
    if n > 1 {
      assert HeadOf(b[..n]).Unfinished?;
      UnfinishedExactly(b[..n]);
    }
    forall m | n < m <= |b| ensures !Begins(b[..m]) && forall v: int :: IsScalar(v) ==> !Starts(b[..m], v) {
      assert HeadOf(b[..m]) == Bad(n);
      UnfinishedExactly(b[..m]);
      forall v: int | IsScalar(v) ensures !Starts(b[..m], v) {
        if Starts(b[..m], v) {
          EncodingIsWhole(b[..m], v);
        }
      }
    }
  }

  /** More bytes do not change a front that is already decided. */
  lemma HeadStable(a: seq<Byte>, b: seq<Byte>)
    requires a != [] && !HeadOf(a).Unfinished?
    ensures HeadOf(a + b) == HeadOf(a)
  {
  }

  /** The length of a text counts the bytes of its encoding. */
  lemma LengthIsEncoding(c: char)
    ensures IsScalar(c as int) && CharBytes(c) == |Encode(c as int)|
  {
  }
}
