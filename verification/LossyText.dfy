/**
 What lossy decoding is, told from the scalars alone: the bytes are cut into scalars and junk, and only junk changes.

 Neither the strict decoder nor the loop appears in the statement.
 */
module LossyText {
  import opened Prelude
  import opened Utf8
  import opened TerminalOutput

  /** A scalar value in its encoding, or bytes that are none. */
  datatype Piece = Scalar(v: int) | Junk(bytes: seq<Byte>)

  /**
   Junk is as long as it could still have become a scalar, and at least one byte (section 3.9 of the Unicode Standard).
   */
  ghost predicate IsJunk(bytes: seq<Byte>, after: seq<Byte>) {
    && 1 <= |bytes| && (|bytes| == 1 || Begins(bytes))
    && (forall m :: |bytes| < m <= |bytes + after| ==> !Begins((bytes + after)[..m]))
    && (forall v: int :: IsScalar(v) ==> !Starts(bytes + after, v))
  }

  ghost predicate Cuts(b: seq<Byte>, pieces: seq<Piece>, rest: seq<Byte>)
    decreases |pieces|
  {
    if pieces == [] then b == rest && (rest == [] || Begins(rest))
    else
      var p := pieces[0];
      match p
      case Scalar(v) => IsScalar(v) && Starts(b, v) && Cuts(b[|Encode(v)|..], pieces[1..], rest)
      case Junk(bytes) => bytes <= b && IsJunk(bytes, b[|bytes|..]) && Cuts(b[|bytes|..], pieces[1..], rest)
  }

  /** Scalars show as they are, junk as one replacement character. */
  function Shown(pieces: seq<Piece>): seq<Byte> {
    if pieces == [] then []
    else (if pieces[0].Scalar? && IsScalar(pieces[0].v) then Encode(pieces[0].v) else [0xEF, 0xBF, 0xBD])
         + Shown(pieces[1..])
  }

  /** What waits at the end is one more replacement. */
  function AtEnd(rest: seq<Byte>, eof: bool): seq<Byte> { if eof && rest != [] then [0xEF, 0xBF, 0xBD] else [] }

  lemma ShownFirst(first: Piece, more: seq<Piece>, end: seq<Byte>)
    ensures Shown([first] + more) + end == Shown([first]) + (Shown(more) + end)
    ensures Shown([first]) == if first.Scalar? && IsScalar(first.v) then Encode(first.v) else [0xEF, 0xBF, 0xBD]
  {
    assert ([first] + more)[1..] == more && [first][1..] == [];
    var lead := if first.Scalar? && IsScalar(first.v) then Encode(first.v) else [0xEF, 0xBF, 0xBD];
    assert Shown([first] + more) == lead + Shown(more) && Shown([first]) == lead + [];
    Associate(lead, Shown(more), end);
  }

  lemma CutsFirst(b: seq<Byte>, first: Piece, more: seq<Piece>, rest: seq<Byte>, n: nat)
    requires n <= |b| && Cuts(b[n..], more, rest)
    requires match first
             case Scalar(v) => IsScalar(v) && Starts(b, v) && |Encode(v)| == n
             case Junk(bytes) => bytes == b[..n] && IsJunk(bytes, b[n..])
    ensures Cuts(b, [first] + more, rest)
  {
    assert ([first] + more)[1..] == more && ([first] + more)[0] == first;
  }

  /** Decoding shows the pieces. Bytes that may still become a scalar wait, and at the end are one more replacement. */
  lemma {:induction false} LossyShows(b: seq<Byte>, eof: bool) returns (pieces: seq<Piece>, rest: seq<Byte>)
    ensures Cuts(b, pieces, rest)
    ensures Lossy(b, eof) == (Shown(pieces) + AtEnd(rest, eof), if eof then [] else rest)
    decreases |b|
  {
    if b == [] {
      pieces, rest := [], [];
      assert Shown(pieces) + AtEnd(rest, eof) == [];
    } else if HeadOf(b).Unfinished? {
      UnfinishedExactly(b);
      pieces, rest := [], b;
      assert Shown(pieces) + AtEnd(b, eof) == AtEnd(b, eof);
    } else {
      var n := HeadOf(b).n;
      var first := FirstPiece(b);
      var more;
      more, rest := LossyShows(b[n..], eof);
      pieces := [first] + more;
      CutsFirst(b, first, more, rest, n);
      ShownFirst(first, more, AtEnd(rest, eof));
      assert Lossy(b, eof) == (Shown([first]) + Lossy(b[n..], eof).0, Lossy(b[n..], eof).1);
    }
  }

  lemma FirstPiece(b: seq<Byte>) returns (first: Piece)
    requires b != [] && !HeadOf(b).Unfinished?
    ensures HeadOf(b).n <= |b|
    ensures match first
            case Scalar(v) =>
              && IsScalar(v) && Starts(b, v) && |Encode(v)| == HeadOf(b).n
              && HeadOf(b).Whole? && b[..HeadOf(b).n] == Encode(v)
            case Junk(bytes) => HeadOf(b).Bad? && bytes == b[..HeadOf(b).n] && IsJunk(bytes, b[HeadOf(b).n..])
  {
    var n := HeadOf(b).n;
    if HeadOf(b).Whole? {
      WholeEncodes(b);
      first := Scalar(Value(b[..n]));
    } else {
      BadIsMaximalSubpart(b);
      first := Junk(b[..n]);
      assert b[..n] + b[n..] == b && b[..|b|] == b;
      forall v: int | IsScalar(v) ensures !Starts(b, v) {
        if Starts(b, v) {
          EncodingIsWhole(b, v);
        }
      }
    }
  }

  /** So text is shown as it is, and nothing of it waits. */
  function Encoded(vs: seq<int>): seq<Byte>
    requires forall i :: 0 <= i < |vs| ==> IsScalar(vs[i])
  {
    if vs == [] then [] else Encode(vs[0]) + Encoded(vs[1..])
  }

  lemma {:induction false} TextIsShown(vs: seq<int>, eof: bool)
    requires forall i :: 0 <= i < |vs| ==> IsScalar(vs[i])
    ensures Lossy(Encoded(vs), eof) == (Encoded(vs), [])
  {
    if vs != [] {
      var b, n := Encoded(vs), |Encode(vs[0])|;
      assert b[..n] == Encode(vs[0]) && b[n..] == Encoded(vs[1..]);
      EncodingIsWhole(b, vs[0]);
      TextIsShown(vs[1..], eof);
    }
  }
}
