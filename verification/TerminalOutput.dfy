/**
 Terminal output as it streams in: lossy decoding of two streams into one bounded text.

 Text is kept as its UTF-8 bytes, so lengths and offsets are those the limit is stated in.
 */
module TerminalOutput {
  import opened Prelude
  import opened Utf8

  const REPLACEMENT: seq<Byte> := [0xEF, 0xBF, 0xBD]

  /** The decoded text of `b` and the unfinished bytes left over, none at the end of the stream. */
  function Lossy(b: seq<Byte>, eof: bool): (seq<Byte>, seq<Byte>)
    decreases |b|
  {
    if b == [] then ([], [])
    else
      match HeadOf(b)
      case Whole(n) => var (text, rest) := Lossy(b[n..], eof); (b[..n] + text, rest)
      case Bad(n) => var (text, rest) := Lossy(b[n..], eof); (REPLACEMENT + text, rest)
      case Unfinished => if eof then (REPLACEMENT, []) else ([], b)
  }

  /** How many bytes of `b` a strict decoder accepts before it stops. */
  function ValidUpTo(b: seq<Byte>): (n: nat)
    ensures n <= |b|
  {
    if b == [] || !HeadOf(b).Whole? then 0 else HeadOf(b).n + ValidUpTo(b[HeadOf(b).n..])
  }

  predicate IsBoundary(b: seq<Byte>, i: nat)
    requires i <= |b|
  {
    i == |b| || !IsTail(b[i])
  }

  function NextBoundary(b: seq<Byte>, i: nat): (j: nat)
    requires i <= |b|
    ensures i <= j <= |b| && IsBoundary(b, j) && forall k :: i <= k < j ==> !IsBoundary(b, k)
    decreases |b| - i
  {
    if IsBoundary(b, i) then i else NextBoundary(b, i + 1)
  }

  /** The longest suffix of at most `limit` bytes that starts at a character boundary. */
  function Trim(b: seq<Byte>, limit: nat): seq<Byte> {
    if |b| <= limit then b else b[NextBoundary(b, |b| - limit)..]
  }

  datatype State = State(output: seq<Byte>, truncated: bool)

  function Appended(s: State, pending: seq<Byte>, bytes: seq<Byte>, eof: bool, limit: nat): (State, seq<Byte>) {
    var (text, rest) := Lossy(pending + bytes, eof);
    var output := s.output + text;
    (State(Trim(output, limit), s.truncated || |output| > limit), rest)
  }

  class TerminalState {
    var output: seq<Byte>
    var truncated: bool

    ghost function Value(): State
      reads this
    {
      State(output, truncated)
    }

    constructor ()
      ensures Value() == State([], false)
    {
      output, truncated := [], false;
    }

    method Bound(limit: nat)
      modifies this
      ensures Value() == State(Trim(old(output), limit), old(truncated) || |old(output)| > limit)
    {
      if |output| > limit {
        var start := |output| - limit;
        while !(start == |output| || !IsTail(output[start]))
          invariant |output| - limit <= start <= |output|
          invariant NextBoundary(output, start) == NextBoundary(output, |output| - limit)
          decreases |output| - start
        {
          start := start + 1;
        }
        output := output[start..];
        truncated := true;
      }
    }

    /** Decode as far as the bytes are decided: valid runs are copied, malformed ones replaced. */
    method Decode(bytes: seq<Byte>, eof: bool) returns (rest: seq<Byte>)
      modifies this`output
      ensures output == old(output) + Lossy(bytes, eof).0 && rest == Lossy(bytes, eof).1
    {
      rest := bytes;
      while true
        invariant output + Lossy(rest, eof).0 == old(output) + Lossy(bytes, eof).0
        invariant Lossy(rest, eof).1 == Lossy(bytes, eof).1
        decreases |rest|
      {
        rest := Copy(rest, eof);
        if rest == [] {
          break;
        }
        match HeadOf(rest)
        case Bad(n) =>
          output := output + REPLACEMENT;
          rest := rest[n..];
        case Unfinished =>
          if eof {
            output := output + REPLACEMENT;
            rest := [];
          }
          break;
      }
    }

    method Copy(bytes: seq<Byte>, ghost eof: bool) returns (rest: seq<Byte>)
      modifies this`output
      ensures output + Lossy(rest, eof).0 == old(output) + Lossy(bytes, eof).0
          && Lossy(rest, eof).1 == Lossy(bytes, eof).1
      ensures |rest| <= |bytes| && (rest != [] ==> !HeadOf(rest).Whole?)
    {
      var valid := ValidUpTo(bytes);
      LossySkipsValid(bytes, eof);
      Associate(output, bytes[..valid], Lossy(bytes[valid..], eof).0);
      output := output + bytes[..valid];
      rest := bytes[valid..];
    }

    method Append(pending: seq<Byte>, bytes: seq<Byte>, eof: bool, limit: nat) returns (rest: seq<Byte>)
      modifies this
      ensures (Value(), rest) == Appended(old(Value()), pending, bytes, eof, limit)
    {
      rest := Decode(pending + bytes, eof);
      Bound(limit);
    }
  }

  lemma Slices(b: seq<Byte>, n: nat, m: nat, text: seq<Byte>)
    requires n <= |b| && m <= |b| - n
    ensures b[..n] + (b[n..][..m] + text) == b[..n + m] + text && b[n..][m..] == b[n + m..]
  {
    assert b[..n] + b[n..][..m] == b[..n + m];
  }

  lemma {:induction false} LossySkipsValid(b: seq<Byte>, eof: bool)
    ensures var n := ValidUpTo(b);
      Lossy(b, eof).0 == b[..n] + Lossy(b[n..], eof).0 && Lossy(b, eof).1 == Lossy(b[n..], eof).1
      && (n < |b| ==> !HeadOf(b[n..]).Whole?)
    decreases |b|
  {
    if b == [] || !HeadOf(b).Whole? {
      assert b[0..] == b;
    } else {
      var n := HeadOf(b).n;
      LossySkipsValid(b[n..], eof);
      var m := ValidUpTo(b[n..]);
      Slices(b, n, m, Lossy(b[n..][m..], eof).0);
    }
  }
}
