/** Whole runs of a terminal: any chunking, two interleaved streams, one bounded text. */
module OutputRuns {
  import opened Prelude
  import opened Utf8
  import opened TerminalOutput

  // ---------------------------------------------------------------- one stream

  /** What a decided front turns into. */
  function Lead(b: seq<Byte>): seq<Byte>
    requires b != [] && !HeadOf(b).Unfinished?
  {
    if HeadOf(b).Whole? then b[..HeadOf(b).n] else REPLACEMENT
  }

  lemma {:induction false} LossyStep(a: seq<Byte>, eof: bool)
    requires a != [] && !HeadOf(a).Unfinished?
    ensures Lossy(a, eof) == (Lead(a) + Lossy(a[HeadOf(a).n..], eof).0, Lossy(a[HeadOf(a).n..], eof).1)
  {
  }

  lemma {:induction false} LeadStable(a: seq<Byte>, b: seq<Byte>)
    requires a != [] && !HeadOf(a).Unfinished?
    ensures HeadOf(a + b) == HeadOf(a) && Lead(a + b) == Lead(a) && (a + b)[HeadOf(a).n..] == a[HeadOf(a).n..] + b
  {
    HeadStable(a, b);
    assert (a + b)[..HeadOf(a).n] == a[..HeadOf(a).n];
  }

  /** `a` then `b` decodes as `a` alone, then `b` after what `a` left over. */
  ghost predicate Resumes(a: seq<Byte>, b: seq<Byte>, eof: bool) {
    var (text, rest) := Lossy(a, false);
    Lossy(a + b, eof) == (text + Lossy(rest + b, eof).0, Lossy(rest + b, eof).1)
  }

  lemma {:induction false} ResumesAtOnce(a: seq<Byte>, b: seq<Byte>, eof: bool)
    requires a == [] || HeadOf(a).Unfinished?
    ensures Resumes(a, b, eof)
  {
    assert Lossy(a, false) == ([], a);
    assert [] + Lossy(a + b, eof).0 == Lossy(a + b, eof).0;
  }

  lemma {:induction false} ResumesPast(a: seq<Byte>, b: seq<Byte>, eof: bool, lead: seq<Byte>, tail: seq<Byte>)
    requires Lossy(a, false) == (lead + Lossy(tail, false).0, Lossy(tail, false).1)
    requires Lossy(a + b, eof) == (lead + Lossy(tail + b, eof).0, Lossy(tail + b, eof).1)
    requires Resumes(tail, b, eof)
    ensures Resumes(a, b, eof)
  {
    var (text, rest) := Lossy(tail, false);
    var more := Lossy(rest + b, eof).0;
    assert lead + (text + more) == (lead + text) + more;
  }

  lemma {:induction false} ResumesLater(a: seq<Byte>, b: seq<Byte>, eof: bool)
    requires a != [] && !HeadOf(a).Unfinished? && Resumes(a[HeadOf(a).n..], b, eof)
    ensures Resumes(a, b, eof)
  {
    LeadStable(a, b);
    LossyStep(a, false);
    LossyStep(a + b, eof);
    ResumesPast(a, b, eof, Lead(a), a[HeadOf(a).n..]);
  }

  /** Chunking does not matter: decoding resumes from the bytes left over. */
  lemma {:induction false} LossyResumes(a: seq<Byte>, b: seq<Byte>, eof: bool)
    ensures Resumes(a, b, eof)
    decreases |a|
  {
    if a == [] || HeadOf(a).Unfinished? {
      ResumesAtOnce(a, b, eof);
    } else {
      LossyResumes(a[HeadOf(a).n..], b, eof);
      ResumesLater(a, b, eof);
    }
  }

  lemma {:induction false} FewPending(b: seq<Byte>, eof: bool)
    ensures |Lossy(b, eof).1| <= 3 && (eof ==> Lossy(b, eof).1 == [])
    decreases |b|
  {
    if b != [] && !HeadOf(b).Unfinished? {
      FewPending(b[HeadOf(b).n..], eof);
    }
  }

  // ---------------------------------------------------------------- text and its boundaries

  /** A sequence of whole characters. */
  predicate IsText(b: seq<Byte>)
    decreases |b|
  {
    b == [] || (HeadOf(b).Whole? && IsText(b[HeadOf(b).n..]))
  }

  lemma {:induction false} TextConcat(a: seq<Byte>, b: seq<Byte>)
    requires IsText(a) && IsText(b)
    ensures IsText(a + b)
    decreases |a|
  {
    if a == [] {
      assert a + b == b;
    } else {
      HeadStable(a, b);
      TextConcat(a[HeadOf(a).n..], b);
      assert (a + b)[HeadOf(a).n..] == a[HeadOf(a).n..] + b;
    }
  }

  lemma {:induction false} WholeIsText(b: seq<Byte>)
    requires b != [] && HeadOf(b).Whole?
    ensures IsText(b[..HeadOf(b).n])
  {
    var whole := b[..HeadOf(b).n];
    assert HeadOf(whole) == HeadOf(b) && whole[HeadOf(b).n..] == [];
  }

  lemma {:induction false} LossyIsText(b: seq<Byte>, eof: bool)
    ensures IsText(Lossy(b, eof).0)
    decreases |b|
  {
    assert IsText([]) && HeadOf(REPLACEMENT) == Whole(3) && REPLACEMENT[3..] == [] && IsText(REPLACEMENT);
    if b != [] {
      match HeadOf(b)
      case Whole(n) =>
        LossyIsText(b[n..], eof);
        WholeIsText(b);
        TextConcat(b[..n], Lossy(b[n..], eof).0);
      case Bad(n) =>
        LossyIsText(b[n..], eof);
        TextConcat(REPLACEMENT, Lossy(b[n..], eof).0);
      case Unfinished =>
    }
  }

  lemma {:induction false} TextStarts(b: seq<Byte>)
    requires IsText(b)
    ensures IsBoundary(b, 0)
  {
  }

  /** Cutting text at a boundary leaves text. */
  lemma {:induction false} SuffixIsText(b: seq<Byte>, i: nat)
    requires IsText(b) && i <= |b| && IsBoundary(b, i)
    ensures IsText(b[i..])
    decreases |b|
  {
    if i == 0 {
      assert b[0..] == b;
    } else {
      var n := HeadOf(b).n;
      TailsInside(b, i);
      SuffixIsText(b[n..], i - n);
      assert b[n..][i - n..] == b[i..];
    }
  }

  lemma {:induction false} TailsInside(b: seq<Byte>, i: nat)
    requires b != [] && HeadOf(b).Whole? && 0 < i <= |b| && IsBoundary(b, i)
    ensures HeadOf(b).n <= i && IsBoundary(b[HeadOf(b).n..], i - HeadOf(b).n)
  {
  }

  /** The bounded tail is text, a suffix, within the limit, and no boundary suffix within the limit is longer. */
  lemma {:induction false} TrimIsLongest(b: seq<Byte>, limit: nat, i: nat)
    requires IsText(b)
    ensures IsText(Trim(b, limit)) && |Trim(b, limit)| <= limit
    ensures Trim(b, limit) == b[|b| - |Trim(b, limit)|..]
    ensures i <= |b| && IsBoundary(b, i) && |b| - i <= limit ==> |b| - i <= |Trim(b, limit)|
  {
    if |b| > limit {
      SuffixIsText(b, NextBoundary(b, |b| - limit));
    }
  }

  lemma {:induction false} NextBoundarySame(b: seq<Byte>, i: nat, j: nat, k: nat)
    requires i <= j <= k <= |b| && NextBoundary(b, i) == k
    ensures NextBoundary(b, j) == k
    decreases j - i
  {
    if i < j {
      NextBoundarySame(b, i, j - 1, k);
    }
  }

  lemma {:induction false} NextBoundaryAppend(a: seq<Byte>, b: seq<Byte>, i: nat)
    requires i <= |a| && IsBoundary(b, 0)
    ensures NextBoundary(a + b, i) == NextBoundary(a, i)
    decreases |a| - i
  {
    if i < |a| && IsTail(a[i]) {
      NextBoundaryAppend(a, b, i + 1);
    }
  }

  lemma {:induction false} NextBoundaryShift(a: seq<Byte>, b: seq<Byte>, i: nat)
    requires i <= |b|
    ensures NextBoundary(a + b, |a| + i) == |a| + NextBoundary(b, i)
    decreases |b| - i
  {
    if i < |b| && IsTail(b[i]) {
      NextBoundaryShift(a, b, i + 1);
    }
  }

  /** A trimmed text that needs no more trimming was cut where the whole text is cut. */
  lemma {:induction false} TrimSettled(a: seq<Byte>, b: seq<Byte>, limit: nat)
    requires IsBoundary(b, 0) && |a| > limit && |Trim(a, limit)| + |b| <= limit
    ensures Trim(a + b, limit) == Trim(a, limit) + b
  {
    var k := NextBoundary(a, |a| - limit);
    NextBoundaryAppend(a, b, |a| - limit);
    NextBoundarySame(a + b, |a| - limit, |a| + |b| - limit, k);
    assert (a + b)[k..] == a[k..] + b;
  }

  lemma {:induction false} TrimSuffix(head: seq<Byte>, rest: seq<Byte>, limit: nat)
    requires |rest| > limit
    ensures Trim(head + rest, limit) == Trim(rest, limit)
  {
    NextBoundaryShift(head, rest, |rest| - limit);
    var k := NextBoundary(rest, |rest| - limit);
    assert (head + rest)[|head| + k..] == rest[k..];
  }

  /** Trimming after every chunk gives what trimming once at the end gives. */
  lemma {:induction false} TrimResumes(a: seq<Byte>, b: seq<Byte>, limit: nat)
    requires IsBoundary(b, 0)
    ensures Trim(Trim(a, limit) + b, limit) == Trim(a + b, limit)
  {
    if |a| > limit {
      var kept := Trim(a, limit);
      if |kept| + |b| <= limit {
        TrimSettled(a, b, limit);
      } else {
        var head := a[..|a| - |kept|];
        assert head + (kept + b) == a + b;
        TrimSuffix(head, kept + b, limit);
      }
    }
  }

  // ---------------------------------------------------------------- runs

  datatype Source = Stdout | Stderr

  datatype Call = Call(source: Source, bytes: seq<Byte>, eof: bool)

  datatype Terminal = Terminal(state: State, pendingOut: seq<Byte>, pendingErr: seq<Byte>)

  function PendingOf(t: Terminal, source: Source): seq<Byte> { if source == Stdout then t.pendingOut else t.pendingErr }

  /** The terminal's task: each chunk is appended with its own stream's unfinished bytes. */
  function Run(calls: seq<Call>, limit: nat): Terminal {
    if calls == [] then Terminal(State([], false), [], [])
    else
      var before, call := Run(calls[..|calls| - 1], limit), calls[|calls| - 1];
      var (state, rest) := Appended(before.state, PendingOf(before, call.source), call.bytes, call.eof, limit);
      if call.source == Stdout then before.(state := state, pendingOut := rest)
      else before.(state := state, pendingErr := rest)
  }

  function Joined(calls: seq<Call>, source: Source): seq<Byte> {
    if calls == [] then []
    else
      var call := calls[|calls| - 1];
      Joined(calls[..|calls| - 1], source) + (if call.source == source then call.bytes else [])
  }

  predicate Ended(calls: seq<Call>, source: Source) {
    exists i :: 0 <= i < |calls| && calls[i].source == source && calls[i].eof
  }

  /** A stream is not read again once it ended. */
  ghost predicate Legal(calls: seq<Call>) {
    forall i, j :: 0 <= i < j < |calls| && calls[i].eof ==> calls[i].source != calls[j].source
  }

  /** What the last call adds to the text: how its stream's one-shot decoding grows. */
  function Piece(calls: seq<Call>): seq<Byte>
    requires calls != []
  {
    var call := calls[|calls| - 1];
    var was := Lossy(Joined(calls[..|calls| - 1], call.source), false).0;
    var now := Lossy(Joined(calls, call.source), call.eof).0;
    if |was| <= |now| then now[|was|..] else []
  }

  /** The full text in arrival order. */
  function Text(calls: seq<Call>): seq<Byte> {
    if calls == [] then [] else Text(calls[..|calls| - 1]) + Piece(calls)
  }

  function StreamText(calls: seq<Call>, source: Source): seq<Byte> {
    if calls == [] then []
    else StreamText(calls[..|calls| - 1], source) + (if calls[|calls| - 1].source == source then Piece(calls) else [])
  }

  lemma {:induction false} LastPending(calls: seq<Call>, source: Source, limit: nat)
    requires calls != []
    ensures var before, call := Run(calls[..|calls| - 1], limit), calls[|calls| - 1];
      PendingOf(Run(calls, limit), source) ==
      if call.source == source then Lossy(PendingOf(before, source) + call.bytes, call.eof).1
      else PendingOf(before, source)
  {
  }

  /** How the last call extends its stream: an ended stream is never extended. */
  lemma {:induction false} LastJoined(calls: seq<Call>, source: Source)
    requires Legal(calls) && calls != []
    ensures var before, call := calls[..|calls| - 1], calls[|calls| - 1];
      && Legal(before)
      && (call.source == source ==>
            && !Ended(before, source) && Ended(calls, source) == call.eof
            && Joined(calls, source) == Joined(before, source) + call.bytes)
      && (call.source != source ==>
          Joined(calls, source) == Joined(before, source) && Ended(calls, source) == Ended(before, source))
  {
    var before, call := calls[..|calls| - 1], calls[|calls| - 1];
    assert Ended(calls, source) <==> Ended(before, source) || (call.source == source && call.eof);
  }

  /** A stream's unfinished bytes are those its one-shot decoding leaves over. */
  lemma {:induction false} PendingIsLeftOver(calls: seq<Call>, source: Source, limit: nat)
    requires Legal(calls)
    ensures PendingOf(Run(calls, limit), source) == Lossy(Joined(calls, source), Ended(calls, source)).1
  {
    if calls != [] {
      var before, call := calls[..|calls| - 1], calls[|calls| - 1];
      LastJoined(calls, source);
      PendingIsLeftOver(before, source, limit);
      LastPending(calls, source, limit);
      LossyResumes(Joined(before, source), call.bytes, call.eof);
    }
  }

  /** The last call's piece is what its chunk decodes to after the stream's unfinished bytes. */
  lemma {:induction false} LastPiece(calls: seq<Call>, limit: nat)
    requires Legal(calls) && calls != []
    ensures var before, call := calls[..|calls| - 1], calls[|calls| - 1];
      Piece(calls) == Lossy(PendingOf(Run(before, limit), call.source) + call.bytes, call.eof).0
  {
    var before, call := calls[..|calls| - 1], calls[|calls| - 1];
    LastJoined(calls, call.source);
    PendingIsLeftOver(before, call.source, limit);
    LossyResumes(Joined(before, call.source), call.bytes, call.eof);
  }

  /**
   After any calls in any order: the output is the longest suffix within the limit of the full decoded text,
   `truncated` says exactly whether that text exceeds the limit, and at most three bytes wait per stream.
   */
  lemma {:induction false} OutputIsBoundedText(calls: seq<Call>, limit: nat)
    requires Legal(calls)
    ensures IsText(Text(calls))
    ensures Run(calls, limit).state == State(Trim(Text(calls), limit), |Text(calls)| > limit)
    ensures |Run(calls, limit).pendingOut| <= 3 && |Run(calls, limit).pendingErr| <= 3
  {
    if calls != [] {
      var before, call := calls[..|calls| - 1], calls[|calls| - 1];
      LastJoined(calls, call.source);
      OutputIsBoundedText(before, limit);
      LastPiece(calls, limit);
      var bytes := PendingOf(Run(before, limit), call.source) + call.bytes;
      LossyIsText(bytes, call.eof);
      TextStarts(Piece(calls));
      TextConcat(Text(before), Piece(calls));
      TrimResumes(Text(before), Piece(calls), limit);
      TrimLength(Text(before), limit);
      FewPending(bytes, call.eof);
    }
  }

  lemma {:induction false} TrimLength(b: seq<Byte>, limit: nat)
    ensures if |b| <= limit then Trim(b, limit) == b else |Trim(b, limit)| <= limit
  {
  }

  /** The pieces of one stream, in order, are its one-shot lossy decoding. */
  lemma {:induction false} StreamsDecode(calls: seq<Call>, source: Source)
    requires Legal(calls)
    ensures StreamText(calls, source) == Lossy(Joined(calls, source), Ended(calls, source)).0
  {
    if calls != [] {
      var before, call := calls[..|calls| - 1], calls[|calls| - 1];
      LastJoined(calls, source);
      StreamsDecode(before, source);
      LossyResumes(Joined(before, source), call.bytes, call.eof);
    }
  }

  /** One stream in any chunking: the bounded tail of the one-shot decoding of all its bytes. */
  lemma {:induction false} OneStream(calls: seq<Call>, source: Source, limit: nat)
    requires Legal(calls) && forall i :: 0 <= i < |calls| ==> calls[i].source == source
    ensures var text := Lossy(Joined(calls, source), Ended(calls, source)).0;
      Run(calls, limit).state == State(Trim(text, limit), |text| > limit)
  {
    OutputIsBoundedText(calls, limit);
    StreamsDecode(calls, source);
    OneStreamText(calls, source);
  }

  lemma {:induction false} OneStreamText(calls: seq<Call>, source: Source)
    requires forall i :: 0 <= i < |calls| ==> calls[i].source == source
    ensures Text(calls) == StreamText(calls, source)
  {
    if calls != [] {
      OneStreamText(calls[..|calls| - 1], source);
    }
  }
}
