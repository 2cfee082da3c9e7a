/**
 Fitting a callback response into one frame: a terminal tail is shortened, anything else too large is refused.

 Only the size of a frame matters. Text is its UTF-8 bytes; JSON escaping is spelled out (section 7 of RFC 8259).
 */
module BoundedResponse {
  import opened Prelude
  import opened Utf8
  import opened TerminalOutput
  import opened OutputRuns
  import CallbackQueue

  /** Bytes that one byte of text takes inside a JSON string. */
  function EscapedByte(b: Byte): nat {
    if b == 0x22 || b == 0x5C then 2
    else if b == 0x08 || b == 0x09 || b == 0x0A || b == 0x0C || b == 0x0D then 2
    else if b < 0x20 then 6
    else 1
  }

  function Escaped(text: seq<Byte>): nat {
    if text == [] then 0 else EscapedByte(text[0]) + Escaped(text[1..])
  }

  /** The escape itself: a short one where there is one, the code otherwise, nothing for what needs none. */
  function EscapeOf(b: Byte): string {
    if b == 0x22 then "\\\""
    else if b == 0x5C then "\\\\"
    else if b == 0x08 then "\\b"
    else if b == 0x09 then "\\t"
    else if b == 0x0A then "\\n"
    else if b == 0x0C then "\\f"
    else if b == 0x0D then "\\r"
    else if b < 0x20 then "\\u00" + [HexDigit(b / 16), HexDigit(b % 16)]
    else [b as char]
  }

  function HexDigit(n: int): char
    requires 0 <= n < 16
  {
    "0123456789abcdef"[n]
  }

  function EscapeText(text: seq<Byte>): string {
    if text == [] then "" else EscapeOf(text[0]) + EscapeText(text[1..])
  }

  /** The sizes are those of the text as it is written inside a JSON string, one character a byte. */
  lemma {:induction false} EscapedExactly(text: seq<Byte>)
    ensures Escaped(text) == |EscapeText(text)|
  {
    if text != [] {
      EscapedExactly(text[1..]);
    }
  }

  /** `fixed` is the encoded frame without the text and the truncation mark: envelope, id, exit status. */
  datatype Response =
    | Terminal(output: seq<Byte>, truncated: bool, fixed: nat)
    | Value(size: nat)
    | Fault(size: nat)

  function FrameSize(r: Response): nat {
    match r
    case Terminal(output, truncated, fixed) => fixed + (if truncated then 4 else 5) + Escaped(output)
    case Value(size) => size
    case Fault(size) => size
  }

  function Budget(limits: CallbackQueue.Limits): nat {
    var whole := if limits.callbackBytes == 0 then 0 else limits.callbackBytes - 1;
    if limits.frameBytes <= whole then limits.frameBytes else whole
  }

  predicate Fits(r: Response, limits: CallbackQueue.Limits) { FrameSize(r) <= Budget(limits) }

  /** A terminal's frame is its envelope, the word for its mark, and its text as escaped. */
  lemma FrameSizeExactly(output: seq<Byte>, truncated: bool, fixed: nat)
    ensures FrameSize(Response.Terminal(output, truncated, fixed))
         == fixed + |if truncated then "true" else "false"| + |EscapeText(output)|
  {
    EscapedExactly(output);
  }

  datatype Outcome = Sent(response: Response) | TooLarge

  function Emptied(r: Response): Response
    requires r.Terminal?
  {
    r.(output := [], truncated := true)
  }

  /** The part of a text that is kept: back from its end, then on to a character boundary. */
  method Tail(output: seq<Byte>, keep: nat) returns (tail: seq<Byte>)
    requires IsText(output)
    ensures tail == Trim(output, keep)
    ensures |tail| <= keep
  {
    var first := if keep <= |output| then |output| - keep else 0;
    var start := first;
    TextStarts(output);
    while !(start == |output| || !IsTail(output[start]))
      invariant first <= start <= |output| && NextBoundary(output, start) == NextBoundary(output, first)
      decreases |output| - start
    {
      start := start + 1;
    }
    tail := output[start..];
  }

  method Bound(r: Response, limits: CallbackQueue.Limits) returns (outcome: Outcome)
    requires r.Terminal? ==> IsText(r.output)
    ensures Fits(r, limits) ==> outcome == Sent(r)
    ensures !Fits(r, limits) && !r.Terminal? ==> outcome == TooLarge
    ensures !Fits(r, limits) && r.Terminal? && !Fits(Emptied(r), limits) ==> outcome == TooLarge
    ensures outcome.Sent? && outcome.response != r ==>
              && r.Terminal? && outcome.response.Terminal? && outcome.response.truncated
              && outcome.response.fixed == r.fixed
    ensures !Fits(r, limits) && r.Terminal? && Fits(Emptied(r), limits) ==>
              && outcome.Sent? && Fits(outcome.response, limits)
              && outcome.response == Emptied(r).(output := Trim(r.output, (Budget(limits) - FrameSize(Emptied(r))) / 6))
  {
    var budget := Budget(limits);
    if FrameSize(r) <= budget {
      return Sent(r);
    }
    if r.Terminal? {
      var value := r.(output := [], truncated := true);
      var overhead := FrameSize(value);
      var keep := (if overhead <= budget then budget - overhead else 0) / 6;
      var tail := Tail(r.output, keep);
      value := value.(output := tail);
      EscapedAtMostSix(tail);
      if FrameSize(value) <= budget {
        return Sent(value);
      }
    }
    return TooLarge;
  }

  lemma {:induction false} EscapedAtMostSix(text: seq<Byte>)
    ensures |text| <= Escaped(text) <= 6 * |text|
  {
    if text != [] {
      EscapedAtMostSix(text[1..]);
    }
  }

  /** Six bytes a byte are needed: with any smaller factor some text would overflow. */
  lemma {:induction false} SixIsNeeded(n: nat)
    ensures Escaped(seq(n, _ => 0 as Byte)) == 6 * n
  {
    if n > 0 {
      SixIsNeeded(n - 1);
      assert seq(n, _ => 0 as Byte)[1..] == seq(n - 1, _ => 0 as Byte);
    }
  }

  /** What is sent of a shortened output is text: its longest character-aligned suffix within the kept bytes. */
  lemma ShortenedIsText(r: Response, limits: CallbackQueue.Limits, i: nat)
    requires r.Terminal? && IsText(r.output) && Fits(Emptied(r), limits)
    ensures var keep := (Budget(limits) - FrameSize(Emptied(r))) / 6;
      && IsText(Trim(r.output, keep)) && |Trim(r.output, keep)| <= keep
      && Trim(r.output, keep) == r.output[|r.output| - |Trim(r.output, keep)|..]
      && (i <= |r.output| && IsBoundary(r.output, i) && |r.output| - i <= keep ==>
          |r.output| - i <= |Trim(r.output, keep)|)
  {
    TrimIsLongest(r.output, (Budget(limits) - FrameSize(Emptied(r))) / 6, i);
  }

  /** The budget is what an empty reservation queue admits: a bounded frame is only ever refused for lack of room. */
  lemma BudgetIsAdmissible(limits: CallbackQueue.Limits, frame: string)
    requires limits.callbackFrames >= 1 && limits.callbackBytes >= 1
    ensures Utf8Length(frame) <= Budget(limits) <==> CallbackQueue.Fits(CallbackQueue.Cleared, limits, frame)
  {
  }
}
