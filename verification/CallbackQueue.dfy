/**
 Reservations for callback responses: one slot per response, in wire order, within two budgets.

 A slot is taken before the response is handed to the SDK and freed when the response has been flushed.
 */
module CallbackQueue {
  import opened Prelude

  type Ticket = nat

  datatype Limits = Limits(frameBytes: nat, callbackFrames: nat, callbackBytes: nat)

  /** `redacted`: the response carries file or terminal content that is kept out of the evidence. */
  datatype Slot = Slot(text: string, redacted: bool, ack: Option<Ticket>)

  datatype Queue = Queue(frames: seq<Slot>, bytes: nat)

  function Size(text: string): nat { Utf8Length(text) + 1 }

  function Total(frames: seq<Slot>): nat {
    if frames == [] then 0 else Size(frames[0].text) + Total(frames[1..])
  }

  lemma {:induction false} TotalAppend(frames: seq<Slot>, slot: Slot)
    ensures Total(frames + [slot]) == Total(frames) + Size(slot.text)
  {
    if frames == [] {
      assert frames + [slot] == [slot];
    } else {
      assert (frames + [slot])[1..] == frames[1..] + [slot];
      TotalAppend(frames[1..], slot);
    }
  }

  ghost predicate Within(q: Queue, limits: Limits) {
    && q.bytes == Total(q.frames) <= limits.callbackBytes
    && |q.frames| <= limits.callbackFrames
    && forall i :: 0 <= i < |q.frames| ==> Utf8Length(q.frames[i].text) <= limits.frameBytes
  }

  predicate Fits(q: Queue, limits: Limits, text: string) {
    && Utf8Length(text) <= limits.frameBytes
    && |q.frames| < limits.callbackFrames
    && q.bytes + Size(text) <= limits.callbackBytes
  }

  function Reserve(q: Queue, slot: Slot): Queue { Queue(q.frames + [slot], q.bytes + Size(slot.text)) }

  function Freed(q: Queue): Queue {
    if q.frames == [] then q else Queue(q.frames[1..], Less(q.bytes, Size(q.frames[0].text)))
  }

  /** Plain subtraction wherever the counter is the total, as the class below proves. */
  function Less(a: nat, b: nat): nat { if b <= a then a - b else 0 }

  const Cleared: Queue := Queue([], 0)

  predicate MatchesFront(q: Queue, text: string) { q.frames != [] && q.frames[0].text == text }

  lemma ReserveWithin(q: Queue, limits: Limits, slot: Slot)
    requires Within(q, limits) && Fits(q, limits, slot.text)
    ensures Within(Reserve(q, slot), limits)
  {
    TotalAppend(q.frames, slot);
  }

  /** A sent acknowledgement. */
  datatype Signal = Signal(ticket: Ticket, delivered: bool)

  /** The acknowledgements a failure sends, front to back. */
  function Refusals(frames: seq<Slot>): seq<Signal> {
    if frames == [] then []
    else (if frames[0].ack.Some? then [Signal(frames[0].ack.value, false)] else []) + Refusals(frames[1..])
  }

  function Receipt(frames: seq<Slot>): seq<Signal> {
    if frames != [] && frames[0].ack.Some? then [Signal(frames[0].ack.value, true)] else []
  }

  class CallbackOutput {
    const limits: Limits
    var frames: seq<Slot>
    var bytes: nat
    var signals: seq<Signal>

    ghost function Value(): Queue
      reads this
    {
      Queue(frames, bytes)
    }

    ghost predicate Valid()
      reads this
    {
      Within(Value(), limits)
    }

    constructor (limits: Limits)
      ensures Valid() && this.limits == limits && Value() == Cleared && signals == []
    {
      this.limits := limits;
      frames, bytes, signals := [], 0, [];
    }

    /** On refusal the caller keeps its acknowledgement. */
    method AdmitWithAck(text: string, redacted: bool, ack: Option<Ticket>) returns (admitted: bool)
      requires Valid()
      modifies this`frames, this`bytes
      ensures Valid() && admitted == Fits(old(Value()), limits, text)
      ensures Value() == if admitted then Reserve(old(Value()), Slot(text, redacted, ack)) else old(Value())
      ensures admitted <==>
                && Utf8Length(text) <= limits.frameBytes
                && |old(frames)| < limits.callbackFrames
                && Total(old(frames)) + Utf8Length(text) + 1 <= limits.callbackBytes
      ensures frames == old(frames) + (if admitted then [Slot(text, redacted, ack)] else [])
      ensures bytes == Total(frames)
    {
      var room := if bytes <= limits.callbackBytes then limits.callbackBytes - bytes else 0;
      if Utf8Length(text) > limits.frameBytes || |frames| >= limits.callbackFrames || Size(text) > room {
        return false;
      }
      ReserveWithin(Value(), limits, Slot(text, redacted, ack));
      bytes := bytes + Size(text);
      frames := frames + [Slot(text, redacted, ack)];
      return true;
    }

    method Flushed()
      requires Valid()
      modifies this`frames, this`bytes, this`signals
      ensures Valid() && Value() == Freed(old(Value())) && signals == old(signals) + Receipt(old(frames))
      ensures frames == (if old(frames) == [] then [] else old(frames)[1..]) && bytes == Total(frames)
      ensures old(frames) != [] && old(frames)[0].ack.Some? ==>
                signals == old(signals) + [Signal(old(frames)[0].ack.value, true)]
      ensures old(frames) == [] || old(frames)[0].ack.None? ==> signals == old(signals)
    {
      if frames != [] {
        var front := frames[0];
        frames := frames[1..];
        bytes := bytes - Size(front.text);
        if front.ack.Some? {
          signals := signals + [Signal(front.ack.value, true)];
        }
      }
    }

    method FailAll()
      modifies this`frames, this`bytes, this`signals
      ensures Valid() && Value() == Cleared && signals == old(signals) + Refusals(old(frames))
    {
      while frames != []
        invariant signals + Refusals(frames) == old(signals) + Refusals(old(frames))
        decreases |frames|
      {
        var front := frames[0];
        frames := frames[1..];
        if front.ack.Some? {
          signals := signals + [Signal(front.ack.value, false)];
        }
      }
      bytes := 0;
    }
  }
}
