/**
 What each part of an answer's way does, in its own terms, and that an answer nobody disturbs arrives.

 The safety of the callbacks is proved elsewhere; here nothing may be refused, dropped or held back without a reason.
 */
module OperatorRules {
  import opened Prelude
  import opened CallbackQueue
  import opened OperatorDelivery
  import opened WireRanks
  import opened OperatorSafety

  // ---------------------------------------------------------------- the operators' side

  /** The receipt stands, and the request it answers still waits for an answer. */
  predicate Forwardable(o: Operators, t: Ticket)
    requires t < |o.commands|
  {
    var c := o.commands[t];
    c.fence != Cancelled && c.request < |o.requests|
    && o.requests[c.request].waiter && o.requests[c.request].phase == Waiting
  }

  /** A queued answer is put in its request's mail, or its caller is told that it is not delivered: never both. */
  lemma ForwardsExactly(o: Operators, t: Ticket)
    requires OperatorEnabled(o, Forward(t))
    ensures var (o', sent) := OperatorStep(o, Forward(t)); var r := o.commands[t].request;
      && o'.commands == o.commands[t := o.commands[t].(queued := false)]
      && (Forwardable(o, t) ==>
            sent == [] && o'.requests == o.requests[r := o.requests[r].(waiter := false, mail := Some(t))])
      && (!Forwardable(o, t) ==> sent == [Signal(t, false)])
      && (!Forwardable(o, t) && r < |o.requests| ==> o'.requests[r].mail == o.requests[r].mail)
  {
  }

  /** A cancelled receipt wins exactly when the answer was not claimed or cancelled before. */
  lemma CancelsExactly(o: Operators, t: Ticket)
    requires OperatorEnabled(o, Cancel(t))
    ensures var (o', sent) := OperatorStep(o, Cancel(t)); var was, now := o.commands[t], o'.commands[t];
      && sent == [] && o'.requests == o.requests
      && now.fence == (if was.fence == Open then Cancelled else was.fence)
      && now.won == (was.won || was.fence == Open)
      && o'.commands == o.commands[t := was.(fence := now.fence, won := now.won)]
  {
  }

  /** The answering task uses the reply it received exactly when it can still be claimed, and cancels otherwise. */
  lemma TakesExactly(s: System, r: RequestId)
    requires TaskEnabled(s, TakeReply(r))
    ensures var o, s' := s.operators, TaskStep(s, TakeReply(r)); var t := o.requests[r].mail.value;
      && s'.operators.requests[r].mail.None? && s'.transport == s.transport
      && (if o.commands[t].fence == Open then
            && s'.operators.commands == o.commands[t := o.commands[t].(fence := Claimed)]
            && s'.operators.requests[r].phase == Chosen(o.commands[t].answer, Some(t)) && s'.signals == s.signals
          else
            && s'.operators.commands == o.commands
            && s'.operators.requests[r].phase == Chosen("cancel", None)
            && s'.signals == s.signals + [Signal(t, false)])
  {
  }

  // ---------------------------------------------------------------- the reservation and the writer

  /** There is room for one more response, in frames and in bytes. */
  predicate Room(w: Transport, text: string) {
    && Utf8Length(text) <= w.limits.frameBytes
    && |w.queue.frames| < w.limits.callbackFrames
    && Total(w.queue.frames) + Utf8Length(text) + 1 <= w.limits.callbackBytes
  }

  /** A response gets a slot at the back of any valid queue exactly when there is room, and then goes to the SDK. */
  lemma ReservesExactly(w: Transport, text: string, redacted: bool, ack: Option<Ticket>, origin: Origin, accepted: bool)
    requires Within(w.queue, w.limits)
    ensures var w' := Admit(w, text, redacted, ack, origin, accepted);
      if Room(w, text) then
        && w'.queue.frames == w.queue.frames + [Slot(text, redacted, ack)]
        && w'.queue.bytes == w.queue.bytes + Utf8Length(text) + 1
        && w'.items == (if accepted then w.items + [Response(text, redacted, origin)] else w.items)
        && w'.failed == (w.failed || !accepted)
      else w' == w
  {
  }

  /** An answer is enqueued exactly when it has a text and there is room; otherwise its caller is told at once. */
  lemma DeliversExactly(s: System, r: RequestId, text: Option<string>, accepted: bool)
    requires Inv(s) && TaskEnabled(s, Deliver(r, text, accepted))
    ensures var s', phase := TaskStep(s, Deliver(r, text, accepted)), s.operators.requests[r].phase;
      && s'.operators.requests[r].phase == Finished
      && (if text.Some? && Room(s.transport, text.value) then
            && s'.signals == s.signals
            && s'.transport.queue.frames == s.transport.queue.frames + [Slot(text.value, false, phase.reply)]
            && (accepted ==>
                  s'.transport.items
                  == s.transport.items + [Response(text.value, false, Answering(r, phase.answer, phase.reply))])
          else
            && s'.transport == s.transport
            && s'.signals == s.signals + (if phase.reply.Some? then [Signal(phase.reply.value, false)] else []))
  {
    if text.Some? {
      ReservesExactly(s.transport, text.value, false, s.operators.requests[r].phase.reply,
                      Answering(r, s.operators.requests[r].phase.answer, s.operators.requests[r].phase.reply),
                      accepted);
    }
  }

  /** The writer takes a frame exactly when it is within its size, readable, and if a response, reserved next. */
  lemma WritesExactly(w: Transport, parses: bool)
    requires WireEnabled(w, TakeItem(parses))
    ensures var (w', sent) := WireStep(w, TakeItem(parses)); var item := w.items[w.taken];
      if Utf8Length(item.text) <= w.limits.frameBytes && parses
         && (item.Response? ==> w.queue.frames != [] && w.queue.frames[0].text == item.text)
      then w' == w.(taken := w.taken + 1) && sent == []
      else && w'.failed && !w'.open && w'.queue.frames == [] && w'.queue.bytes == 0 && w'.taken == w.taken
           && w'.items == w.items && forall t: Ticket :: Sent(sent, t) == Slots(w.queue.frames, t)
  {
    forall t: Ticket ensures Sent(Refusals(w.queue.frames), t) == Slots(w.queue.frames, t) {
      RefusalsSendAll(w.queue.frames, t);
    }
  }

  /** A written response frees the slot in front and acknowledges it; a failed write refuses every slot. */
  lemma FlushesExactly(w: Transport, written: bool)
    requires WireEnabled(w, Flush(written))
    ensures var (w', sent) := WireStep(w, Flush(written)); var frees := w.items[w.flushed].Response?;
      if written then
        && w'.flushed == w.flushed + 1 && w'.items == w.items && w'.open == w.open && w'.failed == w.failed
        && w'.queue.frames == (if frees && w.queue.frames != [] then w.queue.frames[1..] else w.queue.frames)
        && sent == (if frees && w.queue.frames != [] && w.queue.frames[0].ack.Some?
                    then [Signal(w.queue.frames[0].ack.value, true)] else [])
      else
        && w'.failed && !w'.open && w'.queue.frames == [] && w'.flushed == w.flushed
        && forall t: Ticket :: Sent(sent, t) == Slots(w.queue.frames, t)
  {
    forall t: Ticket ensures Sent(Refusals(w.queue.frames), t) == Slots(w.queue.frames, t) {
      RefusalsSendAll(w.queue.frames, t);
    }
  }

  // ---------------------------------------------------------------- an answer that nobody disturbs

  /** Taking actions one after the other, while each is enabled. */
  ghost function Ran(s: System, actions: seq<Action>): Option<System>
    decreases |actions|
  {
    if actions == [] then Some(s)
    else if Enabled(s, actions[0]) then Ran(Step(s, actions[0]), actions[1..])
    else None
  }

  lemma {:induction false} RanConcat(s: System, a: seq<Action>, b: seq<Action>)
    ensures Ran(s, a + b) == if Ran(s, a).Some? then Ran(Ran(s, a).value, b) else None
    decreases |a|
  {
    if a == [] {
      assert a + b == b;
    } else {
      assert (a + b)[1..] == a[1..] + b;
      if Enabled(s, a[0]) {
        RanConcat(Step(s, a[0]), a[1..], b);
      }
    }
  }

  /** Everything given to the SDK is flushed, and nothing has failed. */
  ghost predicate Drained(s: System) {
    Inv(s) && !s.transport.failed && s.transport.flushed == |s.transport.items|
  }

  lemma DrainedIsEmpty(s: System)
    requires Drained(s)
    ensures s.transport.queue == Cleared && s.transport.taken == |s.transport.items| && s.transport.open
  {
    TwoKinds(s.transport.items, s.transport.flushed);
  }

  function ClaimsOf(r: RequestId, t: Ticket, answer: Answer): seq<Action> {
    [OnOperator(Route), OnOperator(Submit(r, answer)), OnOperator(Forward(t)), OnTask(TakeReply(r))]
  }

  function WritesOf(r: RequestId, text: string): seq<Action> {
    [OnTask(Deliver(r, Some(text), true)), OnWire(TakeItem(true)), OnWire(Flush(true))]
  }

  lemma RanFirst(s: System, a: Action, rest: seq<Action>)
    requires Enabled(s, a)
    ensures Ran(s, [a] + rest) == Ran(Step(s, a), rest)
  {
    assert ([a] + rest)[1..] == rest;
  }

  /** The request is routed, answered, forwarded, and its task claims the answer. */
  lemma AnswerClaimed(s: System, answer: Answer)
    ensures var r, t := |s.operators.requests|, |s.operators.commands|; var ran := Ran(s, ClaimsOf(r, t, answer));
      && ran.Some? && ran.value.transport == s.transport && ran.value.signals == s.signals
      && r < |ran.value.operators.requests|
      && ran.value.operators.requests[r].phase == Chosen(answer, Some(t))
  {
    var r, t := |s.operators.requests|, |s.operators.commands|;
    var c, d := [OnOperator(Forward(t)), OnTask(TakeReply(r))], [OnTask(TakeReply(r))];
    var b := [OnOperator(Submit(r, answer))] + c;
    assert ClaimsOf(r, t, answer) == [OnOperator(Route)] + b && c == [OnOperator(Forward(t))] + d;
    RanFirst(s, OnOperator(Route), b);
    var routed := Step(s, OnOperator(Route));
    RanFirst(routed, OnOperator(Submit(r, answer)), c);
    var submitted := Step(routed, OnOperator(Submit(r, answer)));
    RanFirst(submitted, OnOperator(Forward(t)), d);
    var forwarded := Step(submitted, OnOperator(Forward(t)));
    assert d == [OnTask(TakeReply(r))] + [];
    RanFirst(forwarded, OnTask(TakeReply(r)), []);
    assert s.signals + [] == s.signals;
  }

  /** The claimed answer is reserved, taken and flushed, and its ticket is told so. */
  lemma AnswerWritten(s: System, r: RequestId, t: Ticket, answer: Answer, text: string)
    requires s.transport.queue == Cleared && s.transport.open && !s.transport.failed
    requires s.transport.flushed == s.transport.taken == |s.transport.items|
    requires r < |s.operators.requests| && s.operators.requests[r].phase == Chosen(answer, Some(t))
    requires Room(s.transport, text)
    ensures var ran := Ran(s, WritesOf(r, text));
      && ran.Some? && ran.value.signals == s.signals + [Signal(t, true)]
      && ran.value.transport.items == s.transport.items + [Response(text, false, Answering(r, answer, Some(t)))]
      && ran.value.transport.flushed == |ran.value.transport.items| && !ran.value.transport.failed
      && ran.value.transport.queue.frames == []
  {
    var deliver, take, flush := OnTask(Deliver(r, Some(text), true)), OnWire(TakeItem(true)), OnWire(Flush(true));
    var item := Response(text, false, Answering(r, answer, Some(t)));
    assert (s.transport.items + [item])[|s.transport.items|] == item;
    assert s.signals + [] == s.signals;
    assert WritesOf(r, text) == [deliver] + ([take] + [flush]) && [flush] == [flush] + [];
    RanFirst(s, deliver, [take] + [flush]);
    var delivered := Step(s, deliver);
    RanFirst(delivered, take, [flush]);
    RanFirst(Step(delivered, take), flush, []);
  }

  /**
   From every drained state, every answer whose text fits the limits arrives: it is claimed, enqueued, written, and
   acknowledged as delivered, with nothing left behind.
   */
  lemma AnswerArrives(s: System, answer: Answer, text: string)
    requires Drained(s) && Utf8Length(text) <= s.transport.limits.frameBytes
    requires 1 <= s.transport.limits.callbackFrames && Utf8Length(text) + 1 <= s.transport.limits.callbackBytes
    ensures var r, t := |s.operators.requests|, |s.operators.commands|;
      var ran := Ran(s, ClaimsOf(r, t, answer) + WritesOf(r, text));
      && ran.Some? && ran.value.signals == s.signals + [Signal(t, true)]
      && ran.value.transport.items == s.transport.items + [Response(text, false, Answering(r, answer, Some(t)))]
      && ran.value.transport.flushed == |ran.value.transport.items| && !ran.value.transport.failed
      && ran.value.transport.queue.frames == []
  {
    var r, t := |s.operators.requests|, |s.operators.commands|;
    DrainedIsEmpty(s);
    AnswerClaimed(s, answer);
    RanConcat(s, ClaimsOf(r, t, answer), WritesOf(r, text));
    AnswerWritten(Ran(s, ClaimsOf(r, t, answer)).value, r, t, answer, text);
  }
}
