/** What every interleaving of the callback responses keeps. */
module OperatorSafety {
  import opened Prelude
  import opened CallbackQueue
  import opened OperatorDelivery
  import opened WireRanks

  // ---------------------------------------------------------------- who holds an acknowledgement

  function Sent(signals: seq<Signal>, t: Ticket): nat {
    if signals == [] then 0
    else Sent(signals[..|signals| - 1], t) + (if signals[|signals| - 1].ticket == t then 1 else 0)
  }

  function Slots(frames: seq<Slot>, t: Ticket): nat {
    if frames == [] then 0 else (if frames[0].ack == Some(t) then 1 else 0) + Slots(frames[1..], t)
  }

  function InTask(request: Request, t: Ticket): nat {
    (if request.mail == Some(t) then 1 else 0)
        + (if request.phase.Chosen? && request.phase.reply == Some(t) then 1 else 0)
  }

  function WithOperators(o: Operators, t: Ticket): nat {
    if t >= |o.commands| then 0
    else
      var c := o.commands[t];
      (if c.queued then 1 else 0) + (if c.request < |o.requests| then InTask(o.requests[c.request], t) else 0)
  }

  /** Every place an acknowledgement can be, and how often it was sent. */
  function Held(s: System, t: Ticket): nat {
    WithOperators(s.operators, t) + Slots(s.transport.queue.frames, t) + Sent(s.signals, t)
  }

  ghost predicate Linear(s: System) {
    forall t: Ticket :: Held(s, t) <= if t < |s.operators.commands| then 1 else 0
  }

  lemma {:induction false} SlotsAppend(frames: seq<Slot>, slot: Slot, t: Ticket)
    ensures Slots(frames + [slot], t) == Slots(frames, t) + (if slot.ack == Some(t) then 1 else 0)
  {
    if frames == [] {
      assert frames + [slot] == [slot];
    } else {
      assert (frames + [slot])[1..] == frames[1..] + [slot];
      SlotsAppend(frames[1..], slot, t);
    }
  }

  lemma {:induction false} SlotsNonzero(frames: seq<Slot>, i: nat, t: Ticket)
    requires i < |frames| && frames[i].ack == Some(t)
    ensures Slots(frames, t) >= 1
  {
    if i > 0 {
      SlotsNonzero(frames[1..], i - 1, t);
    }
  }

  lemma {:induction false} SentConcat(a: seq<Signal>, b: seq<Signal>, t: Ticket)
    ensures Sent(a + b, t) == Sent(a, t) + Sent(b, t)
  {
    if b == [] {
      assert a + b == a;
    } else {
      var n := |b| - 1;
      SentConcat(a, b[..n], t);
      assert (a + b)[..|a| + n] == a + b[..n];
    }
  }

  /** A failure sends every acknowledgement that was in the queue, once. */
  lemma {:induction false} RefusalsSendAll(frames: seq<Slot>, t: Ticket)
    ensures Sent(Refusals(frames), t) == Slots(frames, t)
  {
    if frames != [] {
      RefusalsSendAll(frames[1..], t);
      SentConcat(if frames[0].ack.Some? then [Signal(frames[0].ack.value, false)] else [], Refusals(frames[1..]), t);
    }
  }

  lemma {:induction false} RefusalsRefuse(frames: seq<Slot>)
    ensures forall k :: 0 <= k < |Refusals(frames)| ==> !Refusals(frames)[k].delivered
  {
    if frames != [] {
      RefusalsRefuse(frames[1..]);
    }
  }

  // ---------------------------------------------------------------- the invariant

  predicate IsClaimed(o: Operators, t: Ticket) { t < |o.commands| && o.commands[t].fence == Claimed }

  ghost predicate RequestOk(o: Operators, r: RequestId)
    requires r < |o.requests|
  {
    var request := o.requests[r];
    && (request.mail.Some? ==> request.mail.value < |o.commands| && o.commands[request.mail.value].request == r)
    && (request.phase.Chosen? && request.phase.reply.Some? ==>
          && IsClaimed(o, request.phase.reply.value)
          && o.commands[request.phase.reply.value].request == r
          && o.commands[request.phase.reply.value].answer == request.phase.answer)
  }

  ghost predicate OperatorsOk(o: Operators) {
    && (forall r :: 0 <= r < |o.requests| ==> RequestOk(o, r))
    && (forall t :: 0 <= t < |o.commands| && o.commands[t].won ==> o.commands[t].fence == Cancelled)
  }

  ghost predicate SlotsOk(o: Operators, q: Queue) {
    forall i :: 0 <= i < |q.frames| && q.frames[i].ack.Some? ==> IsClaimed(o, q.frames[i].ack.value)
  }

  ghost predicate SignalsOk(o: Operators, signals: seq<Signal>) {
    forall k :: 0 <= k < |signals| && signals[k].delivered ==> IsClaimed(o, signals[k].ticket)
  }

  predicate Answers(i: Item, r: RequestId) { i.Response? && i.origin.Answering? && i.origin.request == r }

  /** An enqueued operator response is the final act of its request, with the answer of a claimed command. */
  ghost predicate ItemOk(o: Operators, i: Item) {
    i.Response? && i.origin.Answering? ==>
      && i.origin.request < |o.requests| && o.requests[i.origin.request].phase == Finished
      && (i.origin.reply.Some? ==>
            && IsClaimed(o, i.origin.reply.value)
            && o.commands[i.origin.reply.value].request == i.origin.request
            && o.commands[i.origin.reply.value].answer == i.origin.answer)
  }

  ghost predicate ItemsOk(o: Operators, items: seq<Item>) {
    && (forall i :: 0 <= i < |items| ==> ItemOk(o, items[i]))
    && (forall i, j, r :: 0 <= i < j < |items| && Answers(items[i], r) ==> !Answers(items[j], r))
  }

  ghost predicate SlotFor(slot: Slot, i: Item) {
    && i.Response? && slot.text == i.text && slot.redacted == i.redacted
    && slot.ack == (if i.origin.Answering? then i.origin.reply else None)
  }

  /** The slots stand, in order, for the reserved responses that were enqueued and not yet flushed. */
  ghost predicate Aligned(frames: seq<Slot>, reserved: seq<Item>) {
    |frames| == |reserved| && forall i :: 0 <= i < |frames| ==> SlotFor(frames[i], reserved[i])
  }

  /** How many responses were flushed, whoever made them: so many slots were freed. */
  function Freeings(w: Transport): nat
    requires w.flushed <= |w.items|
  {
    |Among(w.items, w.flushed, IsResponse)|
  }

  /** Each flushed response had the text of the slot it freed, and the slots left are those after them. */
  ghost predicate Ranked(w: Transport)
    requires w.flushed <= |w.items|
  {
    var flushed, reserved := Among(w.items, w.flushed, IsResponse), Reserved(w.items);
    && |flushed| <= |reserved|
    && Aligned(w.queue.frames, reserved[|flushed|..])
    && forall j :: 0 <= j < |flushed| ==> flushed[j].text == reserved[j].text
  }

  ghost predicate TransportOk(w: Transport) {
    && Within(w.queue, w.limits)
    && w.flushed <= w.taken <= w.flushed + 1 && w.taken <= |w.items|
    && (!w.failed ==> w.open)
    && (!w.failed ==> Ranked(w))
    && (!w.failed && w.flushed < w.taken && w.items[w.flushed].Response? ==>
        MatchesFront(w.queue, w.items[w.flushed].text))
  }

  /** Acknowledged as delivered are the tickets of the freed slots. */
  ghost predicate ReceiptsOk(w: Transport, signals: seq<Signal>)
    requires w.flushed <= |w.items|
  {
    !w.failed ==>
      && Freeings(w) <= |Reserved(w.items)|
      && forall t: Ticket :: Signal(t, true) in signals <==> Carried(Reserved(w.items)[..Freeings(w)], t)
  }

  ghost predicate Inv(s: System) {
    && OperatorsOk(s.operators)
    && Linear(s)
    && SlotsOk(s.operators, s.transport.queue)
    && SignalsOk(s.operators, s.signals)
    && ItemsOk(s.operators, s.transport.items)
    && TransportOk(s.transport)
    && ReceiptsOk(s.transport, s.signals)
  }

  // ---------------------------------------------------------------- the operators' side

  /** Requests and commands only grow; what is claimed or finished stays so. */
  ghost predicate Extends(o: Operators, o': Operators) {
    && |o.commands| <= |o'.commands| && |o.requests| <= |o'.requests|
    && (forall t :: 0 <= t < |o.commands| ==>
          && o'.commands[t].request == o.commands[t].request && o'.commands[t].answer == o.commands[t].answer
          && (IsClaimed(o, t) ==> IsClaimed(o', t)))
    && (forall r :: 0 <= r < |o.requests| && o.requests[r].phase == Finished ==> o'.requests[r].phase == Finished)
  }

  lemma ExtendsKeeps(s: System, o: Operators, sent: seq<Signal>)
    requires Inv(s) && Extends(s.operators, o)
    requires forall k :: 0 <= k < |sent| ==> !sent[k].delivered
    ensures SlotsOk(o, s.transport.queue) && SignalsOk(o, s.signals + sent)
    ensures ItemsOk(o, s.transport.items) && ReceiptsOk(s.transport, s.signals + sent)
  {
    var w := s.transport;
    forall i | 0 <= i < |w.items| ensures ItemOk(o, w.items[i]) {
      assert ItemOk(s.operators, w.items[i]);
    }
  }

  /** An acknowledgement moves between holders or is sent; it is never copied. */
  lemma LinearKept(s: System, s': System, sent: seq<Signal>)
    requires Linear(s) && s'.transport.queue == s.transport.queue && s'.signals == s.signals + sent
    requires |s.operators.commands| == |s'.operators.commands|
    requires forall t: Ticket :: WithOperators(s'.operators, t) + Sent(sent, t) <= WithOperators(s.operators, t)
    ensures Linear(s')
  {
    forall t: Ticket ensures Held(s', t) <= if t < |s'.operators.commands| then 1 else 0 {
      SentConcat(s.signals, sent, t);
      assert Held(s, t) <= if t < |s.operators.commands| then 1 else 0;
    }
  }

  lemma ForwardMoves(o: Operators, t: Ticket, u: Ticket)
    requires OperatorEnabled(o, Forward(t))
    ensures WithOperators(Forwarded(o, t).0, u) + Sent(Forwarded(o, t).1, u) <= WithOperators(o, u)
  {
  }

  lemma ForwardOk(o: Operators, t: Ticket)
    requires OperatorsOk(o) && OperatorEnabled(o, Forward(t))
    ensures OperatorsOk(Forwarded(o, t).0) && Extends(o, Forwarded(o, t).0)
  {
    var o' := Forwarded(o, t).0;
    forall r | 0 <= r < |o'.requests| ensures RequestOk(o', r) {
      assert RequestOk(o, r);
    }
  }

  lemma ForwardKeeps(s: System, t: Ticket)
    requires Inv(s) && OperatorEnabled(s.operators, Forward(t))
    ensures Inv(Step(s, OnOperator(Forward(t))))
  {
    var (o', sent) := Forwarded(s.operators, t);
    ForwardOk(s.operators, t);
    ExtendsKeeps(s, o', sent);
    forall u: Ticket { ForwardMoves(s.operators, t, u); }
    LinearKept(s, Step(s, OnOperator(Forward(t))), sent);
  }

  lemma SubmitKeeps(s: System, r: RequestId, answer: Answer)
    requires Inv(s)
    ensures Inv(Step(s, OnOperator(Submit(r, answer))))
  {
    var o, s' := s.operators, Step(s, OnOperator(Submit(r, answer)));
    forall q | 0 <= q < |s'.operators.requests| ensures RequestOk(s'.operators, q) {
      assert RequestOk(o, q);
    }
    ExtendsKeeps(s, s'.operators, []);
    assert s'.signals == s.signals;
    forall u: Ticket ensures Held(s', u) <= if u < |s'.operators.commands| then 1 else 0 {
      assert Held(s, u) <= if u < |o.commands| then 1 else 0;
      if u == |o.commands| && r < |o.requests| {
        assert RequestOk(o, r);
      }
    }
  }

  lemma OtherOperatorMovesKeep(s: System, a: OperatorMove)
    requires Inv(s) && OperatorEnabled(s.operators, a) && !a.Forward? && !a.Submit?
    ensures Inv(Step(s, OnOperator(a)))
  {
    var s' := Step(s, OnOperator(a));
    var o' := s'.operators;
    forall r | 0 <= r < |o'.requests| ensures RequestOk(o', r) {
      assert r < |s.operators.requests| ==> RequestOk(s.operators, r);
    }
    ExtendsKeeps(s, o', []);
    LinearKept(s, s', []);
  }

  // ---------------------------------------------------------------- the answering task

  lemma GiveUpKeeps(s: System, r: RequestId)
    requires Inv(s) && TaskEnabled(s, GiveUp(r))
    ensures Inv(Step(s, OnTask(GiveUp(r))))
  {
    var s' := Step(s, OnTask(GiveUp(r)));
    forall q | 0 <= q < |s'.operators.requests| ensures RequestOk(s'.operators, q) {
      assert RequestOk(s.operators, q);
    }
    ExtendsKeeps(s, s'.operators, []);
    assert s'.signals == s.signals + [];
    LinearKept(s, s', []);
  }

  lemma RepliedOk(o: Operators, r: RequestId)
    requires OperatorsOk(o) && Usable(o, r)
    ensures OperatorsOk(Replied(o, r).0) && Extends(o, Replied(o, r).0)
  {
    var o' := Replied(o, r).0;
    assert RequestOk(o, r);
    forall q | 0 <= q < |o'.requests| ensures RequestOk(o', q) {
      assert RequestOk(o, q);
    }
  }

  lemma RepliedMoves(o: Operators, r: RequestId, u: Ticket)
    requires OperatorsOk(o) && Usable(o, r)
    ensures WithOperators(Replied(o, r).0, u) + Sent(Replied(o, r).1, u) <= WithOperators(o, u)
  {
    assert RequestOk(o, r);
  }

  lemma TakeReplyKeeps(s: System, r: RequestId)
    requires Inv(s) && TaskEnabled(s, TakeReply(r))
    ensures Inv(Step(s, OnTask(TakeReply(r))))
  {
    var (o', sent) := Replied(s.operators, r);
    RepliedOk(s.operators, r);
    ExtendsKeeps(s, o', sent);
    forall u: Ticket { RepliedMoves(s.operators, r, u); }
    LinearKept(s, Step(s, OnTask(TakeReply(r))), sent);
  }

  /** One more item, with a slot at the back if it is a reserved response. */
  lemma ItemOkForTransport(w: Transport, q: Queue, i: Item)
    requires TransportOk(w) && Within(q, w.limits)
    requires if IsReserved(i) then q.frames != [] && q.frames[..|q.frames| - 1] == w.queue.frames && SlotFor(Last(q), i)
             else q == w.queue
    ensures TransportOk(w.(queue := q, items := w.items + [i]))
  {
    ReservedAppend(w.items, i);
    AmongPrefix(w.items, [i], w.flushed, IsResponse);
    if IsReserved(i) {
      assert q.frames == w.queue.frames + [Last(q)];
    }
  }

  function Last(q: Queue): Slot
    requires q.frames != []
  {
    q.frames[|q.frames| - 1]
  }

  lemma AdmitOk(w: Transport, text: string, redacted: bool, ack: Option<Ticket>, origin: Origin, accepted: bool)
    requires TransportOk(w) && origin != Sdk && ack == (if origin.Answering? then origin.reply else None)
    ensures TransportOk(Admit(w, text, redacted, ack, origin, accepted))
  {
    if Fits(w.queue, w.limits, text) {
      ReserveWithin(w.queue, w.limits, Slot(text, redacted, ack));
      if accepted {
        ItemOkForTransport(w, Reserve(w.queue, Slot(text, redacted, ack)), Response(text, redacted, origin));
      }
    }
  }

  /** The request's own part of delivering: it is finished, and its ticket moves on. */
  lemma DeliverOperators(s: System, r: RequestId, text: Option<string>, accepted: bool)
    requires Inv(s) && TaskEnabled(s, Deliver(r, text, accepted))
    ensures var o' := Delivered(s, r, text, accepted).operators;
      && OperatorsOk(o') && Extends(s.operators, o') && o'.commands == s.operators.commands
      && forall u: Ticket :: WithOperators(o', u)
           + (if s.operators.requests[r].phase.reply == Some(u) then 1 else 0) == WithOperators(s.operators, u)
  {
    var o' := Delivered(s, r, text, accepted).operators;
    assert RequestOk(s.operators, r);
    forall q | 0 <= q < |o'.requests| ensures RequestOk(o', q) {
      assert RequestOk(s.operators, q);
    }
  }

  lemma DeliverRefusedKeeps(s: System, r: RequestId, text: Option<string>, accepted: bool)
    requires Inv(s) && TaskEnabled(s, Deliver(r, text, accepted))
    requires text.None? || !Fits(s.transport.queue, s.transport.limits, text.value)
    ensures Inv(Delivered(s, r, text, accepted))
  {
    var s' := Delivered(s, r, text, accepted);
    var reply := s.operators.requests[r].phase.reply;
    var sent := if reply.Some? then [Signal(reply.value, false)] else [];
    DeliverOperators(s, r, text, accepted);
    ExtendsKeeps(s, s'.operators, sent);
    LinearKept(s, s', sent);
  }

  lemma DeliverItems(s: System, r: RequestId, text: string, accepted: bool)
    requires Inv(s) && TaskEnabled(s, Deliver(r, Some(text), accepted))
    requires Fits(s.transport.queue, s.transport.limits, text)
    ensures var s' := Delivered(s, r, Some(text), accepted); ItemsOk(s'.operators, s'.transport.items)
  {
    var s' := Delivered(s, r, Some(text), accepted);
    DeliverOperators(s, r, Some(text), accepted);
    ExtendsKeeps(s, s'.operators, []);
    assert RequestOk(s.operators, r);
    forall i | 0 <= i < |s'.transport.items| ensures ItemOk(s'.operators, s'.transport.items[i]) {
      if i < |s.transport.items| {
        assert ItemOk(s'.operators, s.transport.items[i]);
      }
    }
    forall i | 0 <= i < |s.transport.items| ensures !Answers(s.transport.items[i], r) {
      assert ItemOk(s.operators, s.transport.items[i]);
    }
  }

  lemma DeliverAdmittedKeeps(s: System, r: RequestId, text: string, accepted: bool)
    requires Inv(s) && TaskEnabled(s, Deliver(r, Some(text), accepted))
    requires Fits(s.transport.queue, s.transport.limits, text)
    ensures Inv(Delivered(s, r, Some(text), accepted))
  {
    var s' := Delivered(s, r, Some(text), accepted);
    var Chosen(answer, reply) := s.operators.requests[r].phase;
    assert RequestOk(s.operators, r);
    DeliverOperators(s, r, Some(text), accepted);
    DeliverItems(s, r, text, accepted);
    AdmitOk(s.transport, text, false, reply, Answering(r, answer, reply), accepted);
    ExtendsKeeps(s, s'.operators, []);
    assert s.signals + [] == s.signals;
    forall u: Ticket ensures Held(s', u) <= if u < |s'.operators.commands| then 1 else 0 {
      assert Held(s, u) <= if u < |s.operators.commands| then 1 else 0;
      SlotsAppend(s.transport.queue.frames, Slot(text, false, reply), u);
    }
    ReceiptsStay(s.transport, s'.transport, s.signals);
  }

  /** More items behind the same freed slots change no acknowledgement. */
  lemma ReceiptsStay(w: Transport, w': Transport, signals: seq<Signal>)
    requires w.flushed <= |w.items| && ReceiptsOk(w, signals) && (!w'.failed ==> !w.failed)
    requires w'.flushed == w.flushed && (w'.items == w.items || exists i :: w'.items == w.items + [i])
    ensures ReceiptsOk(w', signals)
  {
    if w'.items != w.items && !w'.failed {
      var i :| w'.items == w.items + [i];
      ReservedAppend(w.items, i);
      AmongPrefix(w.items, [i], w.flushed, IsResponse);
      assert Reserved(w'.items)[..Freeings(w)] == Reserved(w.items)[..Freeings(w)];
    }
  }

  // ---------------------------------------------------------------- the writer

  lemma LinearBySlots(s: System, s': System)
    requires Linear(s) && s'.operators == s.operators && s'.signals == s.signals
    requires forall u: Ticket :: Slots(s'.transport.queue.frames, u) == Slots(s.transport.queue.frames, u)
    ensures Linear(s')
  {
    forall u: Ticket ensures Held(s', u) <= if u < |s'.operators.commands| then 1 else 0 {
      assert Held(s, u) <= if u < |s.operators.commands| then 1 else 0;
    }
  }

  lemma EnqueueLinear(s: System, text: string, redacted: bool, s': System)
    requires Linear(s) && s'.operators == s.operators && s'.signals == s.signals
    requires s'.transport.queue == Reserve(s.transport.queue, Slot(text, redacted, None))
    ensures Linear(s')
  {
    forall u: Ticket { SlotsAppend(s.transport.queue.frames, Slot(text, redacted, None), u); }
    LinearBySlots(s, s');
  }

  lemma EnqueueFits(s: System, text: string, redacted: bool, accepted: bool)
    requires Inv(s) && Fits(s.transport.queue, s.transport.limits, text)
    ensures Inv(s.(transport := Admit(s.transport, text, redacted, None, Service, accepted)))
  {
    var s' := s.(transport := Admit(s.transport, text, redacted, None, Service, accepted));
    AdmitOk(s.transport, text, redacted, None, Service, accepted);
    EnqueueLinear(s, text, redacted, s');
    ReceiptsStay(s.transport, s'.transport, s.signals);
  }

  lemma EnqueueKeeps(s: System, text: string, redacted: bool, accepted: bool)
    requires Inv(s)
    ensures Inv(Step(s, OnWire(Enqueue(text, redacted, accepted))))
  {
    assert s.signals + [] == s.signals;
    if Fits(s.transport.queue, s.transport.limits, text) {
      EnqueueFits(s, text, redacted, accepted);
    }
  }

  lemma SdkSendsKeeps(s: System, item: Item)
    requires Inv(s) && !IsReserved(item)
    ensures Inv(Step(s, OnWire(SdkSends(item))))
  {
    var s' := Step(s, OnWire(SdkSends(item)));
    ItemOkForTransport(s.transport, s.transport.queue, item);
    assert s'.signals == s.signals;
    LinearBySlots(s, s');
    ReceiptsStay(s.transport, s'.transport, s.signals);
  }

  lemma FailureKeeps(s: System, s': System)
    requires Inv(s) && s'.operators == s.operators
    requires var (w, sent) := Broken(s.transport);
      s'.transport == w.(open := s'.transport.open) && s'.signals == s.signals + sent
    ensures Inv(s')
  {
    var frames := s.transport.queue.frames;
    RefusalsRefuse(frames);
    forall u: Ticket ensures Held(s', u) <= if u < |s'.operators.commands| then 1 else 0 {
      assert Held(s, u) <= if u < |s.operators.commands| then 1 else 0;
      SentConcat(s.signals, Refusals(frames), u);
      RefusalsSendAll(frames, u);
    }
  }

  lemma TakeItemKeeps(s: System, parses: bool)
    requires Inv(s) && WireEnabled(s.transport, TakeItem(parses))
    ensures Inv(Step(s, OnWire(TakeItem(parses))))
  {
    var s' := Step(s, OnWire(TakeItem(parses)));
    if s'.transport.taken == s.transport.taken {
      FailureKeeps(s, s');
    } else {
      assert s'.signals == s.signals;
      forall u: Ticket ensures Held(s', u) <= if u < |s'.operators.commands| then 1 else 0 {
        assert Held(s, u) <= if u < |s.operators.commands| then 1 else 0;
      }
      ReceiptsStay(s.transport, s'.transport, s.signals);
    }
  }

  /** One more response flushed: one more slot freed, the one of its rank, whose text it has. */
  lemma FreedTransport(w: Transport)
    requires TransportOk(w) && w.flushed < w.taken && w.items[w.flushed].Response?
    ensures TransportOk(w.(flushed := w.flushed + 1, queue := Freed(w.queue)))
  {
    if !w.failed {
      var r := Freeings(w);
      assert SlotFor(w.queue.frames[0], Reserved(w.items)[r]);
      assert Reserved(w.items)[r..][1..] == Reserved(w.items)[r + 1..];
    }
  }

  lemma CarriedAppend(items: seq<Item>, i: Item, t: Ticket)
    ensures Carried(items + [i], t) <==> Carried(items, t) || Carries(i, t)
  {
    if Carried(items, t) {
      var j :| 0 <= j < |items| && Carries(items[j], t);
      assert Carries((items + [i])[j], t);
    }
    if Carries(i, t) {
      assert Carries((items + [i])[|items|], t);
    }
  }

  /** The acknowledgement that a flush sends is the one of the slot of its rank. */
  lemma ReceiptIsRanked(w: Transport, signals: seq<Signal>)
    requires TransportOk(w) && w.flushed < w.taken && w.items[w.flushed].Response? && ReceiptsOk(w, signals)
    ensures ReceiptsOk(w.(flushed := w.flushed + 1, queue := Freed(w.queue)), signals + Receipt(w.queue.frames))
  {
    if !w.failed {
      var r, reserved := Freeings(w), Reserved(w.items);
      assert SlotFor(w.queue.frames[0], reserved[r]);
      assert reserved[..r + 1] == reserved[..r] + [reserved[r]];
      forall t: Ticket
        ensures Signal(t, true) in signals + Receipt(w.queue.frames) <==> Carried(reserved[..r + 1], t)
      {
        CarriedAppend(reserved[..r], reserved[r], t);
      }
    }
  }

  lemma MessagePasses(w: Transport, signals: seq<Signal>)
    requires TransportOk(w) && w.flushed < w.taken && w.items[w.flushed].Message? && ReceiptsOk(w, signals)
    ensures TransportOk(w.(flushed := w.flushed + 1)) && ReceiptsOk(w.(flushed := w.flushed + 1), signals)
  {
    assert Among(w.items, w.flushed + 1, IsResponse) == Among(w.items, w.flushed, IsResponse);
  }

  lemma FrontMoves(frames: seq<Slot>, u: Ticket)
    requires frames != []
    ensures Slots(frames, u) == Slots(frames[1..], u) + Sent(Receipt(frames), u)
  {
    var receipt := Receipt(frames);
    if receipt != [] {
      assert receipt[..|receipt| - 1] == [];
    }
  }

  /** A flushed response hands its acknowledgement from the queue to the signals. */
  lemma FlushHolds(s: System, u: Ticket)
    requires Inv(s) && WireEnabled(s.transport, Flush(true)) && s.transport.items[s.transport.flushed].Response?
    ensures Held(Step(s, OnWire(Flush(true))), u) <= if u < |s.operators.commands| then 1 else 0
  {
    assert Held(s, u) <= if u < |s.operators.commands| then 1 else 0;
    var frames := s.transport.queue.frames;
    SentConcat(s.signals, Receipt(frames), u);
    if frames != [] {
      FrontMoves(frames, u);
    }
  }

  /** Sending it copies no acknowledgement. */
  lemma FlushLinear(s: System)
    requires Inv(s) && WireEnabled(s.transport, Flush(true)) && s.transport.items[s.transport.flushed].Response?
    ensures Linear(Step(s, OnWire(Flush(true))))
  {
    forall u: Ticket ensures Held(Step(s, OnWire(Flush(true))), u) <= if u < |s.operators.commands| then 1 else 0 {
      FlushHolds(s, u);
    }
  }

  /** The acknowledgement that is sent is of a claimed answer, like those still in the queue. */
  lemma FlushClaims(s: System)
    requires Inv(s)
    ensures SlotsOk(s.operators, Freed(s.transport.queue))
    ensures SignalsOk(s.operators, s.signals + Receipt(s.transport.queue.frames))
  {
  }

  lemma FlushRanks(s: System)
    requires Inv(s) && WireEnabled(s.transport, Flush(true)) && s.transport.items[s.transport.flushed].Response?
    ensures var s' := Step(s, OnWire(Flush(true)));
      TransportOk(s'.transport) && ReceiptsOk(s'.transport, s'.signals)
  {
    FreedTransport(s.transport);
    ReceiptIsRanked(s.transport, s.signals);
  }

  lemma FlushResponseKeeps(s: System)
    requires Inv(s) && WireEnabled(s.transport, Flush(true)) && s.transport.items[s.transport.flushed].Response?
    ensures Inv(Step(s, OnWire(Flush(true))))
  {
    FlushClaims(s);
    FlushRanks(s);
    FlushLinear(s);
  }

  lemma FlushMessageKeeps(s: System)
    requires Inv(s) && WireEnabled(s.transport, Flush(true)) && s.transport.items[s.transport.flushed].Message?
    ensures Inv(Step(s, OnWire(Flush(true))))
  {
    var s' := Step(s, OnWire(Flush(true)));
    MessagePasses(s.transport, s.signals);
    assert s'.signals == s.signals;
    forall u: Ticket ensures Held(s', u) <= if u < |s'.operators.commands| then 1 else 0 {
      assert Held(s, u) <= if u < |s.operators.commands| then 1 else 0;
    }
  }

  lemma StepKeeps(s: System, a: Action)
    requires Inv(s) && Enabled(s, a)
    ensures Inv(Step(s, a))
  {
    match a
    case OnOperator(Forward(t)) => ForwardKeeps(s, t);
    case OnOperator(Submit(r, answer)) => SubmitKeeps(s, r, answer);
    case OnOperator(move) => OtherOperatorMovesKeep(s, move);
    case OnTask(GiveUp(r)) => GiveUpKeeps(s, r);
    case OnTask(TakeReply(r)) => TakeReplyKeeps(s, r);
    case OnTask(Deliver(r, text, accepted)) =>
      if text.None? || !Fits(s.transport.queue, s.transport.limits, text.value) {
        DeliverRefusedKeeps(s, r, text, accepted);
      } else {
        DeliverAdmittedKeeps(s, r, text.value, accepted);
      }
    case OnWire(Enqueue(text, redacted, accepted)) => EnqueueKeeps(s, text, redacted, accepted);
    case OnWire(SdkSends(item)) => SdkSendsKeeps(s, item);
    case OnWire(TakeItem(parses)) => TakeItemKeeps(s, parses);
    case OnWire(Flush(written)) =>
      if !written {
        FailureKeeps(s, Step(s, a));
      } else if s.transport.items[s.transport.flushed].Response? {
        FlushResponseKeeps(s);
      } else {
        FlushMessageKeeps(s);
      }
    case OnWire(CleanUp) => FailureKeeps(s, Step(s, a));
  }

  lemma {:induction false} EveryStateSafe(limits: Limits, trace: seq<System>, actions: seq<Action>, i: nat)
    requires Execution(limits, trace, actions) && i < |trace|
    ensures Inv(trace[i])
  {
    if i > 0 {
      EveryStateSafe(limits, trace, actions, i - 1);
      StepKeeps(trace[i - 1], actions[i - 1]);
    }
  }

  // ---------------------------------------------------------------- what it means

  /**
   In every run, failures included, an acknowledgement is sent at most once, and `true` only by a claimed delivery.
   */
  lemma AcknowledgedAtMostOnce(limits: Limits, trace: seq<System>, actions: seq<Action>, i: nat, t: Ticket)
    requires Execution(limits, trace, actions) && i < |trace|
    ensures Sent(trace[i].signals, t) <= 1
    ensures Signal(t, true) in trace[i].signals ==> IsClaimed(trace[i].operators, t)
  {
    EveryStateSafe(limits, trace, actions, i);
    assert Held(trace[i], t) <= if t < |trace[i].operators.commands| then 1 else 0;
  }

  /** If `cancel` ever returned true for a command, its answer is in no frame and is never acknowledged as delivered. */
  lemma CancelledIsNeverEnqueued(limits: Limits, trace: seq<System>, actions: seq<Action>, i: nat, t: Ticket)
    requires Execution(limits, trace, actions) && i < |trace|
    requires t < |trace[i].operators.commands| && trace[i].operators.commands[t].won
    ensures forall j :: 0 <= j < |trace[i].transport.items| ==> !Carries(trace[i].transport.items[j], t)
    ensures Signal(t, true) !in trace[i].signals
  {
    EveryStateSafe(limits, trace, actions, i);
    forall j | 0 <= j < |trace[i].transport.items| ensures ItemOk(trace[i].operators, trace[i].transport.items[j]) {
    }
  }

  /** Each routed request enqueues at most one response. */
  lemma OneResponsePerRequest(limits: Limits, trace: seq<System>, actions: seq<Action>, i: nat, r: RequestId, j: nat,
                              k: nat)
    requires Execution(limits, trace, actions) && i < |trace|
    requires j < |trace[i].transport.items| && k < |trace[i].transport.items|
    requires Answers(trace[i].transport.items[j], r) && Answers(trace[i].transport.items[k], r)
    ensures j == k
  {
    EveryStateSafe(limits, trace, actions, i);
  }
}
