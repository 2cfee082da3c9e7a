/**
 Callback responses under every interleaving of replies, cancellations, timeouts and the writer.

 Responses enter the SDK's queue only with a reservation, and the writer checks each one against the front
 reservation. An operator's answer must win its delivery fence before it may be enqueued.
 */
module OperatorDelivery {
  import opened Prelude
  import opened CallbackQueue

  type RequestId = nat
  type Answer = string

  const CANCEL: Answer := "cancel"

  datatype Fence = Open | Cancelled | Claimed

  /** One operator's response on its way to a request. `won`: a `cancel` call on its fence returned true. */
  datatype Command = Command(request: RequestId, answer: Answer, fence: Fence, won: bool, queued: bool)

  datatype Phase = Waiting | Chosen(answer: Answer, reply: Option<Ticket>) | Finished

  /** `waiter`: the worker still holds the reply channel. `mail`: a reply sits in it. */
  datatype Request = Request(phase: Phase, waiter: bool, mail: Option<Ticket>, epochOver: bool)

  datatype Origin = Answering(request: RequestId, answer: Answer, reply: Option<Ticket>) | Service | Sdk

  datatype Item = Message(text: string) | Response(text: string, redacted: bool, origin: Origin)

  datatype Operators = Operators(requests: seq<Request>, commands: seq<Command>)

  /**
   `items` is everything ever given to the SDK; the writer took the first `taken` and flushed `flushed`. `failed`: a
   write or an enqueue failed, or the connection has ended and the reservations were dropped with it.
   */
  datatype Transport = Transport(
    limits: Limits,
    queue: Queue,
    items: seq<Item>,
    taken: nat,
    flushed: nat,
    open: bool,
    failed: bool)

  datatype System = System(operators: Operators, transport: Transport, signals: seq<Signal>)

  datatype OperatorMove =
    | Route
    | Submit(request: RequestId, answer: Answer)
    | Forward(ticket: Ticket)
    | Cancel(ticket: Ticket)
    | EndEpoch(request: RequestId)

  datatype TaskMove =
    | GiveUp(request: RequestId)
    | TakeReply(request: RequestId)
    | Deliver(request: RequestId, text: Option<string>, accepted: bool)

  datatype WireMove =
    | Enqueue(text: string, redacted: bool, accepted: bool)
    | SdkSends(item: Item)
    | TakeItem(parses: bool)
    | Flush(written: bool)
    | CleanUp

  datatype Action = OnOperator(move: OperatorMove) | OnTask(task: TaskMove) | OnWire(wire: WireMove)

  // ---------------------------------------------------------------- operators

  function SetRequest(o: Operators, r: RequestId, request: Request): Operators
    requires r < |o.requests|
  {
    o.(requests := o.requests[r := request])
  }

  function SetCommand(o: Operators, t: Ticket, command: Command): Operators
    requires t < |o.commands|
  {
    o.(commands := o.commands[t := command])
  }

  predicate OperatorEnabled(o: Operators, a: OperatorMove) {
    match a
    case Route => true
    case Submit(_, _) => true
    case Forward(t) => t < |o.commands| && o.commands[t].queued
    case Cancel(t) => t < |o.commands|
    case EndEpoch(r) => r < |o.requests|
  }

  /** The worker forwards a command unless its receipt was cancelled or nobody waits for it any more. */
  function Forwarded(o: Operators, t: Ticket): (Operators, seq<Signal>)
    requires t < |o.commands|
  {
    var c := o.commands[t];
    var o' := SetCommand(o, t, c.(queued := false));
    if c.fence == Cancelled || c.request >= |o.requests| || !o.requests[c.request].waiter then (o', [Signal(t, false)])
    else
      var r := o.requests[c.request].(waiter := false);
      if r.phase == Waiting then (SetRequest(o', c.request, r.(mail := Some(t))), [])
      else (SetRequest(o', c.request, r), [Signal(t, false)])
  }

  /** The compare-exchange of the fence: both sides move it away from `Open`, so only one can succeed. */
  function Exchange(fence: Fence, to: Fence): (Fence, bool) {
    if fence == Open then (to, true) else (fence, false)
  }

  /**
   One operator response's fence, shared by the receipt that may cancel it and the answering side that may claim it.
   */
  class DeliveryFence {
    var state: Fence

    constructor ()
      ensures state == Open
    {
      state := Open;
    }

    method Cancel() returns (won: bool)
      modifies this
      ensures (state, won) == Exchange(old(state), Cancelled)
      ensures won == (old(state) == Open) && state == if won then Cancelled else old(state)
    {
      won := state == Open;
      if won {
        state := Cancelled;
      }
    }

    method Claim() returns (won: bool)
      modifies this
      ensures (state, won) == Exchange(old(state), Claimed)
      ensures won == (old(state) == Open) && state == if won then Claimed else old(state)
    {
      won := state == Open;
      if won {
        state := Claimed;
      }
    }
  }

  function OperatorStep(o: Operators, a: OperatorMove): (Operators, seq<Signal>)
    requires OperatorEnabled(o, a)
  {
    match a
    case Route => (o.(requests := o.requests + [Request(Waiting, true, None, false)]), [])
    case Submit(r, answer) => (o.(commands := o.commands + [Command(r, answer, Open, false, true)]), [])
    case Forward(t) => Forwarded(o, t)
    case Cancel(t) =>
      var (fence, won) := Exchange(o.commands[t].fence, Cancelled);
      (SetCommand(o, t, o.commands[t].(fence := fence, won := o.commands[t].won || won)), [])
    case EndEpoch(r) => (SetRequest(o, r, o.requests[r].(epochOver := true)), [])
  }

  // ---------------------------------------------------------------- the answering task

  predicate Usable(o: Operators, r: RequestId) {
    && r < |o.requests|
    && o.requests[r].phase == Waiting
    && o.requests[r].mail.Some?
    && o.requests[r].mail.value < |o.commands|
  }

  ghost predicate TaskEnabled(s: System, a: TaskMove) {
    match a
    case GiveUp(r) => r < |s.operators.requests| && s.operators.requests[r].phase == Waiting
    case TakeReply(r) => Usable(s.operators, r) && !s.operators.requests[r].epochOver
    case Deliver(r, _, _) => r < |s.operators.requests| && s.operators.requests[r].phase.Chosen?
  }

  /** A received reply answers only if its delivery can still be claimed; otherwise the request is cancelled. */
  function Replied(o: Operators, r: RequestId): (Operators, seq<Signal>)
    requires Usable(o, r)
  {
    var t := o.requests[r].mail.value;
    var c := o.commands[t];
    var (fence, claimed) := Exchange(c.fence, Claimed);
    var phase := if claimed then Chosen(c.answer, Some(t)) else Chosen(CANCEL, None);
    (SetRequest(SetCommand(o, t, c.(fence := fence)), r, o.requests[r].(phase := phase, mail := None)),
     if claimed then [] else [Signal(t, false)])
  }

  function Admit(w: Transport, text: string, redacted: bool, ack: Option<Ticket>, origin: Origin,
                 accepted: bool): Transport
  {
    if !Fits(w.queue, w.limits, text) then w
    else
      var w := w.(queue := Reserve(w.queue, Slot(text, redacted, ack)));
      if accepted then w.(items := w.items + [Response(text, redacted, origin)]) else w.(failed := true)
  }

  function Delivered(s: System, r: RequestId, text: Option<string>, accepted: bool): System
    requires TaskEnabled(s, Deliver(r, text, accepted))
  {
    var o, w := s.operators, s.transport;
    var Chosen(answer, reply) := o.requests[r].phase;
    var s := s.(operators := SetRequest(o, r, o.requests[r].(phase := Finished)));
    if text.Some? && Fits(w.queue, w.limits, text.value)
    then s.(transport := Admit(w, text.value, false, reply, Answering(r, answer, reply), accepted))
    else s.(signals := s.signals + (if reply.Some? then [Signal(reply.value, false)] else []))
  }

  function TaskStep(s: System, a: TaskMove): System
    requires TaskEnabled(s, a)
  {
    match a
    case GiveUp(r) =>
      s.(operators := SetRequest(s.operators, r, s.operators.requests[r].(phase := Chosen(CANCEL, None), mail := None)))
    case TakeReply(r) =>
      var (o, sent) := Replied(s.operators, r);
      s.(operators := o, signals := s.signals + sent)
    case Deliver(r, text, accepted) => Delivered(s, r, text, accepted)
  }

  // ---------------------------------------------------------------- the writer

  predicate IsReserved(i: Item) { i.Response? && i.origin != Sdk }

  ghost predicate WireEnabled(w: Transport, a: WireMove) {
    match a
    case Enqueue(_, _, _) => true
    case SdkSends(item) => !IsReserved(item)
    case TakeItem(_) => w.open && w.taken == w.flushed < |w.items|
    case Flush(_) => w.open && w.flushed < w.taken <= |w.items|
    case CleanUp => true
  }

  function Broken(w: Transport): (Transport, seq<Signal>) {
    (w.(queue := Cleared, failed := true), Refusals(w.queue.frames))
  }

  /** The writer's checks before any byte of a frame is written. */
  function Taken(w: Transport, parses: bool): (Transport, seq<Signal>)
    requires w.taken < |w.items|
  {
    var item := w.items[w.taken];
    if Utf8Length(item.text) > w.limits.frameBytes || !parses || (item.Response? && !MatchesFront(w.queue, item.text))
    then Broken(w.(open := false))
    else (w.(taken := w.taken + 1), [])
  }

  function WireStep(w: Transport, a: WireMove): (Transport, seq<Signal>)
    requires WireEnabled(w, a)
  {
    match a
    case Enqueue(text, redacted, accepted) => (Admit(w, text, redacted, None, Service, accepted), [])
    case SdkSends(item) => (w.(items := w.items + [item]), [])
    case TakeItem(parses) => Taken(w, parses)
    case Flush(written) =>
      if !written then Broken(w.(open := false))
      else if w.items[w.flushed].Response?
      then (w.(flushed := w.flushed + 1, queue := Freed(w.queue)), Receipt(w.queue.frames))
      else (w.(flushed := w.flushed + 1), [])
    case CleanUp => Broken(w)
  }

  ghost predicate Enabled(s: System, a: Action) {
    match a
    case OnOperator(move) => OperatorEnabled(s.operators, move)
    case OnTask(task) => TaskEnabled(s, task)
    case OnWire(wire) => WireEnabled(s.transport, wire)
  }

  function Step(s: System, a: Action): System
    requires Enabled(s, a)
  {
    match a
    case OnOperator(move) =>
      var (o, sent) := OperatorStep(s.operators, move);
      s.(operators := o, signals := s.signals + sent)
    case OnTask(task) => TaskStep(s, task)
    case OnWire(wire) =>
      var (w, sent) := WireStep(s.transport, wire);
      s.(transport := w, signals := s.signals + sent)
  }

  function Start(limits: Limits): System {
    System(Operators([], []), Transport(limits, Cleared, [], 0, 0, true, false), [])
  }

  ghost predicate Execution(limits: Limits, trace: seq<System>, actions: seq<Action>) {
    && |trace| == |actions| + 1
    && trace[0] == Start(limits)
    && forall i :: 0 <= i < |actions| ==> Enabled(trace[i], actions[i]) && trace[i + 1] == Step(trace[i], actions[i])
  }
}
