/**
 What an acknowledgement of true says about the wire, exactly.

 The writer frees the slot in front for every response it flushes, the SDK's own included, and compares only texts. So
 the slots freed beyond the reserved responses flushed are as many as the SDK's own, and have just their texts.
 */
module OperatorReceipts {
  import opened Prelude
  import opened CallbackQueue
  import opened OperatorDelivery
  import opened WireRanks
  import opened OperatorSafety

  /** How many reserved responses were flushed. */
  function OwnFlushed(w: Transport): nat
    requires w.flushed <= |w.items|
  {
    |Among(w.items, w.flushed, IsReserved)|
  }

  /** The reserved responses whose slot is freed, but whose own frame is not flushed. */
  function FreedEarly(w: Transport): seq<Item>
    requires w.flushed <= |w.items| && OwnFlushed(w) <= Freeings(w) <= |Reserved(w.items)|
  {
    Reserved(w.items)[OwnFlushed(w)..Freeings(w)]
  }

  lemma Ranks(limits: Limits, trace: seq<System>, actions: seq<Action>, i: nat)
    requires Execution(limits, trace, actions) && i < |trace| && !trace[i].transport.failed
    ensures Inv(trace[i])
    ensures var w := trace[i].transport;
      && OwnFlushed(w) + |Among(w.items, w.flushed, OfSdk)| == Freeings(w) <= |Reserved(w.items)|
      && Among(w.items, w.flushed, IsReserved) == Reserved(w.items)[..OwnFlushed(w)]
  {
    EveryStateSafe(limits, trace, actions, i);
    var w := trace[i].transport;
    TwoKinds(w.items, w.flushed);
    ReservedSplits(w.items, w.flushed);
  }

  // ---------------------------------------------------------------- the slots

  function Texts(frames: seq<Slot>): seq<string> { seq(|frames|, i requires 0 <= i < |frames| => frames[i].text) }

  /**
   Up to the first failure the counter is the total of the slots and within budget, and the slots are those of the
   reserved responses, in order, from the rank that the responses flushed have reached. Those are the responses not yet
   flushed if and only if the SDK's own were not among the flushed ones.
   */
  lemma ReservationsMatchWire(limits: Limits, trace: seq<System>, actions: seq<Action>, i: nat)
    requires Execution(limits, trace, actions) && i < |trace| && !trace[i].transport.failed
    ensures var w := trace[i].transport; var reserved := Reserved(w.items);
      && w.flushed <= |w.items|
      && w.queue.bytes == Total(w.queue.frames) <= w.limits.callbackBytes
      && |w.queue.frames| <= w.limits.callbackFrames
      && OwnFlushed(w) <= Freeings(w) <= |reserved|
      && Aligned(w.queue.frames, reserved[Freeings(w)..])
      && (Texts(w.queue.frames) == ItemTexts(reserved[OwnFlushed(w)..]) <==> Among(w.items, w.flushed, OfSdk) == [])
  {
    Ranks(limits, trace, actions, i);
    var w := trace[i].transport;
    if Among(w.items, w.flushed, OfSdk) != [] {
      assert |Texts(w.queue.frames)| != |ItemTexts(Reserved(w.items)[OwnFlushed(w)..])|;
    }
  }

  /** A reserved response reaches the writer with its own slot in front if and only if no SDK response went before. */
  lemma OwnSlotInFront(limits: Limits, trace: seq<System>, actions: seq<Action>, i: nat)
    requires Execution(limits, trace, actions) && i < |trace| && !trace[i].transport.failed
    requires trace[i].transport.flushed < |trace[i].transport.items|
    requires IsReserved(trace[i].transport.items[trace[i].transport.flushed])
    ensures var w := trace[i].transport; var reserved, item := Reserved(w.items), w.items[w.flushed];
      && OwnFlushed(w) < |reserved| && reserved[OwnFlushed(w)] == item
      && (Freeings(w) == OwnFlushed(w) <==> Among(w.items, w.flushed, OfSdk) == [])
      && (Among(w.items, w.flushed, OfSdk) == [] ==>
            && w.queue.frames != [] && SlotFor(w.queue.frames[0], item) && MatchesFront(w.queue, item.text)
            && Utf8Length(item.text) <= w.limits.frameBytes)
  {
    Ranks(limits, trace, actions, i);
    var w := trace[i].transport;
    ReservedSplits(w.items, w.flushed);
    assert Freeings(w) == OwnFlushed(w) ==> Reserved(w.items)[Freeings(w)..][0] == w.items[w.flushed];
  }

  // ---------------------------------------------------------------- one acknowledgement

  lemma CarriedSplit(items: seq<Item>, n: nat, t: Ticket)
    requires n <= |items|
    ensures Carried(items, t) <==> Carried(items[..n], t) || Carried(items[n..], t)
  {
    if Carried(items, t) {
      var j :| 0 <= j < |items| && Carries(items[j], t);
      assert if j < n then items[..n][j] == items[j] else items[n..][j - n] == items[j];
    }
    if Carried(items[n..], t) {
      var j :| 0 <= j < |items[n..]| && Carries(items[n..][j], t);
      assert items[n + j] == items[n..][j];
    }
  }

  /** A ticket is carried by one reserved response at most. */
  lemma CarriedOnce(s: System, t: Ticket, a: nat, b: nat)
    requires Inv(s) && a < b < |Reserved(s.transport.items)|
    requires Carries(Reserved(s.transport.items)[a], t)
    ensures !Carries(Reserved(s.transport.items)[b], t)
  {
    var items := s.transport.items;
    RanksApart(items, |items|, IsReserved, a, b);
    var k, l :| 0 <= k < l < |items| && items[k] == Reserved(items)[a] && items[l] == Reserved(items)[b];
    assert ItemOk(s.operators, items[k]) && ItemOk(s.operators, items[l]);
    assert Carries(items[l], t) ==> Answers(items[k], s.operators.commands[t].request)
                                    && Answers(items[l], s.operators.commands[t].request);
  }

  /**
   In every run, up to the first failure: acknowledged as delivered are exactly the answers whose slot is freed. A
   flushed answer is acknowledged, and acknowledged without being flushed are exactly the answers freed early.
   */
  lemma AcknowledgedByRank(limits: Limits, trace: seq<System>, actions: seq<Action>, i: nat, t: Ticket)
    requires Execution(limits, trace, actions) && i < |trace| && !trace[i].transport.failed
    ensures var w, told := trace[i].transport, Signal(t, true) in trace[i].signals;
      && w.flushed <= |w.items| && OwnFlushed(w) <= Freeings(w) <= |Reserved(w.items)|
      && (told <==> Carried(Reserved(w.items)[..Freeings(w)], t))
      && (FlushedFor(w.items, w.flushed, t) ==> told)
      && (told && !FlushedFor(w.items, w.flushed, t) <==> Carried(FreedEarly(w), t))
  {
    Ranks(limits, trace, actions, i);
    var w := trace[i].transport;
    var reserved, own, freed := Reserved(w.items), OwnFlushed(w), Freeings(w);
    FlushedByRank(w.items, w.flushed, t);
    CarriedSplit(reserved[..freed], own, t);
    assert reserved[..freed][..own] == reserved[..own] && reserved[..freed][own..] == FreedEarly(w);
    if Carried(reserved[..own], t) && Carried(FreedEarly(w), t) {
      var a :| 0 <= a < own && Carries(reserved[..own][a], t);
      var b :| 0 <= b < freed - own && Carries(FreedEarly(w)[b], t);
      CarriedOnce(trace[i], t, a, own + b);
      assert false;
    }
  }

  predicate HoldsTicket(i: Item) { i.Response? && i.origin.Answering? && i.origin.reply.Some? }

  /** So every acknowledgement is sound if and only if no slot freed early holds one. */
  lemma AllSoundExactly(limits: Limits, trace: seq<System>, actions: seq<Action>, i: nat)
    requires Execution(limits, trace, actions) && i < |trace| && !trace[i].transport.failed
    ensures var s, w := trace[i], trace[i].transport;
      && w.flushed <= |w.items| && OwnFlushed(w) <= Freeings(w) <= |Reserved(w.items)|
      && ((forall t: Ticket :: Signal(t, true) in s.signals ==> FlushedFor(w.items, w.flushed, t)) <==>
          (forall j :: 0 <= j < |FreedEarly(w)| ==> !HoldsTicket(FreedEarly(w)[j])))
  {
    Ranks(limits, trace, actions, i);
    var s, early := trace[i], FreedEarly(trace[i].transport);
    forall t: Ticket
      ensures Signal(t, true) in s.signals && !FlushedFor(s.transport.items, s.transport.flushed, t) <==>
              Carried(early, t)
    {
      AcknowledgedByRank(limits, trace, actions, i, t);
    }
    forall j | 0 <= j < |early| && HoldsTicket(early[j]) ensures Carried(early, early[j].origin.reply.value) {
      assert Carries(early[j], early[j].origin.reply.value);
    }
  }

  // ---------------------------------------------------------------- whose texts are freed early

  /** The slots freed early have, with their multiplicities, the texts of the SDK's own responses flushed so far. */
  lemma EarlyTexts(limits: Limits, trace: seq<System>, actions: seq<Action>, i: nat)
    requires Execution(limits, trace, actions) && i < |trace| && !trace[i].transport.failed
    ensures var w := trace[i].transport;
      && w.flushed <= |w.items| && OwnFlushed(w) <= Freeings(w) <= |Reserved(w.items)|
      && multiset(ItemTexts(FreedEarly(w))) == multiset(ItemTexts(Among(w.items, w.flushed, OfSdk)))
  {
    Ranks(limits, trace, actions, i);
    var w := trace[i].transport;
    var freed := Reserved(w.items)[..Freeings(w)];
    SameTexts(freed, Among(w.items, w.flushed, IsResponse));
    TextsOfTheRest(w.items, w.flushed, freed);
    assert freed[OwnFlushed(w)..] == FreedEarly(w);
  }

  /** An item freed early has the text of an SDK response that was flushed. */
  lemma EarlyHasTwin(limits: Limits, trace: seq<System>, actions: seq<Action>, i: nat, j: nat) returns (k: nat)
    requires Execution(limits, trace, actions) && i < |trace| && !trace[i].transport.failed
    requires var w := trace[i].transport;
      w.flushed <= |w.items| && OwnFlushed(w) <= Freeings(w) <= |Reserved(w.items)| && j < |FreedEarly(w)|
    ensures var w := trace[i].transport;
      k < w.flushed <= |w.items| && OfSdk(w.items[k]) && w.items[k].text == FreedEarly(w)[j].text
  {
    EarlyTexts(limits, trace, actions, i);
    var w := trace[i].transport;
    var twins := Among(w.items, w.flushed, OfSdk);
    assert ItemTexts(FreedEarly(w))[j] in multiset(ItemTexts(twins));
    var n :| 0 <= n < |twins| && ItemTexts(twins)[n] == FreedEarly(w)[j].text;
    AmongAre(w.items, w.flushed, OfSdk, twins[n]);
    k :| 0 <= k < w.flushed && w.items[k] == twins[n];
  }

  /** The frame of the answer that command `t` gave was flushed. */
  predicate AnswerFlushed(s: System, t: Ticket)
    requires s.transport.flushed <= |s.transport.items|
  {
    t < |s.operators.commands| &&
    var c := s.operators.commands[t];
    exists j :: 0 <= j < s.transport.flushed && s.transport.items[j].Response?
                && s.transport.items[j].origin == Answering(c.request, c.answer, Some(t))
  }

  lemma FlushedIsAnswer(s: System, t: Ticket)
    requires Inv(s)
    ensures FlushedFor(s.transport.items, s.transport.flushed, t) <==> AnswerFlushed(s, t)
  {
    var items := s.transport.items;
    if FlushedFor(items, s.transport.flushed, t) {
      var j :| 0 <= j < s.transport.flushed && Carries(items[j], t);
      assert ItemOk(s.operators, items[j]);
    }
    if AnswerFlushed(s, t) {
      var c := s.operators.commands[t];
      var j :| 0 <= j < s.transport.flushed && items[j].Response?
               && items[j].origin == Answering(c.request, c.answer, Some(t));
      assert Carries(items[j], t);
    }
  }

  /** No response of the SDK's own that was flushed has the text of the answer that carries `t`. */
  predicate NoTwin(w: Transport, t: Ticket)
    requires w.flushed <= |w.items|
  {
    forall j, k :: 0 <= j < |w.items| && Carries(w.items[j], t) && 0 <= k < w.flushed && OfSdk(w.items[k]) ==>
      w.items[k].text != w.items[j].text
  }

  lemma EarlyNeedsTwin(limits: Limits, trace: seq<System>, actions: seq<Action>, i: nat, t: Ticket)
    requires Execution(limits, trace, actions) && i < |trace| && !trace[i].transport.failed
    requires var w := trace[i].transport;
      w.flushed <= |w.items| && OwnFlushed(w) <= Freeings(w) <= |Reserved(w.items)| && Carried(FreedEarly(w), t)
    ensures !NoTwin(trace[i].transport, t)
  {
    var w := trace[i].transport;
    var j :| 0 <= j < |FreedEarly(w)| && Carries(FreedEarly(w)[j], t);
    var k := EarlyHasTwin(limits, trace, actions, i, j);
    AmongAre(w.items, |w.items|, IsReserved, Reserved(w.items)[OwnFlushed(w) + j]);
  }

  /** Up to the first failure, and with no twin of its answer: acknowledged if and only if its own frame was flushed. */
  lemma AcknowledgedMeansFlushed(limits: Limits, trace: seq<System>, actions: seq<Action>, i: nat, t: Ticket)
    requires Execution(limits, trace, actions) && i < |trace| && !trace[i].transport.failed
    requires trace[i].transport.flushed <= |trace[i].transport.items| && NoTwin(trace[i].transport, t)
    ensures Signal(t, true) in trace[i].signals <==> AnswerFlushed(trace[i], t)
  {
    var w := trace[i].transport;
    Ranks(limits, trace, actions, i);
    AcknowledgedByRank(limits, trace, actions, i, t);
    FlushedIsAnswer(trace[i], t);
    if Carried(FreedEarly(w), t) {
      EarlyNeedsTwin(limits, trace, actions, i, t);
      assert false;
    }
  }

  /** Items are only added, and what was flushed stays flushed. */
  ghost predicate Grows(s: System, s': System) {
    && s.transport.items <= s'.transport.items
    && s.transport.flushed <= s'.transport.flushed <= |s'.transport.items|
    && |s.operators.commands| <= |s'.operators.commands|
    && forall t :: 0 <= t < |s.operators.commands| ==>
         && s'.operators.commands[t].request == s.operators.commands[t].request
         && s'.operators.commands[t].answer == s.operators.commands[t].answer
  }

  lemma WireGrows(s: System, move: WireMove)
    requires Inv(s) && WireEnabled(s.transport, move)
    ensures Grows(s, Step(s, OnWire(move)))
  {
  }

  lemma StepGrows(s: System, a: Action)
    requires Inv(s) && Enabled(s, a)
    ensures Grows(s, Step(s, a))
  {
    match a
    case OnOperator(_) =>
    case OnTask(_) =>
    case OnWire(move) => WireGrows(s, move);
  }

  lemma EveryStepGrows(limits: Limits, trace: seq<System>, actions: seq<Action>, i: nat)
    requires Execution(limits, trace, actions) && i < |actions|
    ensures Grows(trace[i], trace[i + 1])
  {
    EveryStateSafe(limits, trace, actions, i);
    StepGrows(trace[i], actions[i]);
  }

  lemma {:induction false} FlushedOn(trace: seq<System>, i: nat, j: nat, t: Ticket)
    requires i <= j < |trace| && forall k :: i <= k < j ==> Grows(trace[k], trace[k + 1])
    requires trace[i].transport.flushed <= |trace[i].transport.items| && AnswerFlushed(trace[i], t)
    ensures trace[j].transport.flushed <= |trace[j].transport.items| && AnswerFlushed(trace[j], t)
  {
    if i < j {
      FlushedOn(trace, i, j - 1, t);
      assert Grows(trace[j - 1], trace[j - 1 + 1]);
      AnswerStays(trace[j - 1], trace[j], t);
    }
  }

  /** So an acknowledgement that was sound when it was sent stays so, whatever fails afterwards. */
  lemma FlushedStays(limits: Limits, trace: seq<System>, actions: seq<Action>, i: nat, j: nat, t: Ticket)
    requires Execution(limits, trace, actions) && i <= j < |trace|
    requires trace[i].transport.flushed <= |trace[i].transport.items| && AnswerFlushed(trace[i], t)
    ensures trace[j].transport.flushed <= |trace[j].transport.items| && AnswerFlushed(trace[j], t)
  {
    forall k | i <= k < j ensures Grows(trace[k], trace[k + 1]) {
      EveryStepGrows(limits, trace, actions, k);
    }
    FlushedOn(trace, i, j, t);
  }

  lemma AnswerStays(s: System, s': System, t: Ticket)
    requires s.transport.flushed <= |s.transport.items| && Grows(s, s') && AnswerFlushed(s, t)
    ensures AnswerFlushed(s', t)
  {
    var c := s.operators.commands[t];
    var j :| 0 <= j < s.transport.flushed && s.transport.items[j].Response?
             && s.transport.items[j].origin == Answering(c.request, c.answer, Some(t));
    assert s'.transport.items[j] == s.transport.items[j];
  }

  /** What the SDK makes up itself is an error, and what answers an operator's request is not. */
  predicate OnlyErrors(items: seq<Item>, error: string -> bool) {
    forall k :: 0 <= k < |items| && items[k].Response? ==>
      && (items[k].origin == Sdk ==> error(items[k].text))
      && (items[k].origin.Answering? ==> !error(items[k].text))
  }

  /** Where the SDK's own responses are errors, every acknowledgement is sound, whatever slots those errors take. */
  lemma ErrorsTakeNoAnswer(limits: Limits, trace: seq<System>, actions: seq<Action>, i: nat, t: Ticket,
                           error: string -> bool)
    requires Execution(limits, trace, actions) && i < |trace| && !trace[i].transport.failed
    requires OnlyErrors(trace[i].transport.items, error)
    ensures trace[i].transport.flushed <= |trace[i].transport.items|
    ensures Signal(t, true) in trace[i].signals <==> AnswerFlushed(trace[i], t)
  {
    EveryStateSafe(limits, trace, actions, i);
    AcknowledgedMeansFlushed(limits, trace, actions, i, t);
  }
}
