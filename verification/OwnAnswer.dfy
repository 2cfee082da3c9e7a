/**
 A reachable run in which a response of the SDK's own has the text of the operator's answer that is next in line.

 The writer compares texts, so it takes that frame for the reserved one: the operator is told that the answer was
 delivered before its own frame is written. An answer is always a result, so the SDK would have to make up a result.
 */
module OwnAnswer {
  import opened Prelude
  import opened CallbackQueue
  import opened OperatorDelivery
  import opened WireRanks
  import opened OperatorReceipts

  ghost predicate Reachable(limits: Limits, s: System) {
    exists trace: seq<System>, actions: seq<Action> :: Execution(limits, trace, actions) && trace[|actions|] == s
  }

  lemma InitiallyReachable(limits: Limits)
    ensures Reachable(limits, Start(limits))
  {
    assert Execution(limits, [Start(limits)], []) && [Start(limits)][0] == Start(limits);
  }

  lemma StepReachable(limits: Limits, s: System, a: Action)
    requires Reachable(limits, s) && Enabled(s, a)
    ensures Reachable(limits, Step(s, a))
  {
    var trace: seq<System>, actions: seq<Action> :| Execution(limits, trace, actions) && trace[|actions|] == s;
    var trace', actions' := trace + [Step(s, a)], actions + [a];
    forall i | 0 <= i < |actions'|
      ensures Enabled(trace'[i], actions'[i]) && trace'[i + 1] == Step(trace'[i], actions'[i])
    {
      if i < |actions| {
        assert trace'[i] == trace[i] && trace'[i + 1] == trace[i + 1] && actions'[i] == actions[i];
      }
    }
    assert trace'[|actions'|] == Step(s, a);
  }

  const LIMITS: Limits := Limits(100, 10, 1000)

  /** A request was routed, an operator answered it, and the answering task claimed the answer. */
  lemma ClaimAnswer() returns (s: System)
    ensures Reachable(LIMITS, s) && s.transport == Start(LIMITS).transport && s.signals == []
    ensures s.operators.requests == [Request(Chosen("a", Some(0)), false, None, false)]
    ensures s.operators.commands == [Command(0, "a", Claimed, false, false)]
  {
    InitiallyReachable(LIMITS);
    s := Start(LIMITS);
    StepReachable(LIMITS, s, OnOperator(Route));
    s := Step(s, OnOperator(Route));
    StepReachable(LIMITS, s, OnOperator(Submit(0, "a")));
    s := Step(s, OnOperator(Submit(0, "a")));
    StepReachable(LIMITS, s, OnOperator(Forward(0)));
    s := Step(s, OnOperator(Forward(0)));
    StepReachable(LIMITS, s, OnTask(TakeReply(0)));
    s := Step(s, OnTask(TakeReply(0)));
  }

  const TWIN: Item := Response("x", false, Sdk)
  const ANSWER: Item := Response("x", false, Answering(0, "a", Some(0)))

  /** The SDK's own response is in line. */
  lemma TwinInLine() returns (s: System)
    ensures Reachable(LIMITS, s) && s.transport == Start(LIMITS).transport.(items := [TWIN]) && s.signals == []
    ensures s.operators.requests == [Request(Chosen("a", Some(0)), false, None, false)]
    ensures s.operators.commands == [Command(0, "a", Claimed, false, false)]
  {
    s := ClaimAnswer();
    StepReachable(LIMITS, s, OnWire(SdkSends(TWIN)));
    s := Step(s, OnWire(SdkSends(TWIN)));
  }

  /** And then the answer, with the one reservation. */
  lemma BothInLine() returns (s: System)
    ensures Reachable(LIMITS, s) && s.signals == []
    ensures s.transport == Transport(LIMITS, Queue([Slot("x", false, Some(0))], 2), [TWIN, ANSWER], 0, 0, true, false)
  {
    s := TwinInLine();
    assert Utf8Length("x") == 1 + Utf8Length("");
    StepReachable(LIMITS, s, OnTask(Deliver(0, Some("x"), true)));
    s := Step(s, OnTask(Deliver(0, Some("x"), true)));
  }

  lemma TwinTaken() returns (s: System)
    ensures Reachable(LIMITS, s) && s.signals == []
    ensures s.transport == Transport(LIMITS, Queue([Slot("x", false, Some(0))], 2), [TWIN, ANSWER], 1, 0, true, false)
  {
    s := BothInLine();
    assert Utf8Length("x") == 1 + Utf8Length("");
    StepReachable(LIMITS, s, OnWire(TakeItem(true)));
    s := Step(s, OnWire(TakeItem(true)));
  }

  lemma TwinFlushed() returns (s: System)
    ensures Reachable(LIMITS, s) && s.signals == [Signal(0, true)]
    ensures s.transport == Transport(LIMITS, Queue([], 0), [TWIN, ANSWER], 1, 1, true, false)
  {
    s := TwinTaken();
    assert Utf8Length("x") == 1 + Utf8Length("");
    StepReachable(LIMITS, s, OnWire(Flush(true)));
    s := Step(s, OnWire(Flush(true)));
  }

  /** Such a twin is what the condition on acknowledgements shuts out: without it the answer's frame is not flushed. */
  lemma OwnAnswerPasses() returns (s: System)
    ensures Reachable(LIMITS, s) && !s.transport.failed && s.transport.flushed == 1
    ensures |s.transport.items| == 2 && Carries(s.transport.items[1], 0) && !NoTwin(s.transport, 0)
    ensures Signal(0, true) in s.signals && !AnswerFlushed(s, 0)
  {
    s := TwinFlushed();
    assert s.signals[0] == Signal(0, true);
    assert s.transport.items[0] == TWIN && s.transport.items[1] == ANSWER;
  }
}
