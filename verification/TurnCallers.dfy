/**
 When a successful turn command can be trusted, and that the program's own callers can always trust it.
 */
module TurnCallers {
  import opened Prelude
  import opened TurnServices

  // ---------------------------------------------------------------- exactly when a success means quiet

  /** A process whose task gave up on it while it was still there. */
  ghost predicate LostBefore(s: Services, t: nat) {
    exists p :: 0 <= p < |s.processes| && s.processes[p].callback < t
                && s.processes[p].done == Some(false) && !s.processes[p].gone
  }

  ghost predicate RefusedBefore(s: Services, t: nat)
    requires t <= |s.commands|
  {
    exists c :: 0 <= c < t && s.commands[c] == Callback && c in s.replies && s.replies[c] == Refused
  }

  /**
   In every run, failures included: after a successful turn command all that came before it is over exactly when no
   earlier process was lost and no earlier reply was refused. Nothing is ever still running or still pending.
   */
  lemma SuccessExactly(trace: seq<Services>, actions: seq<Action>, i: nat, t: nat)
    requires Execution(trace, actions) && i < |trace| && Succeeded(trace[i], t)
    ensures t < |trace[i].commands|
    ensures Settled(trace[i], t)
    ensures Quiesced(trace[i], t) <==> !LostBefore(trace[i], t) && !RefusedBefore(trace[i], t)
  {
    EveryStateOk(trace, actions, i);
    var s := trace[i];
    forall p | 0 <= p < |s.processes| && s.processes[p].callback < t && !LostBefore(s, t) ensures s.processes[p].gone {
      assert AckOk(s, t) && ProcessOk(s, s.processes[p]);
      EndedSomehow(s.processes[p].done);
    }
  }

  /** Until a failure is raised, a success means every earlier terminal is gone and every earlier reply is queued. */
  lemma SuccessMeansQuiet(trace: seq<Services>, actions: seq<Action>, i: nat, t: nat)
    requires Execution(trace, actions) && i < |trace| && Succeeded(trace[i], t) && !trace[i].fatal
    ensures t < |trace[i].commands| && Quiesced(trace[i], t)
  {
    EveryStateOk(trace, actions, i);
  }

  // ---------------------------------------------------------------- the program's callers

  /** Every earlier turn command was acknowledged as successful. */
  ghost predicate AllSucceeded(s: Services) {
    forall t :: 0 <= t < |s.commands| && s.commands[t] != Callback ==> Succeeded(s, t)
  }

  /** A caller waits for its acknowledgement and ends the connection when it fails or does not come. */
  ghost predicate CallersWait(trace: seq<Services>, actions: seq<Action>)
    requires |trace| == |actions| + 1
  {
    forall i :: 0 <= i < |actions| && actions[i].Send? && actions[i].command != Callback ==> AllSucceeded(trace[i])
  }

  ghost predicate Failed(s: Services) { exists f :: f in s.acks && !s.acks[f] }

  /** Every turn command but the last has succeeded. */
  ghost predicate OneOpen(s: Services) {
    forall f, g :: 0 <= f < g < |s.commands| && s.commands[f] != Callback && s.commands[g] != Callback ==>
        Succeeded(s, f)
  }

  /** Turn commands are acknowledged in order, and only they are. */
  ghost predicate InOrder(s: Services) {
    && OneOpen(s)
    && (forall t :: t in s.acks ==> t < |s.commands| && s.commands[t] != Callback)
    && (s.phase.Retiring? ==> s.phase.command < |s.commands| && s.commands[s.phase.command] != Callback)
  }

  /** A process that ended badly is remembered by the actor or by a failed acknowledgement, never by a success. */
  ghost predicate Remembered(s: Services) {
    && (forall p :: 0 <= p < |s.processes| && s.processes[p].joined && s.processes[p].done == Some(false) ==>
          !s.processesOk || Failed(s))
    && (forall t: nat, p :: Succeeded(s, t) && 0 <= p < |s.processes| && s.processes[p].callback < t ==>
          s.processes[p].done == Some(true))
  }

  ghost predicate CallersOk(s: Services) { InOrder(s) && Remembered(s) }

  lemma EndedSomehow(done: Option<bool>)
    requires done.Some?
    ensures done == Some(true) || done == Some(false)
  {
    if done.value {
      assert done == Some(true);
    } else {
      assert done == Some(false);
    }
  }

  /** Acknowledgements stay, and what is joined has ended as it ended. */
  ghost predicate SameHistory(s: Services, s': Services) {
    && s'.acks == s.acks && s'.processesOk == s.processesOk && |s.processes| <= |s'.processes|
    && (forall p :: 0 <= p < |s.processes| ==>
          && s'.processes[p].callback == s.processes[p].callback && s'.processes[p].joined == s.processes[p].joined
          && (s.processes[p].joined ==> s'.processes[p].done == s.processes[p].done))
    && (forall p :: |s.processes| <= p < |s'.processes| ==>
          !s'.processes[p].joined && forall t :: t in s.acks ==> t <= s'.processes[p].callback)
  }

  lemma SameHistoryRemembers(s: Services, s': Services)
    requires Inv(s) && Remembered(s) && SameHistory(s, s')
    ensures Remembered(s')
  {
    assert Failed(s) ==> Failed(s');
    forall t: nat, p | Succeeded(s', t) && 0 <= p < |s'.processes| && s'.processes[p].callback < t
      ensures s'.processes[p].done == Some(true)
    {
      assert Succeeded(s, t) && AckOk(s, t);
    }
  }

  /** A new refusal: with one turn command open at a time, it is the last one's. */
  lemma RefusedKeepsCallers(s: Services, s': Services, t: nat)
    requires CallersOk(s) && t < |s.commands| && t !in s.acks && s.commands[t] != Callback
    requires s' == s.(acks := s.acks[t := false], fatal := true, phase := Ready, taken := s'.taken)
    ensures CallersOk(s')
  {
    assert !s'.acks[t] && Failed(s');
    assert forall u: nat :: Succeeded(s', u) == Succeeded(s, u);
  }

  lemma TakeKeepsCallers(s: Services)
    requires Inv(s) && CallersOk(s) && Enabled(s, Take)
    ensures CallersOk(Taken(s))
  {
    if s.commands[s.taken] != Callback && !s.processesOk {
      RefusedKeepsCallers(s, Taken(s), s.taken);
    } else {
      SameHistoryRemembers(s, Taken(s));
      assert forall u: nat :: Succeeded(Taken(s), u) == Succeeded(s, u);
    }
  }

  /** A process joined outside a retirement, or joined well, changes no acknowledgement. */
  lemma JoinedRemembers(s: Services, p: nat)
    requires Inv(s) && CallersOk(s) && Enabled(s, JoinProcess(p))
        && (s.phase.Ready? || s.processes[p].done == Some(true))
    ensures Remembered(ProcessJoined(s, p))
  {
    var s' := ProcessJoined(s, p);
    EndedSomehow(s.processes[p].done);
    assert Failed(s) ==> Failed(s');
    forall t: nat, q | Succeeded(s', t) && 0 <= q < |s'.processes| && s'.processes[q].callback < t
      ensures s'.processes[q].done == Some(true)
    {
      assert Succeeded(s, t);
    }
  }

  /** One joined badly makes the retirement fail, and that failure is remembered. */
  lemma BadJoinRemembers(s: Services, p: nat)
    requires Inv(s) && CallersOk(s) && Enabled(s, JoinProcess(p)) && s.phase.Retiring?
    requires s.processes[p].done == Some(false)
    ensures Remembered(ProcessJoined(s, p))
  {
    var s' := ProcessJoined(s, p);
    assert !s'.acks[s.phase.command] && Failed(s');
    forall t: nat, q | Succeeded(s', t) && 0 <= q < |s'.processes| && s'.processes[q].callback < t
      ensures s'.processes[q].done == Some(true)
    {
      assert Succeeded(s, t);
    }
  }

  lemma JoinKeepsCallers(s: Services, p: nat)
    requires Inv(s) && CallersOk(s) && Enabled(s, JoinProcess(p))
    ensures CallersOk(ProcessJoined(s, p))
  {
    EndedSomehow(s.processes[p].done);
    assert forall u: nat :: Succeeded(ProcessJoined(s, p), u) == Succeeded(s, u);
    if s.phase.Ready? || s.processes[p].done == Some(true) {
      JoinedRemembers(s, p);
    } else {
      BadJoinRemembers(s, p);
    }
  }

  /** No earlier acknowledgement failed, because the callers would have sent no further command. */
  lemma NoneFailed(s: Services)
    requires PhaseOk(s) && InOrder(s) && s.phase.Retiring?
    ensures !Failed(s)
  {
    forall f | f in s.acks ensures s.acks[f] {
      assert f < s.phase.command && Succeeded(s, f);
    }
  }

  lemma AllEndedWell(s: Services)
    requires Inv(s) && CallersOk(s) && s.phase.Retiring? && AllJoined(s)
    ensures forall p :: 0 <= p < |s.processes| ==> s.processes[p].done == Some(true)
  {
    NoneFailed(s);
    forall p | 0 <= p < |s.processes| ensures s.processes[p].done == Some(true) {
      assert ProcessOk(s, s.processes[p]);
      EndedSomehow(s.processes[p].done);
    }
  }

  /** A retirement that completes has no failed one before it, so everything it joined had ended well. */
  lemma CompleteKeepsCallers(s: Services, parentCancelled: bool)
    requires Inv(s) && CallersOk(s) && Enabled(s, Retires(Complete(parentCancelled))) && TerminalsOk(s)
    ensures CallersOk(Retired(s, parentCancelled))
  {
    AllEndedWell(s);
    var s' := Retired(s, parentCancelled);
    assert forall u: nat :: u != s.phase.command ==> Succeeded(s', u) == Succeeded(s, u);
  }

  lemma SendKeepsCallers(s: Services, command: Command)
    requires Inv(s) && CallersOk(s) && (command != Callback ==> AllSucceeded(s))
    ensures CallersOk(s.(commands := s.commands + [command]))
  {
    var s' := s.(commands := s.commands + [command]);
    SameHistoryRemembers(s, s');
    assert forall u: nat :: Succeeded(s', u) == Succeeded(s, u);
  }

  lemma OthersKeepCallers(s: Services, s': Services)
    requires Inv(s) && CallersOk(s) && SameHistory(s, s') && s'.commands == s.commands
    requires s'.phase.Retiring? ==> s'.phase == s.phase
    ensures CallersOk(s')
  {
    SameHistoryRemembers(s, s');
    assert forall u: nat :: Succeeded(s', u) == Succeeded(s, u);
  }

  lemma CallbackHistory(s: Services, a: CallbackMove)
    requires Inv(s) && Enabled(s, Callbacks(a))
    ensures SameHistory(s, CallbackStep(s, a))
  {
  }

  lemma TaskHistory(s: Services, a: TaskMove)
    requires Inv(s) && Enabled(s, Tasks(a))
    ensures SameHistory(s, TaskStep(s, a))
  {
    if a.ProcessEnds? {
      assert ProcessOk(s, s.processes[a.process]);
    }
  }

  lemma RetireKeepsCallers(s: Services, a: RetireMove)
    requires Inv(s) && CallersOk(s) && Enabled(s, Retires(a))
    ensures CallersOk(Step(s, Retires(a)))
  {
    if a.Complete? && TerminalsOk(s) {
      CompleteKeepsCallers(s, a.parentCancelled);
    } else {
      RefusedKeepsCallers(s, RetireFailed(s), s.phase.command);
    }
  }

  lemma StepKeepsCallers(s: Services, a: Action)
    requires Inv(s) && CallersOk(s) && Enabled(s, a)
    requires a.Send? && a.command != Callback ==> AllSucceeded(s)
    ensures CallersOk(Step(s, a))
  {
    match a
    case Send(command) => SendKeepsCallers(s, command);
    case Take => TakeKeepsCallers(s);
    case JoinProcess(p) => JoinKeepsCallers(s, p);
    case Retires(retire) => RetireKeepsCallers(s, retire);
    case Callbacks(move) =>
      CallbackHistory(s, move);
      OthersKeepCallers(s, Step(s, a));
    case Tasks(move) =>
      TaskHistory(s, move);
      OthersKeepCallers(s, Step(s, a));
    case _ => OthersKeepCallers(s, Step(s, a));
  }

  lemma {:induction false} CallersAlwaysOk(trace: seq<Services>, actions: seq<Action>, i: nat)
    requires Execution(trace, actions) && CallersWait(trace, actions) && i < |trace|
    ensures CallersOk(trace[i])
  {
    if i > 0 {
      CallersAlwaysOk(trace, actions, i - 1);
      EveryStateOk(trace, actions, i - 1);
      StepKeepsCallers(trace[i - 1], actions[i - 1]);
    }
  }

  /**
   For callers that wait, as the program's do, every success is sound, whatever failed elsewhere: every process of
   an earlier callback is gone, and every earlier reply was handed over, or refused with the failure raised.
   */
  lemma SuccessIsSound(trace: seq<Services>, actions: seq<Action>, i: nat, t: nat)
    requires Execution(trace, actions) && CallersWait(trace, actions) && i < |trace| && Succeeded(trace[i], t)
    ensures var s := trace[i];
      && t < |s.commands|
      && (forall p :: 0 <= p < |s.processes| && s.processes[p].callback < t ==> s.processes[p].gone)
      && (forall c :: 0 <= c < t && s.commands[c] == Callback ==>
            c in s.replies && (s.replies[c] == Handed || (s.replies[c] == Refused && s.fatal)))
  {
    EveryStateOk(trace, actions, i);
    CallersAlwaysOk(trace, actions, i);
    var s := trace[i];
    assert AckOk(s, t);
    forall p | 0 <= p < |s.processes| ensures ProcessOk(s, s.processes[p]) {
    }
    forall c | c in s.replies ensures ReplyOk(s, c) {
    }
  }

  // ---------------------------------------------------------------- what the callers' rule is needed for

  ghost predicate Reachable(s: Services) {
    exists trace: seq<Services>, actions: seq<Action> :: Execution(trace, actions) && trace[|actions|] == s
  }

  lemma InitiallyReachable()
    ensures Reachable(Initial)
  {
    assert Execution([Initial], []) && [Initial][0] == Initial;
  }

  lemma StepReachable(s: Services, a: Action)
    requires Reachable(s) && Enabled(s, a)
    ensures Reachable(Step(s, a))
  {
    var trace: seq<Services>, actions: seq<Action> :| Execution(trace, actions) && trace[|actions|] == s;
    var trace', actions' := trace + [Step(s, a)], actions + [a];
    assert Execution(trace', actions') && trace'[|actions'|] == Step(s, a);
  }

  const Script: seq<Command> := [BeginTurn, Callback, EndTurn, EndTurn]

  lemma FourCommands()
    ensures Reachable(Initial.(commands := Script))
  {
    InitiallyReachable();
    StepReachable(Initial, Send(BeginTurn));
    assert Initial.commands + [BeginTurn] == [BeginTurn];
    StepReachable(Initial.(commands := [BeginTurn]), Send(Callback));
    assert [BeginTurn] + [Callback] == [BeginTurn, Callback];
    StepReachable(Initial.(commands := [BeginTurn, Callback]), Send(EndTurn));
    assert [BeginTurn, Callback] + [EndTurn] == [BeginTurn, Callback, EndTurn];
    StepReachable(Initial.(commands := [BeginTurn, Callback, EndTurn]), Send(EndTurn));
    assert [BeginTurn, Callback, EndTurn] + [EndTurn] == Script;
  }

  lemma BegunTurn() returns (s: Services)
    ensures Reachable(s)
        && s == Initial.(commands := Script, taken := 1, turn := 1, cancelled := false, acks := map[0 := true])
  {
    FourCommands();
    s := Initial.(commands := Script);
    StepReachable(s, Take); s := Step(s, Take);
    StepReachable(s, Retires(Complete(false))); s := Step(s, Retires(Complete(false)));
  }

  lemma ReleasedTerminal() returns (s: Services)
    ensures Reachable(s) && s.phase == Handling(1, true) && s.processesOk && s.taken == 2 && s.commands == Script
    ensures s.acks == map[0 := true] && s.replies == map[] && s.joinedReplies == {}
    ensures s.processes == [Process(1, None, false, false, false)]
  {
    s := BegunTurn();
    StepReachable(s, Take); s := Step(s, Take);
    StepReachable(s, Callbacks(Spawn)); s := Step(s, Callbacks(Spawn));
    StepReachable(s, Callbacks(ReleaseTerminal(0))); s := Step(s, Callbacks(ReleaseTerminal(0)));
  }

  /** A terminal that was released and whose process then could not be killed. */
  lemma LostProcess() returns (s: Services)
    ensures Reachable(s) && s.phase == Ready && s.processesOk && s.taken == 2 && s.commands == Script
    ensures s.acks == map[0 := true] && s.replies == map[1 := Handed] && s.joinedReplies == {}
    ensures s.processes == [Process(1, Some(false), false, false, false)]
  {
    s := ReleasedTerminal();
    StepReachable(s, Callbacks(Finish)); s := Step(s, Callbacks(Finish));
    StepReachable(s, Tasks(ReplyEnds(1, true))); s := Step(s, Tasks(ReplyEnds(1, true)));
    StepReachable(s, Tasks(ProcessEnds(0, false, false))); s := Step(s, Tasks(ProcessEnds(0, false, false)));
  }

  /** The end of turn that joins it fails and raises `fatal`, but leaves `processesOk` set. */
  lemma FailedRetirement() returns (s: Services)
    ensures Reachable(s) && s.phase == Ready && s.processesOk && s.taken == 3 && s.commands == Script && s.fatal
    ensures s.processes == [Process(1, Some(false), false, true, false)]
    ensures s.acks == map[0 := true, 2 := false] && s.replies == map[1 := Handed] && s.joinedReplies == {}
  {
    s := LostProcess();
    StepReachable(s, Take); s := Step(s, Take);
    StepReachable(s, JoinProcess(0)); s := Step(s, JoinProcess(0));
  }

  /** So one more end of turn succeeds while that process is still there: a success after a failure means nothing. */
  lemma SuccessAfterFailure() returns (s: Services)
    ensures Reachable(s) && s.fatal && Succeeded(s, 3) && |s.commands| == 4 && !Quiesced(s, 3)
  {
    s := FailedRetirement();
    StepReachable(s, Take); s := Step(s, Take);
    StepReachable(s, JoinReply(1)); s := Step(s, JoinReply(1));
    StepReachable(s, Retires(Complete(false))); s := Step(s, Retires(Complete(false)));
    assert s.processes[0].callback == 1 && !s.processes[0].gone;
  }
}
