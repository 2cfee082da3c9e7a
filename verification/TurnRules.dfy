/**
 What each step of the actor does, why a turn command may fail, and that a turn nobody disturbs succeeds.
 */
module TurnRules {
  import opened Prelude
  import opened TurnServices

  // ---------------------------------------------------------------- the steps

  /** A callback runs exactly when its turn is not cancelled; a turn command fails at once after a lost process. */
  lemma TakesExactly(s: Services)
    requires Enabled(s, Take)
    ensures var s', c := Step(s, Take), s.taken;
      && s'.taken == c + 1 && s'.processes == s.processes && s'.effects == s.effects && s'.turn == s.turn
      && (s.commands[c] == Callback ==>
            s'.phase == Handling(c, !s.cancelled) && s'.acks == s.acks && s'.cancelled == s.cancelled)
      && (s.commands[c] != Callback && s.processesOk ==>
            s'.phase == Retiring(c, s.commands[c] == BeginTurn) && s'.acks == s.acks && s'.cancelled)
      && (s.commands[c] != Callback && !s.processesOk ==>
            s'.phase == Ready && s'.acks == s.acks[c := false] && s'.fatal)
  {
  }

  /** A process that ended well is only noted. One that did not fails the retirement, or every later one. */
  lemma JoinsExactly(s: Services, p: nat)
    requires Enabled(s, JoinProcess(p))
    ensures var s' := Step(s, JoinProcess(p));
      && s'.processes == s.processes[p := s.processes[p].(joined := true)]
      && (s.processes[p].done == Some(true) ==> s' == s.(processes := s'.processes))
      && (s.processes[p].done == Some(false) && s.phase.Ready? ==>
            s' == s.(processes := s'.processes, processesOk := false))
      && (s.processes[p].done == Some(false) && s.phase.Retiring? ==>
            s' == s.(processes := s'.processes, acks := s.acks[s.phase.command := false], fatal := true,
                     phase := Ready))
  {
    assert s.processes[p].done == Some(s.processes[p].done.value);
  }

  /** With all tasks joined the retirement succeeds exactly when every terminal still named has exited well. */
  lemma CompletesExactly(s: Services, parentCancelled: bool)
    requires Enabled(s, Retires(Complete(parentCancelled)))
    ensures var s', t := Step(s, Retires(Complete(parentCancelled))), s.phase.command;
      && s'.phase == Ready && s'.effects == s.effects && s'.replies == s.replies
      && (TerminalsOk(s) ==>
            && s'.acks == s.acks[t := true] && s'.fatal == s.fatal
            && |s'.processes| == |s.processes|
            && (forall p :: 0 <= p < |s.processes| ==> s'.processes[p] == s.processes[p].(listed := false))
            && (s.phase.begins ==> s'.turn == t + 1 && s'.cancelled == parentCancelled)
            && (!s.phase.begins ==> s'.turn == s.turn && s'.cancelled == s.cancelled))
      && (!TerminalsOk(s) ==> s'.acks == s.acks[t := false] && s'.fatal && s'.processes == s.processes)
  {
  }

  // ---------------------------------------------------------------- why a turn command fails

  /** The step that acknowledges `t` as failed, and its reason. */
  ghost predicate Fails(s: Services, a: Action, t: nat) {
    || (a == Take && s.taken == t < |s.commands| && s.commands[t] != Callback && !s.processesOk)
    || (s.phase.Retiring? && s.phase.command == t
        && (a == Retires(Expire) || a == Retires(ReplyPanics)
            || (a.JoinProcess? && a.process < |s.processes| && s.processes[a.process].done == Some(false))
            || (a.Retires? && a.retire.Complete? && !TerminalsOk(s))))
  }

  ghost predicate FailedBefore(trace: seq<Services>, actions: seq<Action>, i: nat, t: nat)
    requires i <= |actions| && i <= |trace|
  {
    exists k :: 0 <= k < i && Fails(trace[k], actions[k], t)
  }

  predicate Refused(s: Services, t: nat) { t in s.acks && !s.acks[t] }

  lemma StepFails(s: Services, a: Action, t: nat)
    requires Inv(s) && Enabled(s, a)
    ensures Refused(Step(s, a), t) <==> Refused(s, t) || Fails(s, a, t)
  {
    match a
    case Take => TakesExactly(s);
    case JoinProcess(p) => JoinsExactly(s, p);
    case Retires(Complete(parentCancelled)) => CompletesExactly(s, parentCancelled);
    case _ =>
  }

  lemma EveryStepFails(trace: seq<Services>, actions: seq<Action>, i: nat, t: nat)
    requires Execution(trace, actions) && i < |actions|
    ensures Refused(trace[i + 1], t) <==> Refused(trace[i], t) || Fails(trace[i], actions[i], t)
  {
    EveryStateOk(trace, actions, i);
    StepFails(trace[i], actions[i], t);
  }

  /** Whether step `k` changes nothing for `t`, or is the one that fails it. */
  ghost predicate FailsOnce(trace: seq<Services>, actions: seq<Action>, k: nat, t: nat)
    requires k < |actions| && k + 1 < |trace|
  {
    Refused(trace[k + 1], t) <==> Refused(trace[k], t) || Fails(trace[k], actions[k], t)
  }

  lemma {:induction false} RefusedSince(trace: seq<Services>, actions: seq<Action>, i: nat, t: nat)
    requires i <= |actions| && i < |trace| && !Refused(trace[0], t)
    requires forall k: nat :: k < i ==> FailsOnce(trace, actions, k, t)
    ensures Refused(trace[i], t) <==> FailedBefore(trace, actions, i, t)
  {
    if i > 0 {
      RefusedSince(trace, actions, i - 1, t);
      assert FailsOnce(trace, actions, i - 1, t);
    }
  }

  /** In every run a turn command is refused exactly when one of these happened to it. */
  lemma RefusedExactly(trace: seq<Services>, actions: seq<Action>, i: nat, t: nat)
    requires Execution(trace, actions) && i < |trace|
    ensures Refused(trace[i], t) <==> FailedBefore(trace, actions, i, t)
  {
    forall k: nat | k < i ensures FailsOnce(trace, actions, k, t) {
      EveryStepFails(trace, actions, k, t);
    }
    RefusedSince(trace, actions, i, t);
  }

  // ---------------------------------------------------------------- a turn that nobody disturbs

  /** Taking actions one after the other, while each is enabled. */
  ghost function Ran(s: Services, actions: seq<Action>): Option<Services>
    decreases |actions|
  {
    if actions == [] then Some(s)
    else if Enabled(s, actions[0]) then Ran(Step(s, actions[0]), actions[1..])
    else None
  }

  lemma RanFirst(s: Services, a: Action, rest: seq<Action>)
    requires Enabled(s, a)
    ensures Ran(s, [a] + rest) == Ran(Step(s, a), rest)
  {
    assert ([a] + rest)[1..] == rest;
  }

  lemma {:induction false} RanConcat(s: Services, a: seq<Action>, b: seq<Action>)
    ensures Ran(s, a + b) == if Ran(s, a).Some? then Ran(Ran(s, a).value, b) else None
    decreases |a|
  {
    if a == [] {
      assert a + b == b;
    } else {
      assert (a + b)[1..] == a[1..] + b;
      if Enabled(s, a[0]) {
        RanConcat(Step(s, a[0]), a[1..], b);
      }
    }
  }

  /** Nothing queued, nothing running, nothing lost. */
  ghost predicate Quiet(s: Services) {
    && s.phase == Ready && s.taken == |s.commands| && s.processesOk && AllJoined(s) && TerminalsOk(s)
    && (forall c :: c in s.replies ==> c < |s.commands|)
  }

  function TurnMoves(command: Command): seq<Action> { [Send(command), Take, Retires(Complete(false))] }

  /** A turn command on a quiet actor succeeds: a begin installs its turn, an end leaves none. */
  lemma CommandSucceeds(s: Services, command: Command)
    requires Quiet(s) && command != Callback
    ensures var n, ran := |s.commands|, Ran(s, TurnMoves(command));
      && ran.Some? && Quiet(ran.value)
      && ran.value.commands == s.commands + [command] && ran.value.acks == s.acks[n := true]
      && ran.value.fatal == s.fatal && ran.value.effects == s.effects && ran.value.replies == s.replies
      && (command == BeginTurn ==> ran.value.turn == n + 1 && !ran.value.cancelled)
      && (command == EndTurn ==> ran.value.cancelled)
      && |ran.value.processes| == |s.processes|
  {
    var send, complete := Send(command), Retires(Complete(false));
    var s1 := Step(s, send);
    var s2 := Step(s1, Take);
    assert TurnMoves(command) == [send] + ([Take] + [complete]) && [complete] == [complete] + [];
    RanFirst(s, send, [Take] + [complete]);
    RanFirst(s1, Take, [complete]);
    RanFirst(s2, complete, []);
  }

  /** A callback that touches a file and starts a terminal, and both its tasks ending well. */
  function CallbackMoves(c: nat, p: nat): seq<Action> {
    [Send(Callback), Take, Callbacks(Touch), Callbacks(Spawn), Callbacks(Finish)]
    + [Tasks(ReplyEnds(c, true)), Tasks(ProcessEnds(p, true, true)), JoinReply(c), JoinProcess(p)]
  }

  /** The state after a callback, before its tasks. */
  function Handled(s: Services): Services {
    var c := |s.commands|;
    s.(commands := s.commands + [Callback], taken := c + 1,
       effects := s.effects + [Effect(c, s.turn)] + [Effect(c, s.turn)],
       processes := s.processes + [Process(c, None, false, false, true)],
       replies := s.replies[c := Pending])
  }

  /** A reply handed over and a process that ended well, both joined. */
  function Ended(s: Services, c: nat, p: nat): Services
    requires p < |s.processes|
  {
    s.(replies := s.replies[c := Handed], joinedReplies := s.joinedReplies + {c},
       processes := s.processes[p := s.processes[p].(done := Some(true), gone := true, joined := true)])
  }

  lemma CallbackHandled(s: Services)
    requires Quiet(s) && !s.cancelled
    ensures var c, p := |s.commands|, |s.processes|;
      var ran := Ran(s, [Send(Callback), Take, Callbacks(Touch), Callbacks(Spawn), Callbacks(Finish)]);
      ran == Some(Handled(s))
  {
    var send, touch, spawn, finish := Send(Callback), Callbacks(Touch), Callbacks(Spawn), Callbacks(Finish);
    assert [send, Take, touch, spawn, finish] == [send] + ([Take] + ([touch] + ([spawn] + ([finish] + []))));
    var s1 := Step(s, send);
    RanFirst(s, send, [Take] + ([touch] + ([spawn] + ([finish] + []))));
    var s2 := Step(s1, Take);
    RanFirst(s1, Take, [touch] + ([spawn] + ([finish] + [])));
    var s3 := Step(s2, touch);
    RanFirst(s2, touch, [spawn] + ([finish] + []));
    var s4 := Step(s3, spawn);
    RanFirst(s3, spawn, [finish] + []);
    RanFirst(s4, finish, []);
  }

  lemma TasksEnd(s: Services, c: nat, p: nat)
    requires s.phase == Ready && c in s.replies && s.replies[c] == Pending && c !in s.joinedReplies
    requires p < |s.processes| && s.processes[p].done == None && !s.processes[p].joined
    ensures var tasks := [Tasks(ReplyEnds(c, true)), Tasks(ProcessEnds(p, true, true)), JoinReply(c), JoinProcess(p)];
      var ran := Ran(s, tasks);
      ran == Some(Ended(s, c, p))
  {
    var reply, process, joinReply, join :=
      Tasks(ReplyEnds(c, true)), Tasks(ProcessEnds(p, true, true)), JoinReply(c), JoinProcess(p);
    assert [reply, process, joinReply, join] == [reply] + ([process] + ([joinReply] + ([join] + [])));
    var s1 := Step(s, reply);
    RanFirst(s, reply, [process] + ([joinReply] + ([join] + [])));
    var s2 := Step(s1, process);
    RanFirst(s1, process, [joinReply] + ([join] + []));
    var s3 := Step(s2, joinReply);
    RanFirst(s2, joinReply, [join] + []);
    RanFirst(s3, join, []);
    assert s3.processes[p := s3.processes[p].(joined := true)]
        == s.processes[p := s.processes[p].(done := Some(true), gone := true, joined := true)];
  }

  /** The state after a callback and its tasks. */
  function Done(s: Services): Services {
    var c := |s.commands|;
    s.(commands := s.commands + [Callback], taken := c + 1,
       effects := s.effects + [Effect(c, s.turn)] + [Effect(c, s.turn)],
       processes := s.processes + [Process(c, Some(true), true, true, true)],
       replies := s.replies[c := Handed], joinedReplies := s.joinedReplies + {c})
  }

  lemma DoneIsQuiet(s: Services)
    requires Quiet(s)
    ensures Quiet(Done(s))
  {
    var s' := Done(s);
    forall p | 0 <= p < |s'.processes| ensures s'.processes[p].joined &&
                                               (s'.processes[p].listed ==> s'.processes[p].done == Some(true))
    {
      if p < |s.processes| {
        assert s'.processes[p] == s.processes[p];
      }
    }
  }

  lemma EndedIsDone(s: Services)
    ensures Ended(Handled(s), |s.commands|, |s.processes|) == Done(s)
  {
    var c, p := |s.commands|, |s.processes|;
    var ended := Ended(Handled(s), c, p);
    assert ended.processes == Done(s).processes;
    assert ended.replies == Done(s).replies;
  }

  lemma CallbackRuns(s: Services)
    requires Quiet(s) && !s.cancelled && s.joinedReplies <= s.replies.Keys
    ensures Ran(s, CallbackMoves(|s.commands|, |s.processes|)) == Some(Done(s))
  {
    var c, p := |s.commands|, |s.processes|;
    CallbackHandled(s);
    var first := [Send(Callback), Take, Callbacks(Touch), Callbacks(Spawn), Callbacks(Finish)];
    var rest := [Tasks(ReplyEnds(c, true)), Tasks(ProcessEnds(p, true, true)), JoinReply(c), JoinProcess(p)];
    RanConcat(s, first, rest);
    TasksEnd(Handled(s), c, p);
    EndedIsDone(s);
  }

  lemma CallbackSucceeds(s: Services)
    requires Quiet(s) && !s.cancelled && s.joinedReplies <= s.replies.Keys
    ensures var c, p := |s.commands|, |s.processes|; var ran := Ran(s, CallbackMoves(c, p));
      && ran.Some? && Quiet(ran.value)
      && ran.value.effects == s.effects + [Effect(c, s.turn)] + [Effect(c, s.turn)]
      && ran.value.replies == s.replies[c := Handed] && ran.value.commands == s.commands + [Callback]
      && ran.value.acks == s.acks && ran.value.fatal == s.fatal
      && |ran.value.processes| == p + 1 && ran.value.processes[p].gone
  {
    CallbackRuns(s);
    DoneIsQuiet(s);
  }

  /**
   On every quiet actor a whole turn succeeds: the begin, a callback with a file effect and a terminal, both of them
   in that turn, its reply handed over and its process gone, and the end.
   */
  lemma TurnSucceeds(s: Services)
    requires Quiet(s) && Inv(s)
    ensures var n, p := |s.commands|, |s.processes|;
      var ran := Ran(s, TurnMoves(BeginTurn) + (CallbackMoves(n + 1, p) + TurnMoves(EndTurn)));
      && ran.Some? && Quiet(ran.value)
      && Succeeded(ran.value, n) && Succeeded(ran.value, n + 2) && ran.value.fatal == s.fatal
      && ran.value.effects == s.effects + [Effect(n + 1, n + 1)] + [Effect(n + 1, n + 1)]
      && n + 1 in ran.value.replies && ran.value.replies[n + 1] == Handed
  {
    var n, p := |s.commands|, |s.processes|;
    CommandSucceeds(s, BeginTurn);
    RanKeeps(s, TurnMoves(BeginTurn));
    RanConcat(s, TurnMoves(BeginTurn), CallbackMoves(n + 1, p) + TurnMoves(EndTurn));
    var begun := Ran(s, TurnMoves(BeginTurn)).value;
    CallbackSucceeds(begun);
    RanConcat(begun, CallbackMoves(n + 1, p), TurnMoves(EndTurn));
    CommandSucceeds(Ran(begun, CallbackMoves(n + 1, p)).value, EndTurn);
  }

  lemma {:induction false} RanKeeps(s: Services, actions: seq<Action>)
    requires Inv(s) && Ran(s, actions).Some?
    ensures Inv(Ran(s, actions).value)
    decreases |actions|
  {
    if actions != [] {
      StepKeeps(s, actions[0]);
      RanKeeps(Step(s, actions[0]), actions[1..]);
    }
  }
}
