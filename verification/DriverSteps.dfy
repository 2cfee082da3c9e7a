/**
 The session loop takes only steps of the ownership protocol.

 Each branch is a sequence of enabled actions of the loop's own host, so whatever the protocol guarantees in every
 reachable state holds of the loop, with crashes and other hosts anywhere in between.
 */
module DriverSteps {
  import opened Prelude
  import opened Records
  import opened DurableRecord
  import opened OwnerProtocol
  import SessionDriver

  type View = SessionDriver.View
  type Event = SessionDriver.Event

  /** The phase that the prompts in the loop's hands mean. The running prompt's future moves on between branches. */
  predicate Stands(p: Phase, v: View) {
    if v.active.Some? then v.preparing.None? && (p.Accepted? || p.OnWire? || p.Answered?)
    else if v.preparing.Some? then p.Preparing?
    else p.Idle?
  }

  predicate Holds(s: Protocol, h: HostId, v: View) {
    In(s, h) && s.owners[h].memory == v.memory && s.disk == v.disk
  }

  predicate Represents(s: Protocol, h: HostId, v: View) { Holds(s, h, v) && Stands(PhaseOf(s, h), v) }

  /** The connection has ended, on the loop's own account or not. */
  predicate Leaves(s: Protocol, h: HostId, v: View, clean: bool) {
    Holds(s, h, v) && PhaseOf(s, h).Exiting? && PhaseOf(s, h).clean == clean
  }

  /** The prompt's future reports a stop reason only from the response, and a cancellation only before sending. */
  predicate Timely(p: Phase, v: View, e: Event) {
    e.PromptEnds? && v.active.Some? ==>
      && (e.result.NeverSent? ==> p.Accepted?)
      && (e.result.Reported? ==> p.Answered?)
  }

  /** Taking actions one after the other, while each is enabled. */
  function Ran(s: Protocol, actions: seq<Action>): Option<Protocol>
    decreases |actions|
  {
    if actions == [] then Some(s)
    else if Enabled(s, actions[0]) then Ran(Step(s, actions[0]), actions[1..])
    else None
  }

  function PreparationMoves(h: HostId, v: View, e: Event): seq<Action>
    requires e.PreparationEnds? && v.preparing.Some?
  {
    var prompt := v.preparing.value;
    var select := Checkpoints(h, RecordSelection(e.selectable, e.selection));
    var submit := Checkpoints(h, RecordSubmission(prompt.runId, prompt.attempt, e.submission));
    if !e.ready || e.cancelledBefore then [Turns(h, Leave(false))]
    else if SessionDriver.Selected(v, e).result.Failure? then [select]
    else if SessionDriver.SubmittedBy(v, e).result.Failure? || !e.cancelledAfter then [select, submit]
    else [select, submit, Turns(h, CancelBeforePrompt(e.finish))]
  }

  function EndingMove(h: HostId, e: Event): Action
    requires e.PromptEnds?
  {
    match e.result
    case NeverSent => Turns(h, CancelBeforePrompt(e.write))
    case PromptFailed => Checkpoints(h, RecordUncertain(e.write))
    case Reported(stopReason) => Turns(h, RecordFinish(stopReason, e.write))
  }

  /** What one branch does to the record, as actions of the protocol. */
  function Moves(h: HostId, v: View, e: Event, limits: SessionDriver.Limits): seq<Action> {
    if e.PreparationEnds? && v.preparing.Some? then PreparationMoves(h, v, e)
    else if e.PromptEnds? && v.active.Some? then [EndingMove(h, e)]
    else if SessionDriver.Accepts(v, e, limits) then [Turns(h, Prepare)]
    else []
  }

  /** The state after a branch stands for the loop after it, still at its head or on its way out. */
  predicate Reaches(s': Option<Protocol>, h: HostId, v: View, broken: bool) {
    s'.Some? && if broken then Leaves(s'.value, h, v, false) else Represents(s'.value, h, v)
  }

  lemma RanOne(s: Protocol, a: Action)
    requires Enabled(s, a)
    ensures Ran(s, [a]) == Some(Step(s, a))
  {
    assert [a][1..] == [];
  }

  lemma RanFirst(s: Protocol, a: Action, rest: seq<Action>)
    requires Enabled(s, a)
    ensures Ran(s, [a] + rest) == Ran(Step(s, a), rest)
  {
    assert ([a] + rest)[1..] == rest;
  }

  /** The model selection is recorded: ready to submit, or the connection ends. */
  lemma Selects(s: Protocol, h: HostId, v: View, e: Event)
    requires e.PreparationEnds? && v.preparing.Some? && v.active.None? && Represents(s, h, v)
    ensures var a := Checkpoints(h, RecordSelection(e.selectable, e.selection));
      && Enabled(s, a)
      && var s', selected := Step(s, a), SessionDriver.Selected(v, e);
      && Holds(s', h, SessionDriver.Checkpointed(v, selected))
      && PhaseOf(s', h) == (if selected.result.Success? then Submitting(PhaseOf(s, h).pid)
                            else Exiting(PhaseOf(s, h).pid, false))
  {
  }

  /** The submission is recorded: accepted, or the connection ends. */
  lemma Submits(s: Protocol, h: HostId, v: View, e: Event)
    requires e.PreparationEnds? && v.preparing.Some? && SessionDriver.Selected(v, e).result.Success?
    requires Holds(s, h, SessionDriver.Checkpointed(v, SessionDriver.Selected(v, e))) && PhaseOf(s, h).Submitting?
    ensures var a := Checkpoints(h, RecordSubmission(v.preparing.value.runId, v.preparing.value.attempt, e.submission));
      && Enabled(s, a)
      && var s', submitted := Step(s, a), SessionDriver.SubmittedBy(v, e);
      && Holds(s', h, SessionDriver.Checkpointed(v, submitted))
      && PhaseOf(s', h) == (if submitted.result.Success? then Accepted(PhaseOf(s, h).pid)
                            else Exiting(PhaseOf(s, h).pid, false))
  {
  }

  lemma PreparationIsSteps(s: Protocol, h: HostId, v: View, e: Event)
    requires e.PreparationEnds? && v.preparing.Some? && v.active.None? && Represents(s, h, v)
    ensures Reaches(Ran(s, PreparationMoves(h, v, e)), h, SessionDriver.Prepared(v, e), SessionDriver.Breaks(v, e))
  {
    var moves := PreparationMoves(h, v, e);
    if !e.ready || e.cancelledBefore {
      RanOne(s, Turns(h, Leave(false)));
    } else {
      Selects(s, h, v, e);
      var selected := Step(s, moves[0]);
      assert moves == [moves[0]] + moves[1..];
      RanFirst(s, moves[0], moves[1..]);
      if SessionDriver.Selected(v, e).result.Success? {
        Submits(selected, h, v, e);
        SubmissionIsSteps(selected, h, v, e, moves[1..]);
      }
    }
  }

  lemma SubmissionIsSteps(s: Protocol, h: HostId, v: View, e: Event, moves: seq<Action>)
    requires e.PreparationEnds? && v.preparing.Some? && v.active.None?
    requires e.ready && !e.cancelledBefore && SessionDriver.Selected(v, e).result.Success?
    requires Holds(s, h, SessionDriver.Checkpointed(v, SessionDriver.Selected(v, e))) && PhaseOf(s, h).Submitting?
    requires moves == PreparationMoves(h, v, e)[1..]
    ensures Reaches(Ran(s, moves), h, SessionDriver.Prepared(v, e), SessionDriver.Breaks(v, e))
  {
    Submits(s, h, v, e);
    var s' := Step(s, moves[0]);
    assert moves == [moves[0]] + moves[1..];
    RanFirst(s, moves[0], moves[1..]);
    if SessionDriver.SubmittedBy(v, e).result.Success? && e.cancelledAfter {
      assert moves[1..] == [Turns(h, CancelBeforePrompt(e.finish))];
      RanOne(s', Turns(h, CancelBeforePrompt(e.finish)));
    }
  }

  /** Every branch of the loop is a sequence of enabled steps of its host, with the loop's own effect. */
  lemma BranchIsSteps(s: Protocol, h: HostId, v: View, e: Event, limits: SessionDriver.Limits)
    requires Represents(s, h, v) && Timely(PhaseOf(s, h), v, e)
    ensures Reaches(Ran(s, Moves(h, v, e, limits)), h, SessionDriver.After(v, e, limits), SessionDriver.Breaks(v, e))
  {
    if e.PreparationEnds? && v.preparing.Some? {
      PreparationIsSteps(s, h, v, e);
    } else if e.PromptEnds? && v.active.Some? {
      RanOne(s, EndingMove(h, e));
    } else if SessionDriver.Accepts(v, e, limits) {
      RanOne(s, Turns(h, Prepare));
    }
  }

  /** A clean return is the protocol's clean leave. */
  lemma ReturnIsStep(s: Protocol, h: HostId, v: View)
    requires Represents(s, h, v) && v.active.None? && v.preparing.None?
    ensures Enabled(s, Turns(h, Leave(true))) && Leaves(Step(s, Turns(h, Leave(true))), h, v, true)
  {
  }

  // ---------------------------------------------------------------- what goes on between branches

  predicate OfHost(a: Action, h: HostId) { (a.Claims? || a.Checkpoints? || a.Turns? || a.Exits?) && a.h == h }

  /** The prompt's future sends it and receives the response. */
  predicate OfFuture(a: Action, h: HostId) { a == Turns(h, SendPrompt) || a == Turns(h, Respond) }

  lemma BetweenBranches(s: Protocol, h: HostId, v: View, a: Action)
    requires Inv(s) && Represents(s, h, v) && Enabled(s, a) && (OfFuture(a, h) || !OfHost(a, h))
    ensures Represents(Step(s, a), h, v)
  {
  }

  /** A session that became ready is a loop at its head. */
  lemma ReadyIsHead(s: Protocol, h: HostId, session: Session, write: Write)
    requires var a := Checkpoints(h, RecordReady(session, write)); Enabled(s, a) && PhaseOf(Step(s, a), h).Idle?
    ensures var s' := Step(s, Checkpoints(h, RecordReady(session, write)));
      Represents(s', h, SessionDriver.View(s'.owners[h].memory, s'.disk, None, None))
  {
  }

  // ---------------------------------------------------------------- the protocol governs the loop

  lemma ReachableSafe(s: Protocol)
    requires Reachable(s)
    ensures Inv(s)
  {
    var trace: seq<Protocol>, actions: seq<Action> :| Execution(trace, actions) && trace[|actions|] == s;
    EveryStateSafe(trace, actions, |actions|);
  }

  lemma {:induction false} RanReaches(s: Protocol, actions: seq<Action>)
    requires Reachable(s) && Ran(s, actions).Some?
    ensures Reachable(Ran(s, actions).value)
    decreases |actions|
  {
    if actions != [] {
      StepReachable(s, actions[0]);
      RanReaches(Step(s, actions[0]), actions[1..]);
    }
  }

  datatype Joint = Joint(state: Protocol, view: View)

  /** One branch of the loop, or one action of its prompt's future or of anybody else. */
  ghost predicate Next(h: HostId, limits: SessionDriver.Limits, j: Joint, j': Joint) {
    || (exists e :: Branches(h, limits, j, e, j'))
    || (exists a :: j'.view == j.view && (OfFuture(a, h) || !OfHost(a, h)) && Enabled(j.state, a)
                    && j'.state == Step(j.state, a))
  }

  ghost predicate Branches(h: HostId, limits: SessionDriver.Limits, j: Joint, e: Event, j': Joint) {
    && In(j.state, h) && Timely(PhaseOf(j.state, h), j.view, e) && !SessionDriver.Breaks(j.view, e)
    && j'.view == SessionDriver.After(j.view, e, limits)
    && Ran(j.state, Moves(h, j.view, e, limits)) == Some(j'.state)
  }

  ghost predicate Governed(h: HostId, j: Joint) { Reachable(j.state) && Represents(j.state, h, j.view) }

  lemma NextGoverned(h: HostId, limits: SessionDriver.Limits, j: Joint, j': Joint)
    requires Governed(h, j) && Next(h, limits, j, j')
    ensures Governed(h, j')
  {
    if e :| Branches(h, limits, j, e, j') {
      BranchIsSteps(j.state, h, j.view, e, limits);
      RanReaches(j.state, Moves(h, j.view, e, limits));
    } else {
      var a :| j'.view == j.view && (OfFuture(a, h) || !OfHost(a, h)) && Enabled(j.state, a)
               && j'.state == Step(j.state, a);
      ReachableSafe(j.state);
      BetweenBranches(j.state, h, j.view, a);
      StepReachable(j.state, a);
    }
  }

  /**
   However branches, the prompt's future and other hosts interleave, from a ready session on: the loop stands at its
   head in a reachable state of the protocol, its host is the only owner, and nothing but its running prompt is
   unanswered.
   */
  lemma {:induction false} LoopIsGoverned(h: HostId, limits: SessionDriver.Limits, run: seq<Joint>, i: nat)
    requires i < |run| && Governed(h, run[0])
    requires forall k :: 0 <= k < |run| - 1 ==> Next(h, limits, run[k], run[k + 1])
    ensures Governed(h, run[i]) && SessionDriver.LoopHead(run[i].view)
    ensures var s := run[i].state;
      && s.lock == Some(h) && s.owners.Keys == {h}
      && (run[i].view.active.None? ==> s.unanswered == {})
      && (s.unanswered != {} ==> PhaseOf(s, h).OnWire? && s.unanswered == {PhaseOf(s, h).prompt})
  {
    if i == 0 {
      HeadHolds(h, run[0]);
    } else {
      LoopIsGoverned(h, limits, run[..i], i - 1);
      NextGoverned(h, limits, run[i - 1], run[i - 1 + 1]);
      HeadHolds(h, run[i]);
    }
  }

  lemma HeadHolds(h: HostId, j: Joint)
    requires Governed(h, j)
    ensures SessionDriver.LoopHead(j.view)
    ensures j.state.lock == Some(h) && j.state.owners.Keys == {h}
    ensures j.view.active.None? ==> j.state.unanswered == {}
    ensures j.state.unanswered != {} ==>
              PhaseOf(j.state, h).OnWire? && j.state.unanswered == {PhaseOf(j.state, h).prompt}
  {
    ReachableSafe(j.state);
  }
}
