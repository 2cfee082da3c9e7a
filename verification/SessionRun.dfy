/**
 A session that nothing disturbs: every matching claim can launch, every prompt can be sent and recorded, and every end
 leaves the record open. Safety alone would also hold of hosts that give up.
 */
module SessionRun {
  import opened Prelude
  import opened Records
  import opened DurableRecord
  import opened OwnerProtocol
  import opened DriverSteps
  import opened ClaimRules

  /** What a record needs to be written: valid identifiers. */
  predicate Writable(m: AcpManifest) {
    ValidIdentity(m.acp.value.identity) && (m.acp.value.sessionId.Some? ==> ValidId(m.acp.value.sessionId.value))
  }

  lemma ReliableCommits(m: AcpManifest, was: AcpManifest, disk: Option<Manifest>, write: Write)
    requires Reliable(write) && Writable(m)
    ensures Commit(Success(m), was, disk, write) == Effect(m, Some(Stamped(m)), Success(Unit.Unit))
  {
  }

  // ---------------------------------------------------------------- from a claim to a ready session

  function StartMoves(h: HostId, request: ClaimRequest, io: Reads, reserve: Write, pid: Pid, launch: Write,
                      session: Session, ready: Write): seq<Action>
  {
    ([Claims(h, TakeLock(request, io)), Claims(h, Check(io))]
     + [Claims(h, WriteReservation(reserve)), Claims(h, Spawn(pid))])
    + [Checkpoints(h, RecordLaunch(launch)), Checkpoints(h, RecordReady(session, ready))]
  }

  /** What a claim has in hand once it is admitted. */
  lemma AdmittedFacts(s: Protocol, request: ClaimRequest, io: Reads)
    requires Inv(s) && PreLockRefusal(s.workspace, request, io).None? && request.reserveLaunch
    requires MayTake(s.workspace, s.disk, request, io, s.live + s.foreign)
    requires s.disk.Some? && s.disk.value.acp.Some? && s.disk.value.acp.value.sessionId.Some? ==>
               ValidId(s.disk.value.acp.value.sessionId.value)
    ensures s.live == {} && s.unanswered == {}
    ensures var m := Admit(s.workspace, s.disk, request, io, s.live + s.foreign);
      && m.Success? && Writable(m.value) && Quiescent(m.value.acp.value.status)
      && m.value.acp.value.process == LaunchPending
      && m.value.acp.value.identity == request.identity.(generation := DiskGeneration(s) + 1)
  {
    AdmitsExactly(s.workspace, s.disk, request, io, s.live + s.foreign);
    AdmittedRecord(s.workspace, s.disk, request, io, s.live + s.foreign);
    AdmitQuiet(s, request, io);
  }

  lemma ReservedSpawns(s: Protocol, h: HostId, m: AcpManifest, reserve: Write, pid: Pid)
    requires s.owners == map[h := Owning(m, Admitted(true))] && Writable(m) && Reliable(reserve)
    requires pid !in s.live && pid !in s.foreign
    ensures Ran(s, [Claims(h, WriteReservation(reserve)), Claims(h, Spawn(pid))])
         == Some(s.(disk := Some(Stamped(m)), owners := map[h := Owning(m, Spawned(pid))], live := s.live + {pid},
                    launches := s.launches + [m.acp.value.identity.generation]))
  {
    var write, spawn := Claims(h, WriteReservation(reserve)), Claims(h, Spawn(pid));
    assert [write, spawn] == [write] + ([spawn] + []);
    ReliableCommits(m, m, s.disk, reserve);
    RanFirst(s, write, [spawn] + []);
    var s1 := Step(s, write);
    assert s1.owners == map[h := Owning(m, Reserved)];
    RanFirst(s1, spawn, []);
    assert Step(s1, spawn).owners == map[h := Owning(m, Spawned(pid))];
  }

  lemma ClaimChecks(s: Protocol, h: HostId, request: ClaimRequest, io: Reads, m: AcpManifest, rest: seq<Action>)
    requires s.owners == map[] && s.lock.None? && PreLockRefusal(s.workspace, request, io).None?
    requires Admit(s.workspace, s.disk, request, io, s.live + s.foreign) == Success(m) && request.reserveLaunch
    ensures Ran(s, [Claims(h, TakeLock(request, io)), Claims(h, Check(io))] + rest)
         == Ran(s.(lock := Some(h), owners := map[h := Owning(m, Admitted(true))]), rest)
  {
    var take, check := Claims(h, TakeLock(request, io)), Claims(h, Check(io));
    assert [take, check] + rest == [take] + ([check] + rest);
    RanFirst(s, take, [check] + rest);
    var s1 := Step(s, take);
    RanFirst(s1, check, rest);
    assert Step(s1, check).owners == map[h := Owning(m, Admitted(true))];
  }

  /** The state after the claim, its reservation, and the child. */
  function LaunchedBy(s: Protocol, h: HostId, m: AcpManifest, pid: Pid): Protocol {
    s.(lock := Some(h), disk := Some(Stamped(m)), owners := map[h := Owning(m, Spawned(pid))],
       live := s.live + {pid}, launches := s.launches + [m.acp.value.identity.generation])
  }

  lemma ClaimLaunches(s: Protocol, h: HostId, request: ClaimRequest, io: Reads, m: AcpManifest, reserve: Write,
                      pid: Pid)
    requires s.owners == map[] && s.lock.None? && PreLockRefusal(s.workspace, request, io).None?
    requires Admit(s.workspace, s.disk, request, io, s.live + s.foreign) == Success(m) && request.reserveLaunch
    requires Writable(m) && Reliable(reserve) && pid !in s.live && pid !in s.foreign
    ensures Ran(s, [Claims(h, TakeLock(request, io)), Claims(h, Check(io))]
                   + [Claims(h, WriteReservation(reserve)), Claims(h, Spawn(pid))]) == Some(LaunchedBy(s, h, m, pid))
  {
    ClaimChecks(s, h, request, io, m, [Claims(h, WriteReservation(reserve)), Claims(h, Spawn(pid))]);
    ReservedSpawns(s.(lock := Some(h), owners := map[h := Owning(m, Admitted(true))]), h, m, reserve, pid);
  }

  lemma LaunchGetsReady(s: Protocol, h: HostId, pid: Pid, launch: Write, session: Session, ready: Write)
    requires In(s, h) && PhaseOf(s, h) == Spawned(pid) && pid != 0 && Reliable(launch) && Reliable(ready)
    requires ValidId(session.id) && Writable(s.owners[h].memory)
    requires s.owners[h].memory.acp.value.process == LaunchPending && Quiescent(s.owners[h].memory.acp.value.status)
    ensures var ran := Ran(s, [Checkpoints(h, RecordLaunch(launch)), Checkpoints(h, RecordReady(session, ready))]);
      && ran.Some? && In(ran.value, h) && PhaseOf(ran.value, h) == Idle(pid)
      && var m := ran.value.owners[h].memory;
      && ran.value == s.(disk := Some(Stamped(m)), owners := s.owners[h := Owning(m, Idle(pid))])
      && m.acp.value.sessionId == Some(session.id) && m.acp.value.status == Ready
      && m.acp.value.process == Running(pid) && m.acp.value.identity == s.owners[h].memory.acp.value.identity
      && Writable(m)
  {
    var first, second := Checkpoints(h, RecordLaunch(launch)), Checkpoints(h, RecordReady(session, ready));
    assert [first, second] == [first] + ([second] + []);
    var was := s.owners[h].memory;
    var launched := LaunchedRecord(was, pid).value;
    ReliableCommits(launched, was, s.disk, launch);
    RanFirst(s, first, [second] + []);
    var s1 := Step(s, first);
    var m := ReadyRecord(launched, session).value;
    ReliableCommits(m, launched, s1.disk, ready);
    RanFirst(s1, second, []);
    assert Step(s1, second).owners == s.owners[h := Owning(m, Idle(pid))];
  }

  /**
   Every claim that the record, the run and the processes allow can become a ready session under the next generation.
   */
  lemma SessionStarts(s: Protocol, h: HostId, request: ClaimRequest, io: Reads, reserve: Write, pid: Pid, launch: Write,
                      session: Session, ready: Write)
    requires Inv(s) && h !in s.owners && s.lock.None? && PreLockRefusal(s.workspace, request, io).None?
    requires MayTake(s.workspace, s.disk, request, io, s.live + s.foreign) && request.reserveLaunch
    requires pid !in s.foreign && pid != 0 && ValidId(session.id)
    requires Reliable(reserve) && Reliable(launch) && Reliable(ready)
    requires s.disk.Some? && s.disk.value.acp.Some? && s.disk.value.acp.value.sessionId.Some? ==>
               ValidId(s.disk.value.acp.value.sessionId.value)
    ensures var ran := Ran(s, StartMoves(h, request, io, reserve, pid, launch, session, ready));
      && ran.Some? && In(ran.value, h) && PhaseOf(ran.value, h) == Idle(pid) && ran.value.lock == Some(h)
      && ran.value.live == {pid} && ran.value.launches == s.launches + [DiskGeneration(s) + 1]
      && var m := ran.value.owners[h].memory;
      && ran.value.disk == Some(Stamped(m)) && m.acp.value.sessionId == Some(session.id) && m.acp.value.status == Ready
      && m.acp.value.identity == request.identity.(generation := DiskGeneration(s) + 1)
  {
    AdmittedFacts(s, request, io);
    var m := Admit(s.workspace, s.disk, request, io, s.live + s.foreign).value;
    assert s.owners == map[];
    ClaimLaunches(s, h, request, io, m, reserve, pid);
    var claim := [Claims(h, TakeLock(request, io)), Claims(h, Check(io))]
                 + [Claims(h, WriteReservation(reserve)), Claims(h, Spawn(pid))];
    var launching := [Checkpoints(h, RecordLaunch(launch)), Checkpoints(h, RecordReady(session, ready))];
    RanConcat(s, claim, launching);
    LaunchGetsReady(LaunchedBy(s, h, m, pid), h, pid, launch, session, ready);
  }

  lemma {:induction false} RanConcat(s: Protocol, a: seq<Action>, b: seq<Action>)
    ensures Ran(s, a + b) == if Ran(s, a).Some? then Ran(Ran(s, a).value, b) else None
    decreases |a|
  {
    if a == [] {
      assert a + b == b;
    } else {
      assert (a + b)[1..] == a[1..] + b;
      if Enabled(s, a[0]) {
        RanConcat(Step(s, a[0]), a[1..], b);
      }
    }
  }

  // ---------------------------------------------------------------- one prompt

  function SubmitMoves(h: HostId, runId: string, attempt: nat, selectable: bool, select: Write, submit: Write)
    : seq<Action>
  {
    [Turns(h, Prepare), Checkpoints(h, RecordSelection(selectable, select)),
     Checkpoints(h, RecordSubmission(runId, attempt, submit))]
  }

  function AnswerMoves(h: HostId, stopReason: string, finish: Write): seq<Action> {
    [Turns(h, SendPrompt), Turns(h, Respond), Turns(h, RecordFinish(stopReason, finish))]
  }

  /** The record is quiet, and the disk holds it. */
  predicate AtRest(s: Protocol, h: HostId) {
    In(s, h) && Quiescent(s.owners[h].memory.acp.value.status) && s.disk == Some(Stamped(s.owners[h].memory))
  }

  lemma SelectionChosen(s: Protocol, h: HostId, selectable: bool, select: Write)
    requires AtRest(s, h) && PhaseOf(s, h).Preparing? && Writable(s.owners[h].memory) && Reliable(select)
    ensures var was, a := s.owners[h].memory, Checkpoints(h, RecordSelection(selectable, select));
      var chosen := WithState(was, was.acp.value.(modelSelection := selectable));
      && Enabled(s, a) && Writable(chosen)
      && Step(s, a) == s.(disk := Some(Stamped(chosen)),
                          owners := s.owners[h := Owning(chosen, Submitting(PhaseOf(s, h).pid))])
  {
    var was := s.owners[h].memory;
    var chosen := WithState(was, was.acp.value.(modelSelection := selectable));
    ReliableCommits(chosen, was, s.disk, select);
    assert was.acp.value.modelSelection == selectable ==> chosen == was;
  }

  lemma SubmissionAccepted(s: Protocol, h: HostId, runId: string, attempt: nat, submit: Write)
    requires In(s, h) && PhaseOf(s, h).Submitting? && Writable(s.owners[h].memory) && Reliable(submit)
    requires Quiescent(s.owners[h].memory.acp.value.status)
    requires s.owners[h].memory.acp.value.sessionId.Some? && ValidId(runId)
    ensures var was, a := s.owners[h].memory, Checkpoints(h, RecordSubmission(runId, attempt, submit));
      var m := SubmittedRecord(was, runId, attempt);
      && Enabled(s, a) && m.Success? && Writable(m.value)
      && Step(s, a) == s.(disk := Some(Stamped(m.value)),
                          owners := s.owners[h := Owning(m.value, Accepted(PhaseOf(s, h).pid))])
  {
    var was := s.owners[h].memory;
    var m := SubmittedRecord(was, runId, attempt);
    assert Writable(m.value);
    ReliableCommits(m.value, was, s.disk, submit);
  }

  lemma PromptSubmits(s: Protocol, h: HostId, runId: string, attempt: nat, selectable: bool, select: Write,
                      submit: Write)
    requires AtRest(s, h) && PhaseOf(s, h).Idle? && Writable(s.owners[h].memory)
    requires s.owners[h].memory.acp.value.sessionId.Some? && ValidId(runId) && Reliable(select) && Reliable(submit)
    ensures var ran := Ran(s, SubmitMoves(h, runId, attempt, selectable, select, submit));
      && ran.Some? && In(ran.value, h) && PhaseOf(ran.value, h) == Accepted(PhaseOf(s, h).pid)
      && var m, was := ran.value.owners[h].memory, s.owners[h].memory.acp.value;
      && ran.value == s.(disk := Some(Stamped(m)), owners := s.owners[h := Owning(m, Accepted(PhaseOf(s, h).pid))])
      && m.acp.value.status == Submitted && m.acp.value.modelSelection == selectable
      && m.acp.value.identity == was.identity.(runId := runId, attempt := attempt)
      && m.acp.value.sessionId == was.sessionId && m.acp.value.promptSeeded == was.promptSeeded && Writable(m)
  {
    var pid, was := PhaseOf(s, h).pid, s.owners[h].memory;
    var prepare, choose := Turns(h, Prepare), Checkpoints(h, RecordSelection(selectable, select));
    var last := Checkpoints(h, RecordSubmission(runId, attempt, submit));
    assert SubmitMoves(h, runId, attempt, selectable, select, submit) == [prepare] + ([choose] + ([last] + []));
    RanFirst(s, prepare, [choose] + ([last] + []));
    var s1 := Step(s, prepare);
    var chosen := WithState(was, was.acp.value.(modelSelection := selectable));
    SelectionChosen(s1, h, selectable, select);
    RanFirst(s1, choose, [last] + []);
    var s2 := Step(s1, choose);
    SubmissionAccepted(s2, h, runId, attempt, submit);
    RanFirst(s2, last, []);
    var m := SubmittedRecord(chosen, runId, attempt).value;
    assert Step(s2, last).owners == s.owners[h := Owning(m, Accepted(pid))];
  }

  lemma PromptFinishes(s: Protocol, h: HostId, stopReason: string, finish: Write)
    requires In(s, h) && PhaseOf(s, h).Accepted? && Writable(s.owners[h].memory) && s.unanswered == {}
    requires s.owners[h].memory.acp.value.status == Submitted && ValidId(stopReason) && Reliable(finish)
    ensures var ran := Ran(s, AnswerMoves(h, stopReason, finish));
      && ran.Some? && In(ran.value, h) && PhaseOf(ran.value, h) == Idle(PhaseOf(s, h).pid)
      && var m := ran.value.owners[h].memory;
      && ran.value.disk == Some(Stamped(m)) && ran.value.unanswered == {} && ran.value.sent == s.sent + 1
      && ran.value.live == s.live && FinishedWith(s.owners[h].memory, m, stopReason) && Writable(m)
  {
    var send, respond, last := Turns(h, SendPrompt), Turns(h, Respond), Turns(h, RecordFinish(stopReason, finish));
    assert AnswerMoves(h, stopReason, finish) == [send] + ([respond] + ([last] + []));
    RanFirst(s, send, [respond] + ([last] + []));
    var s1 := Step(s, send);
    RanFirst(s1, respond, [last] + []);
    var s2 := Step(s1, respond);
    var was := s.owners[h].memory;
    FinishedFields(was, stopReason);
    ReliableCommits(FinishedRecord(was, stopReason).value, was, s2.disk, finish);
    RanFirst(s2, last, []);
  }

  /**
   Every prompt of a ready session can be submitted, sent once, answered and recorded, and leaves it ready for more.
   */
  lemma PromptRuns(s: Protocol, h: HostId, runId: string, attempt: nat, selectable: bool, stopReason: string,
                   select: Write, submit: Write, finish: Write)
    requires Inv(s) && In(s, h) && PhaseOf(s, h).Idle? && Writable(s.owners[h].memory)
    requires s.owners[h].memory.acp.value.sessionId.Some? && ValidId(runId) && ValidId(stopReason)
    requires Reliable(select) && Reliable(submit) && Reliable(finish)
    ensures var ran := Ran(s, SubmitMoves(h, runId, attempt, selectable, select, submit)
                              + AnswerMoves(h, stopReason, finish));
      && ran.Some? && In(ran.value, h) && PhaseOf(ran.value, h) == Idle(PhaseOf(s, h).pid)
      && ran.value.sent == s.sent + 1 && ran.value.unanswered == {} && ran.value.live == s.live
      && var m := ran.value.owners[h].memory;
      && ran.value.disk == Some(Stamped(m)) && m.acp.value.status == Finished
      && m.acp.value.stopReason == Some(stopReason)
      && m.acp.value.identity.runId == runId && m.acp.value.identity.attempt == attempt
      && (stopReason != CANCELLED_BEFORE_PROMPT ==> m.acp.value.promptSeeded == Some(true))
  {
    assert AtRest(s, h);
    var submitting := SubmitMoves(h, runId, attempt, selectable, select, submit);
    PromptSubmits(s, h, runId, attempt, selectable, select, submit);
    RanConcat(s, submitting, AnswerMoves(h, stopReason, finish));
    PromptFinishes(Ran(s, submitting).value, h, stopReason, finish);
  }

  // ---------------------------------------------------------------- the end

  function EndMoves(h: HostId, pid: Pid, stop: Write, fence: Write): seq<Action> {
    [Turns(h, Leave(true)), PeerDies(pid), Exits(h, TearDown(true, true, false))]
    + [Exits(h, RecordStopped(stop)), Exits(h, FenceSubmission(fence)), Exits(h, Release)]
  }

  lemma PeerIsGone(s: Protocol, h: HostId, pid: Pid)
    requires Inv(s) && In(s, h) && PhaseOf(s, h) == Idle(pid) && pid in s.live
    ensures var ran := Ran(s, [Turns(h, Leave(true)), PeerDies(pid), Exits(h, TearDown(true, true, false))]);
      ran == Some(s.(live := {}, owners := s.owners[h := Owning(s.owners[h].memory, Settling(true, true))]))
  {
    var leave, dies, down := Turns(h, Leave(true)), PeerDies(pid), Exits(h, TearDown(true, true, false));
    assert [leave, dies, down] == [leave] + ([dies] + ([down] + []));
    RanFirst(s, leave, [dies] + ([down] + []));
    var s1 := Step(s, leave);
    RanFirst(s1, dies, [down] + []);
    var s2 := Step(s1, dies);
    assert s2.live == {};
    RanFirst(s2, down, []);
    assert Step(s2, down).owners == s.owners[h := Owning(s.owners[h].memory, Settling(true, true))];
  }

  lemma RecordIsLeft(s: Protocol, h: HostId, stop: Write, fence: Write)
    requires In(s, h) && PhaseOf(s, h) == Settling(true, true) && Writable(s.owners[h].memory) && Reliable(stop)
    requires Quiescent(s.owners[h].memory.acp.value.status)
    ensures var ran := Ran(s, [Exits(h, RecordStopped(stop)), Exits(h, FenceSubmission(fence)), Exits(h, Release)]);
      && ran.Some? && h !in ran.value.owners && ran.value.live == s.live
      && (s.lock == Some(h) ==> ran.value.lock.None?)
      && ran.value.disk == Some(Stamped(StoppedRecord(s.owners[h].memory).value))
  {
    var record, done, release := Exits(h, RecordStopped(stop)), Exits(h, FenceSubmission(fence)), Exits(h, Release);
    assert [record, done, release] == [record] + ([done] + ([release] + []));
    var m := StoppedRecord(s.owners[h].memory).value;
    ReliableCommits(m, s.owners[h].memory, s.disk, stop);
    RanFirst(s, record, [done] + ([release] + []));
    var s1 := Step(s, record);
    assert s1.owners[h] == Owning(m, Settled(true, true));
    RanFirst(s1, done, [release] + []);
    RanFirst(Step(s1, done), release, []);
  }

  /** A ready session can always be ended clean: the peer gone, the record quiet and stopped, the workspace free. */
  lemma SessionEnds(s: Protocol, h: HostId, pid: Pid, stop: Write, fence: Write)
    requires Inv(s) && In(s, h) && PhaseOf(s, h) == Idle(pid) && pid in s.live
    requires Writable(s.owners[h].memory) && Reliable(stop)
    ensures var ran := Ran(s, EndMoves(h, pid, stop, fence));
      && ran.Some? && ran.value.lock.None? && h !in ran.value.owners && ran.value.live == {}
      && ran.value.disk.Some? && ran.value.disk.value.acp.Some?
      && var left, was := ran.value.disk.value.acp.value, s.owners[h].memory.acp.value;
      && left == was.(process := Stopped) && Quiescent(left.status)
  {
    PeerIsGone(s, h, pid);
    var first := [Turns(h, Leave(true)), PeerDies(pid), Exits(h, TearDown(true, true, false))];
    var rest := [Exits(h, RecordStopped(stop)), Exits(h, FenceSubmission(fence)), Exits(h, Release)];
    RanConcat(s, first, rest);
    RecordIsLeft(Ran(s, first).value, h, stop, fence);
  }

  // ---------------------------------------------------------------- any end

  /** The peer counts as gone exactly when it was reaped, and its tree killed or its group seen to be absent. */
  lemma TearsDownExactly(s: Protocol, h: HostId, reaped: bool, killed: bool, failed: bool)
    requires Enabled(s, Exits(h, TearDown(reaped, killed, failed)))
    ensures var s', m := Step(s, Exits(h, TearDown(reaped, killed, failed))), s.owners[h].memory;
      && s'.owners == s.owners[h := s'.owners[h]] && s'.disk == s.disk && s'.owners[h].memory == m
      && PhaseOf(s', h) == Settling(reaped && (killed || ProcessGone(m.acp.value.process, s.live + s.foreign)),
                                    PhaseOf(s, h).clean && reaped && !failed)
  {
    ProcessExactly(s.owners[h].memory.acp.value.process, s.live + s.foreign);
  }

  /** Stopped is recorded exactly when the peer is known to be gone. */
  lemma StopsExactly(s: Protocol, h: HostId, write: Write)
    requires Enabled(s, Exits(h, RecordStopped(write)))
    ensures var s', was := Step(s, Exits(h, RecordStopped(write))), s.owners[h].memory;
      var now := s'.owners[h].memory;
      if PhaseOf(s, h).proven then
        && now == WithState(was, was.acp.value.(process := Stopped))
        && s'.disk == (if OwnerProtocol.Reaches(now, write) then Some(Stamped(now)) else s.disk)
        && (PhaseOf(s', h).checkpointed <==> OwnerProtocol.Reaches(now, write) && write.outcome.Durable?)
      else now == was && s'.disk == s.disk && !PhaseOf(s', h).checkpointed
  {
  }

  /** A session that ends with its prompt submitted is left uncertain; any other is left as it is. */
  lemma FencesExactly(s: Protocol, h: HostId, write: Write)
    requires Enabled(s, Exits(h, FenceSubmission(write)))
    ensures var s', was := Step(s, Exits(h, FenceSubmission(write))), s.owners[h].memory;
      var now := s'.owners[h].memory;
      if was.acp.value.status == Submitted then
        && now == WithState(was, was.acp.value.(status := Status.Uncertain))
        && s'.disk == (if OwnerProtocol.Reaches(now, write) then Some(Stamped(now)) else s.disk)
        && PhaseOf(s', h) == Closing(false)
      else
        && now == was && s'.disk == s.disk
        && PhaseOf(s', h) == Closing(PhaseOf(s, h).clean && PhaseOf(s, h).checkpointed
                                     && (was.acp.value.status == Ready || was.acp.value.status == Finished))
  {
  }
}
