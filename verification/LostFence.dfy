/**
 A reachable run in which a failed terminal checkpoint loses its fence.

 The checkpoint reports that it failed, with nothing on disk. The record in memory is Finished all the same, so the
 process checkpoint that follows writes Finished, and the next claim is admitted.
 */
module LostFence {
  import opened Prelude
  import opened Records
  import opened DurableRecord
  import opened OwnerProtocol

  const WORKSPACE: Workspace := Workspace("i", "n", "k", "/w", None)
  const IDENTITY: Identity := Identity("p", "f", "c", "/w", None, None, "r", 1, 0)
  const REQUEST: ClaimRequest := ClaimRequest(IDENTITY, true, None, "o")
  const READS: Reads := Reads(Found(IssueManifest("i", "n", "k", "/w", None)), Missing, true, true, 0)
  const KEPT: Write := Write(0, Durable)
  const LOST: Write := Write(0, LostBefore)
  const START: Protocol := Protocol(WORKSPACE, None, None, map[], {}, {}, {}, 0, [])

  /** One host, number 0, owns the workspace. */
  ghost predicate Alone(s: Protocol, m: AcpManifest, phase: Phase) {
    && Reachable(s) && s.workspace == WORKSPACE && s.lock == Some(0) && s.owners == map[0 := Owning(m, phase)]
    && s.foreign == {} && m.issueId == "i" && m.identifier == "n" && m.parent.None? && m.runtime.None?
    && m.acp.value.harness == "acp" && m.acp.value.identity == IDENTITY.(generation := 1)
    && m.conversationId == (if m.acp.value.sessionId.Some? then m.acp.value.sessionId.value else "")
  }

  lemma Ids()
    ensures ValidIdentity(IDENTITY.(generation := 1)) && ValidIdentity(IDENTITY)
    ensures ValidId("r") && ValidId("s") && ValidId("e")
  {
    assert Utf8Length("") == 0;
  }

  /** Nothing in these records refuses a write. */
  lemma Writable(m: AcpManifest)
    requires m.acp.value.identity == IDENTITY.(generation := 1)
    requires m.acp.value.sessionId.None? || m.acp.value.sessionId == Some("s")
    ensures WriteRefusal(m, KEPT).None? && WriteRefusal(m, LOST).None?
  {
    Ids();
  }

  lemma Lock() returns (s: Protocol)
    ensures Reachable(s) && s == START.(lock := Some(0), owners := map[0 := Locking(REQUEST)])
  {
    Ids();
    InitiallyReachable(START);
    StepReachable(START, Claims(0, TakeLock(REQUEST, READS)));
    s := Step(START, Claims(0, TakeLock(REQUEST, READS)));
  }

  /** The first claim of a workspace starts from a fresh record. */
  lemma FirstClaim() returns (m: AcpManifest)
    ensures Admit(WORKSPACE, None, REQUEST, READS, {} + {}) == Success(m)
    ensures m.issueId == "i" && m.identifier == "n" && m.parent.None? && m.runtime.None? && m.conversationId == ""
    ensures m.acp.value.harness == "acp" && m.acp.value.identity == IDENTITY.(generation := 1)
    ensures m.acp.value.process == LaunchPending && m.acp.value.status == Ready && m.acp.value.sessionId.None?
  {
    m := Admit(WORKSPACE, None, REQUEST, READS, {} + {}).value;
  }

  lemma Claim() returns (s: Protocol, m: AcpManifest)
    ensures Alone(s, m, Admitted(true)) && s.live == {} && s.unanswered == {}
    ensures m.acp.value.process == LaunchPending && m.acp.value.status == Ready && m.acp.value.sessionId.None?
  {
    s := Lock();
    m := FirstClaim();
    StepReachable(s, Claims(0, Check(READS)));
    s := Step(s, Claims(0, Check(READS)));
  }

  lemma Reserve() returns (s: Protocol, m: AcpManifest)
    ensures Alone(s, m, Phase.Reserved) && s.live == {} && s.unanswered == {}
    ensures m.acp.value.process == LaunchPending && m.acp.value.status == Ready && m.acp.value.sessionId.None?
  {
    s, m := Claim();
    Writable(m);
    StepReachable(s, Claims(0, WriteReservation(KEPT)));
    s := Step(s, Claims(0, WriteReservation(KEPT)));
  }

  lemma Launch() returns (s: Protocol, m: AcpManifest)
    ensures Alone(s, m, Spawned(7)) && s.live == {7} && s.unanswered == {}
    ensures m.acp.value.process == LaunchPending && m.acp.value.status == Ready && m.acp.value.sessionId.None?
  {
    s, m := Reserve();
    StepReachable(s, Claims(0, Spawn(7)));
    s := Step(s, Claims(0, Spawn(7)));
  }

  lemma Connect() returns (s: Protocol, m: AcpManifest)
    ensures Alone(s, m, Connected(7)) && s.live == {7} && s.unanswered == {}
    ensures m.acp.value.process == Running(7) && m.acp.value.status == Ready && m.acp.value.sessionId.None?
  {
    s, m := Launch();
    Writable(LaunchedRecord(m, 7).value);
    StepReachable(s, Checkpoints(0, RecordLaunch(KEPT)));
    s := Step(s, Checkpoints(0, RecordLaunch(KEPT)));
    m := LaunchedRecord(m, 7).value;
  }

  lemma Settle() returns (s: Protocol, m: AcpManifest)
    ensures Alone(s, m, Idle(7)) && s.live == {7} && s.unanswered == {}
    ensures m.acp.value.process == Running(7) && m.acp.value.status == Ready && m.acp.value.sessionId == Some("s")
    ensures !m.acp.value.modelSelection
  {
    Ids();
    s, m := Connect();
    var session := Session("s", "", false, Fresh, None);
    Writable(ReadyRecord(m, session).value);
    StepReachable(s, Checkpoints(0, RecordReady(session, KEPT)));
    s := Step(s, Checkpoints(0, RecordReady(session, KEPT)));
    m := ReadyRecord(m, session).value;
  }

  lemma Select() returns (s: Protocol, m: AcpManifest)
    ensures Alone(s, m, Submitting(7)) && s.live == {7} && s.unanswered == {}
    ensures m.acp.value.process == Running(7) && m.acp.value.status == Ready && m.acp.value.sessionId == Some("s")
  {
    s, m := Settle();
    StepReachable(s, Turns(0, Prepare));
    s := Step(s, Turns(0, Prepare));
    StepReachable(s, Checkpoints(0, RecordSelection(false, KEPT)));
    s := Step(s, Checkpoints(0, RecordSelection(false, KEPT)));
  }

  lemma Accept() returns (s: Protocol, m: AcpManifest)
    ensures Alone(s, m, Accepted(7)) && s.live == {7} && s.unanswered == {}
    ensures m.acp.value.process == Running(7) && m.acp.value.status == Submitted && m.acp.value.sessionId == Some("s")
  {
    Ids();
    s, m := Select();
    Writable(SubmittedRecord(m, "r", 1).value);
    StepReachable(s, Checkpoints(0, RecordSubmission("r", 1, KEPT)));
    s := Step(s, Checkpoints(0, RecordSubmission("r", 1, KEPT)));
    m := SubmittedRecord(m, "r", 1).value;
  }

  lemma Answer() returns (s: Protocol, m: AcpManifest)
    ensures Alone(s, m, Phase.Answered(7)) && s.live == {7} && s.unanswered == {}
    ensures m.acp.value.process == Running(7) && m.acp.value.status == Submitted && m.acp.value.sessionId == Some("s")
  {
    s, m := Accept();
    StepReachable(s, Turns(0, SendPrompt)); s := Step(s, Turns(0, SendPrompt));
    StepReachable(s, Turns(0, Respond)); s := Step(s, Turns(0, Respond));
  }

  /** The checkpoint of the finished prompt fails and leaves the disk as it was; the driver ends the connection. */
  lemma FailToFinish() returns (s: Protocol, m: AcpManifest)
    ensures Alone(s, m, Exiting(7, false)) && s.live == {7} && s.unanswered == {} && Fenced(s.disk)
    ensures m.acp.value.process == Running(7) && m.acp.value.status == Finished && m.acp.value.sessionId == Some("s")
  {
    Ids();
    s, m := Answer();
    var finish := Turns(0, RecordFinish("e", LOST));
    AnsweredIsFenced(s);
    Writable(FinishedRecord(m, "e").value);
    StepReachable(s, finish); s := Step(s, finish);
    m := FinishedRecord(m, "e").value;
  }

  lemma AnsweredIsFenced(s: Protocol)
    requires Reachable(s) && In(s, 0) && PhaseOf(s, 0).Answered?
    ensures Fenced(s.disk)
  {
    var trace: seq<Protocol>, actions: seq<Action> :| Execution(trace, actions) && trace[|actions|] == s;
    EveryStateSafe(trace, actions, |actions|);
  }

  /** The peer exits and is seen to be gone. */
  lemma PeerExits(failed: Protocol, m: AcpManifest) returns (s: Protocol)
    requires Alone(failed, m, Exiting(7, false)) && failed.live == {7}
    ensures Alone(s, m, Settling(true, false))
  {
    StepReachable(failed, PeerDies(7));
    s := Step(failed, PeerDies(7));
    StepReachable(s, Exits(0, TearDown(true, true, false)));
    s := Step(s, Exits(0, TearDown(true, true, false)));
  }

  /** Its end is recorded, and with it the finished prompt. */
  lemma RecordEnd(failed: Protocol, m: AcpManifest) returns (s: Protocol)
    requires Alone(failed, m, Exiting(7, false)) && failed.live == {7} && m.acp.value.sessionId == Some("s")
    ensures Alone(s, StoppedRecord(m).value, Settled(true, false)) && s.disk == Some(Stamped(StoppedRecord(m).value))
  {
    s := PeerExits(failed, m);
    Writable(StoppedRecord(m).value);
    StepReachable(s, Exits(0, RecordStopped(KEPT)));
    s := Step(s, Exits(0, RecordStopped(KEPT)));
  }

  /** So the record is free for the next claim, although the checkpoint's failure was reported. */
  lemma FenceIsLost() returns (failed: Protocol, ended: Protocol)
    ensures Reachable(failed) && In(failed, 0) && PhaseOf(failed, 0) == Exiting(7, false) && Fenced(failed.disk)
    ensures Reachable(ended) && ended.owners == map[] && ended.lock.None?
    ensures DiskHas(ended, Finished) && !Fenced(ended.disk)
    ensures Admit(ended.workspace, ended.disk, REQUEST, READS, {}).Success?
  {
    var m: AcpManifest;
    failed, m := FailToFinish();
    ended := RecordEnd(failed, m);
    StepReachable(ended, Exits(0, FenceSubmission(KEPT)));
    ended := Step(ended, Exits(0, FenceSubmission(KEPT)));
    StepReachable(ended, Exits(0, Release));
    ended := Step(ended, Exits(0, Release));
    Readmitted(StoppedRecord(m).value);
  }

  lemma Readmitted(m: AcpManifest)
    requires m.issueId == "i" && m.identifier == "n" && m.conversationId == "s"
    requires m.acp.value.harness == "acp" && m.acp.value.identity == IDENTITY.(generation := 1)
    requires m.acp.value.sessionId == Some("s") && Quiescent(m.acp.value.status) && m.acp.value.process == Stopped
    ensures Admit(WORKSPACE, Some(Stamped(m)), REQUEST, READS, {}).Success?
  {
  }
}
