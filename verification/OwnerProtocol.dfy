/**
 Many hosts competing for one workspace, with crashes and failed checkpoints anywhere.

 The state is the durable record, the kernel's lock, the hosts that hold a `Durability` object, the peer
 process groups they launched, and the prompts that reached the wire without a terminal response. Every
 action does at most one write, so a crash between two writes is a crash between two actions.
 */
module OwnerProtocol {
  import opened Prelude
  import opened Records
  import opened DurableRecord

  type HostId = nat
  type Pid = nat
  type PromptId = nat

  datatype Phase =
    | Admitted(reserve: bool)             // record updated in memory, nothing written
    | Reserved                            // reservation durable, nothing spawned
    | Spawned(pid: Pid)                   // child running, its pid not yet written
    | Connected(pid: Pid)                 // pid durable, session setup running
    | Idle(pid: Pid)
    | Preparing(pid: Pid)
    | Submitting(pid: Pid)                // model selection durable
    | Accepted(pid: Pid)                  // submission durable, prompt not sent
    | OnWire(pid: Pid, prompt: PromptId)
    | Answered(pid: Pid)                  // terminal response seen, not recorded
    | Exiting(pid: Pid, clean: bool)      // the driver returned; the tree is being torn down
    | Settling(proven: bool, clean: bool) // `proven`: the peer is known to be gone
    | Settled(checkpointed: bool, clean: bool)
    | Closing(cleanupReady: bool)

  /** A host between taking the lock and checking the record owns no manifest yet. */
  datatype Owner = Locking(request: ClaimRequest) | Owning(memory: AcpManifest, phase: Phase)

  datatype Protocol = Protocol(
    workspace: Workspace,
    disk: Option<Manifest>,
    lock: Option<HostId>,
    owners: map<HostId, Owner>,
    live: set<Pid>,             // peer process groups launched for this workspace
    foreign: set<Pid>,          // every other process group on the machine
    unanswered: set<PromptId>,  // on the wire, no terminal response
    sent: nat,                  // prompts ever put on the wire
    launches: seq<nat>)         // the generation of every launch, in order

  /** From the lock to a running child. */
  datatype ClaimMove =
    | TakeLock(request: ClaimRequest, io: Reads)
    | Check(io: Reads)
    | WriteReservation(write: Write)
    | LaunchRefused
    | Spawn(pid: Pid)

  /** Checkpoints whose failure ends the connection. */
  datatype CheckpointMove =
    | RecordLaunch(write: Write)
    | RecordReady(session: Session, write: Write)
    | RecordSelection(selectable: bool, write: Write)
    | RecordSubmission(runId: string, attempt: nat, write: Write)
    | RecordUncertain(write: Write)

  datatype TurnMove =
    | Prepare
    | CancelBeforePrompt(write: Write)
    | SendPrompt
    | Respond
    | RecordFinish(stopReason: string, write: Write)
    | Leave(clean: bool)

  datatype ExitMove =
    | TearDown(reaped: bool, killed: bool, failed: bool)
    | RecordStopped(write: Write)
    | FenceSubmission(write: Write)
    | Release
    | Crash

  datatype Action =
    | Claims(h: HostId, claim: ClaimMove)
    | Checkpoints(h: HostId, checkpoint: CheckpointMove)
    | Turns(h: HostId, turn: TurnMove)
    | Exits(h: HostId, exit: ExitMove)
    | PeerDies(pid: Pid)
    | OtherProcesses(groups: set<Pid>)

  // ---------------------------------------------------------------- steps

  predicate In(s: Protocol, h: HostId) { h in s.owners && s.owners[h].Owning? }

  function PhaseOf(s: Protocol, h: HostId): Phase
    requires In(s, h)
  {
    s.owners[h].phase
  }

  predicate HasPeer(p: Phase) {
    p.Spawned? || p.Connected? || p.Idle? || p.Preparing? || p.Submitting? || p.Accepted? || p.OnWire? || p.Answered?
    || p.Exiting?
  }

  /** The phases in which the driver loop runs; a fatal error can end the connection in any of them. */
  predicate InConnection(p: Phase) { HasPeer(p) && !p.Spawned? && !p.Exiting? }

  function Dropped(s: Protocol, h: HostId): Protocol {
    s.(owners := s.owners - {h}, lock := if s.lock == Some(h) then None else s.lock)
  }

  function Moved(s: Protocol, h: HostId, p: Phase): Protocol
    requires In(s, h)
  {
    s.(owners := s.owners[h := s.owners[h].(phase := p)])
  }

  /** The owner's memory and the disk after an operation, and the phase its result leads to. */
  function Wrote(s: Protocol, h: HostId, e: Effect, ok: Phase, failed: Phase): Protocol
    requires In(s, h)
  {
    s.(disk := e.disk, owners := s.owners[h := Owning(e.memory, if e.result.Success? then ok else failed)])
  }

  /** A new child has a group identifier that no existing group has. */
  predicate ClaimEnabled(s: Protocol, h: HostId, move: ClaimMove) {
    match move
    case TakeLock(request, io) => h !in s.owners && s.lock.None? && PreLockRefusal(s.workspace, request, io).None?
    case Check(_) => h in s.owners && s.owners[h].Locking?
    case WriteReservation(_) => In(s, h) && PhaseOf(s, h).Admitted?
    case LaunchRefused => In(s, h) && PhaseOf(s, h).Reserved?
    case Spawn(pid) => In(s, h) && PhaseOf(s, h).Reserved? && pid !in s.live && pid !in s.foreign
  }

  function ClaimStep(s: Protocol, h: HostId, move: ClaimMove): Protocol
    requires ClaimEnabled(s, h, move)
  {
    match move
    case TakeLock(request, _) => s.(lock := Some(h), owners := s.owners[h := Locking(request)])
    case Check(io) =>
      var request := s.owners[h].request;
      var admitted := Admit(s.workspace, s.disk, request, io, s.live + s.foreign);
      if admitted.Failure? then Dropped(s, h)
      else s.(owners := s.owners[h := Owning(admitted.value, Admitted(request.reserveLaunch))])
    case WriteReservation(write) =>
      var m := s.owners[h].memory;
      var written := s.(disk := DiskAfter(s.disk, m, write));
      if WriteResult(m, write).Success? && PhaseOf(s, h).reserve then Moved(written, h, Reserved)
      else Dropped(written, h)
    case LaunchRefused => Moved(s, h, Settling(true, false))
    case Spawn(pid) =>
      Moved(s, h, Spawned(pid)).(live := s.live + {pid},
                                 launches := s.launches + [s.owners[h].memory.acp.value.identity.generation])
  }

  predicate CheckpointEnabled(s: Protocol, h: HostId, move: CheckpointMove) {
    In(s, h) &&
    match move
    case RecordLaunch(_) => PhaseOf(s, h).Spawned?
    case RecordReady(_, _) => PhaseOf(s, h).Connected?
    case RecordSelection(_, _) => PhaseOf(s, h).Preparing?
    case RecordSubmission(_, _, _) => PhaseOf(s, h).Submitting?
    case RecordUncertain(_) => PhaseOf(s, h).Accepted? || PhaseOf(s, h).OnWire? || PhaseOf(s, h).Answered?
  }

  function CheckpointStep(s: Protocol, h: HostId, move: CheckpointMove): Protocol
    requires CheckpointEnabled(s, h, move)
  {
    var m, pid := s.owners[h].memory, PhaseOf(s, h).pid;
    match move
    case RecordLaunch(write) =>
      Wrote(s, h, Commit(LaunchedRecord(m, pid), m, s.disk, write), Connected(pid), Settling(false, false))
    case RecordReady(session, write) =>
      Wrote(s, h, Commit(ReadyRecord(m, session), m, s.disk, write), Idle(pid), Exiting(pid, false))
    case RecordSelection(selectable, write) =>
      Wrote(s, h, CommitSelection(m, selectable, s.disk, write), Submitting(pid), Exiting(pid, false))
    case RecordSubmission(runId, attempt, write) =>
      Wrote(s, h, Commit(SubmittedRecord(m, runId, attempt), m, s.disk, write), Accepted(pid), Exiting(pid, false))
    case RecordUncertain(write) =>
      Wrote(s, h, Commit(UncertainRecord(m), m, s.disk, write), Exiting(pid, false), Exiting(pid, false))
  }

  predicate TurnEnabled(s: Protocol, h: HostId, move: TurnMove) {
    In(s, h) &&
    match move
    case Prepare => PhaseOf(s, h).Idle?
    case CancelBeforePrompt(_) => PhaseOf(s, h).Accepted?
    case SendPrompt => PhaseOf(s, h).Accepted?
    case Respond => PhaseOf(s, h).OnWire?
    case RecordFinish(_, _) => PhaseOf(s, h).Answered?
    case Leave(clean) => InConnection(PhaseOf(s, h)) && (clean ==> PhaseOf(s, h).Idle?)
  }

  function TurnStep(s: Protocol, h: HostId, move: TurnMove): Protocol
    requires TurnEnabled(s, h, move)
  {
    var m, pid := s.owners[h].memory, PhaseOf(s, h).pid;
    match move
    case Prepare => Moved(s, h, Preparing(pid))
    case CancelBeforePrompt(write) =>
      Wrote(s, h, Commit(FinishedRecord(m, CANCELLED_BEFORE_PROMPT), m, s.disk, write),
            Exiting(pid, false), Exiting(pid, false))
    case SendPrompt =>
      Moved(s, h, OnWire(pid, s.sent)).(unanswered := s.unanswered + {s.sent}, sent := s.sent + 1)
    case Respond =>
      Moved(s, h, Answered(pid)).(unanswered := s.unanswered - {PhaseOf(s, h).prompt})
    case RecordFinish(stopReason, write) =>
      Wrote(s, h, Commit(FinishedRecord(m, stopReason), m, s.disk, write), Idle(pid), Exiting(pid, false))
    case Leave(clean) => Moved(s, h, Exiting(pid, clean))
  }

  /** A tree kill that reports success, with the child reaped, leaves no member of the group. */
  predicate ExitEnabled(s: Protocol, h: HostId, move: ExitMove) {
    match move
    case TearDown(reaped, killed, _) =>
      In(s, h) && PhaseOf(s, h).Exiting? && (reaped && killed ==> PhaseOf(s, h).pid !in s.live)
    case RecordStopped(_) => In(s, h) && PhaseOf(s, h).Settling?
    case FenceSubmission(_) => In(s, h) && PhaseOf(s, h).Settled?
    case Release => In(s, h) && PhaseOf(s, h).Closing?
    case Crash => h in s.owners
  }

  function ExitStep(s: Protocol, h: HostId, move: ExitMove): Protocol
    requires ExitEnabled(s, h, move)
  {
    match move
    case TearDown(reaped, killed, failed) =>
      var p := PhaseOf(s, h);
      var absent := PriorProcess(s.owners[h].memory.acp.value.process, s.live + s.foreign).None?;
      Moved(s, h, Settling(reaped && (killed || absent), p.clean && reaped && !failed))
    case RecordStopped(write) =>
      var m, p := s.owners[h].memory, PhaseOf(s, h);
      if p.proven
      then Wrote(s, h, Commit(StoppedRecord(m), m, s.disk, write), Settled(true, p.clean), Settled(false, p.clean))
      else Moved(s, h, Settled(false, p.clean))
    case FenceSubmission(write) =>
      var m, p := s.owners[h].memory, PhaseOf(s, h);
      if m.acp.value.status == Submitted
      then Wrote(s, h, Commit(UncertainRecord(m), m, s.disk, write), Closing(false), Closing(false))
      else Moved(s, h, Closing(p.clean && p.checkpointed && Quiescent(m.acp.value.status)))
    case Release => Dropped(s, h)
    case Crash => Dropped(s, h)
  }

  predicate Enabled(s: Protocol, a: Action) {
    match a
    case Claims(h, move) => ClaimEnabled(s, h, move)
    case Checkpoints(h, move) => CheckpointEnabled(s, h, move)
    case Turns(h, move) => TurnEnabled(s, h, move)
    case Exits(h, move) => ExitEnabled(s, h, move)
    case PeerDies(pid) => pid in s.live
    case OtherProcesses(groups) => groups !! s.live
  }

  function Step(s: Protocol, a: Action): Protocol
    requires Enabled(s, a)
  {
    match a
    case Claims(h, move) => ClaimStep(s, h, move)
    case Checkpoints(h, move) => CheckpointStep(s, h, move)
    case Turns(h, move) => TurnStep(s, h, move)
    case Exits(h, move) => ExitStep(s, h, move)
    case PeerDies(pid) => s.(live := s.live - {pid})
    case OtherProcesses(groups) => s.(foreign := groups)
  }

  /** Any record an earlier run left behind, with no peer and no open prompt. */
  predicate Initial(s: Protocol) {
    s.lock.None? && s.owners == map[] && s.live == {} && s.unanswered == {} && s.launches == []
  }

  predicate Execution(trace: seq<Protocol>, actions: seq<Action>) {
    && |trace| == |actions| + 1
    && Initial(trace[0])
    && forall i :: 0 <= i < |actions| ==> Enabled(trace[i], actions[i]) && trace[i + 1] == Step(trace[i], actions[i])
  }

  // ---------------------------------------------------------------- the invariant

  /** A marker that bars every claim for as long as one of the groups in `live` exists. */
  predicate Fences(process: Process, live: set<Pid>) {
    forall pid :: pid in live ==> process == LaunchPending || process == Running(pid)
  }

  /** A status that bars every claim while a prompt is unanswered. */
  predicate Guards(status: Status, unanswered: set<PromptId>) {
    unanswered == {} || !Quiescent(status)
  }

  predicate RecordSafe(m: Manifest, s: Protocol) {
    m.acp.Some? ==> Fences(m.acp.value.process, s.live) && Guards(m.acp.value.status, s.unanswered)
  }

  predicate DiskSafe(s: Protocol) {
    if s.disk.Some? then RecordSafe(s.disk.value, s) && (s.disk.value.acp.None? ==> s.live == {} && s.unanswered == {})
    else s.live == {} && s.unanswered == {}
  }

  function DiskGeneration(s: Protocol): nat {
    if s.disk.Some? && s.disk.value.acp.Some? then s.disk.value.acp.value.identity.generation else 0
  }

  predicate DiskHas(s: Protocol, status: Status) {
    s.disk.Some? && s.disk.value.acp.Some? && s.disk.value.acp.value.status == status
  }

  predicate Increasing(xs: seq<nat>) { forall i, j :: 0 <= i < j < |xs| ==> xs[i] < xs[j] }

  predicate Below(xs: seq<nat>, bound: nat) { forall i :: 0 <= i < |xs| ==> xs[i] < bound }

  /** What an owner in this phase knows. */
  predicate PhaseSafe(s: Protocol, m: AcpManifest, p: Phase) {
    var state := m.acp.value;
    && (p.Admitted? || p.Reserved? ==> s.live == {} && s.unanswered == {})
    && (p.Admitted? ==> state.identity.generation == DiskGeneration(s) + (if p.reserve then 1 else 0)
                        && state.process == (if p.reserve then LaunchPending else Stopped))
    && (!p.Admitted? ==> s.disk.Some? && s.disk.value.acp.Some? && state.identity.generation == DiskGeneration(s))
    && (p.Reserved? ==> Below(s.launches, state.identity.generation))
    && (p.Reserved? || p.Spawned? ==> s.disk == Some(Stamped(m)) && state.process == LaunchPending)
    && (p.Spawned? ==> s.live <= {p.pid})
    && (p.Connected? || p.Idle? || p.Preparing? || p.Submitting? ==> s.disk == Some(Stamped(m)))
    && (HasPeer(p) && !p.Spawned? ==> state.process == Running(p.pid))
    && (HasPeer(p) && !p.OnWire? && !p.Exiting? ==> s.unanswered == {})
    && (p.Admitted? || p.Reserved? || p.Spawned? || p.Connected? || p.Idle? || p.Preparing? || p.Submitting?
        ==> Quiescent(state.status))
    && (p.Accepted? || p.OnWire? || p.Answered? ==> state.status == Submitted && s.disk == Some(Stamped(m)))
    && (p.OnWire? ==> s.unanswered <= {p.prompt})
    && (p.Settling? && p.proven ==> s.live == {})
    && (p.Settled? && p.checkpointed ==> s.disk == Some(Stamped(m)) && state.process == Stopped)
    && (p.Closing? && p.cleanupReady ==>
        s.disk == Some(Stamped(m)) && state.process == Stopped && Quiescent(state.status))
  }

  /** The record belongs to this workspace and names its own conversation. */
  predicate RecordBound(ws: Workspace, m: AcpManifest) {
    var state := m.acp.value;
    && m.issueId == ws.issueId && m.identifier == ws.identifier
    && state.harness == "acp"
    && m.conversationId == (if state.sessionId.Some? then state.sessionId.value else "")
  }

  predicate OwnerSafe(s: Protocol, o: Owner) {
    o.Owning? ==> RecordSafe(o.memory, s) && RecordBound(s.workspace, o.memory) && PhaseSafe(s, o.memory, o.phase)
  }

  function Holders(lock: Option<HostId>): set<HostId> { if lock.Some? then {lock.value} else {} }

  predicate Inv(s: Protocol) {
    && s.owners.Keys == Holders(s.lock)
    && (forall p, q :: p in s.live && q in s.live ==> p == q)
    && (forall p, q :: p in s.unanswered && q in s.unanswered ==> p == q)
    && DiskSafe(s)
    && Increasing(s.launches) && Below(s.launches, DiskGeneration(s) + 1)
    && (s.lock.Some? ==> OwnerSafe(s, s.owners[s.lock.value]))
  }

  // ---------------------------------------------------------------- preservation

  /** Whatever a claim admits is quiet: no open prompt, no surviving peer, and the successor generation. */
  lemma AdmitQuiet(s: Protocol, request: ClaimRequest, io: Reads)
    requires Inv(s)
    requires Admit(s.workspace, s.disk, request, io, s.live + s.foreign).Success?
    ensures s.live == {} && s.unanswered == {}
    ensures var m := Admit(s.workspace, s.disk, request, io, s.live + s.foreign).value;
      Quiescent(m.acp.value.status) && RecordBound(s.workspace, m)
      && m.acp.value.process == (if request.reserveLaunch then LaunchPending else Stopped)
      && m.acp.value.identity.generation == DiskGeneration(s) + (if request.reserveLaunch then 1 else 0)
  {
    var loaded := LoadedRecord(s.workspace, s.disk, request, io).value;
    var bound := WithRun(loaded, request, io).value;
    assert bound.acp == loaded.acp;
    if s.disk.Some? {
      assert PriorProcess(bound.acp.value.process, s.live + s.foreign).None?;
      assert forall pid :: pid in s.live ==> pid in s.live + s.foreign;
    }
  }

  /**
   An admitted launch carries exactly the requested binding under the successor generation, continues the recorded
   conversation, and starts a new run without the outcome of the old one.
   */
  lemma AdmittedIdentity(ws: Workspace, disk: Option<Manifest>, request: ClaimRequest, io: Reads, groups: set<Pid>)
    requires disk.Some? && disk.value.acp.Some? && request.reserveLaunch
    requires Admit(ws, disk, request, io, groups).Success?
    ensures var was := disk.value.acp.value; var m := Admit(ws, disk, request, io, groups).value;
      var now := m.acp.value;
      && now.identity == request.identity.(generation := was.identity.generation + 1)
      && (request.identity.generation != 0 ==> now.identity.generation == request.identity.generation + 1)
      && now.sessionId == was.sessionId && m.conversationId == disk.value.conversationId
      && (request.expectedSession.Some? ==> now.sessionId == request.expectedSession)
      && (if was.identity.runId == request.identity.runId && was.identity.attempt == request.identity.attempt
          then now.status == was.status && now.stopReason == was.stopReason
          else now.status == Ready && now.stopReason == None)
  {
    var bound := WithRun(LoadedRecord(ws, disk, request, io).value, request, io).value;
    assert bound.acp == disk.value.acp && bound.conversationId == disk.value.conversationId;
  }

  predicate Seeded(s: Protocol, h: HostId) {
    In(s, h) && s.owners[h].memory.acp.value.promptSeeded == Some(true)
  }

  /** An owner's record becomes seeded only by finishing a prompt that the peer answered. */
  lemma SeedingNeedsAnAnswer(s: Protocol, a: Action, h: HostId)
    requires Enabled(s, a) && In(s, h) && !Seeded(s, h) && Seeded(Step(s, a), h)
    ensures a.Turns? && a.h == h && a.turn.RecordFinish? && PhaseOf(s, h).Answered?
    ensures a.turn.stopReason != CANCELLED_BEFORE_PROMPT
  {
    match a
    case Claims(_, move) =>
    case Checkpoints(_, move) =>
    case Turns(_, move) =>
    case Exits(_, move) =>
    case _ =>
  }

  predicate Grows(s: Protocol, s': Protocol) {
    DiskGeneration(s) <= DiskGeneration(s') && s.launches <= s'.launches
  }

  /** A step keeps the invariant, never lowers the durable generation, and only appends launches. */
  predicate Kept(s: Protocol, s': Protocol) {
    Inv(s') && Grows(s, s')
  }

  lemma DroppedSafe(s: Protocol, h: HostId)
    requires Inv(s) && h in s.owners
    ensures Kept(s, Dropped(s, h))
  {
  }

  /** Moving to another phase is safe when the owner knows what that phase claims. */
  lemma MovedSafe(s: Protocol, h: HostId, p: Phase)
    requires Inv(s) && In(s, h) && PhaseSafe(s, s.owners[h].memory, p)
    ensures Kept(s, Moved(s, h, p))
  {
  }

  /**
   Writing an updated record is safe wherever the write leaves the disk, provided the update keeps the
   generation and does not uncover a live peer or an unanswered prompt.
   */
  lemma WroteSafe(s: Protocol, h: HostId, update: Result<Manifest, Error>, write: Write, ok: Phase, failed: Phase)
    requires Inv(s) && In(s, h) && !PhaseOf(s, h).Admitted?
    requires update.Success? ==>
               update.value.acp.Some? && RecordSafe(update.value, s)
               && RecordBound(s.workspace, update.value)
               && update.value.acp.value.identity.generation == DiskGeneration(s)
    requires var e := Commit(update, s.owners[h].memory, s.disk, write);
      PhaseSafe(s.(disk := e.disk), e.memory, if e.result.Success? then ok else failed)
    ensures Kept(s, Wrote(s, h, Commit(update, s.owners[h].memory, s.disk, write), ok, failed))
  {
  }

  /** Taking in a quiescent record with nothing alive is safe. */
  lemma TakenInSafe(s: Protocol, h: HostId, m: AcpManifest, reserve: bool)
    requires Inv(s) && h in s.owners && s.owners[h].Locking? && s.live == {} && s.unanswered == {}
    requires Quiescent(m.acp.value.status) && RecordBound(s.workspace, m)
    requires m.acp.value.process == if reserve then LaunchPending else Stopped
    requires m.acp.value.identity.generation == DiskGeneration(s) + (if reserve then 1 else 0)
    ensures Kept(s, s.(owners := s.owners[h := Owning(m, Admitted(reserve))]))
  {
  }

  lemma CheckSafe(s: Protocol, h: HostId, io: Reads)
    requires Inv(s) && h in s.owners && s.owners[h].Locking?
    ensures Kept(s, ClaimStep(s, h, Check(io)))
  {
    var request := s.owners[h].request;
    var admitted := Admit(s.workspace, s.disk, request, io, s.live + s.foreign);
    if admitted.Success? {
      AdmitQuiet(s, request, io);
      TakenInSafe(s, h, admitted.value, request.reserveLaunch);
    } else {
      DroppedSafe(s, h);
    }
  }

  lemma SpawnSafe(s: Protocol, h: HostId, pid: Pid)
    requires Inv(s) && ClaimEnabled(s, h, Spawn(pid))
    ensures Kept(s, ClaimStep(s, h, Spawn(pid)))
  {
  }

  lemma ReservationSafe(s: Protocol, h: HostId, write: Write)
    requires Inv(s) && In(s, h) && PhaseOf(s, h).Admitted?
    ensures Kept(s, ClaimStep(s, h, WriteReservation(write)))
  {
  }

  lemma ClaimStepSafe(s: Protocol, h: HostId, move: ClaimMove)
    requires Inv(s) && ClaimEnabled(s, h, move)
    ensures Kept(s, ClaimStep(s, h, move))
  {
    match move
    case TakeLock(_, _) =>
    case Check(io) => CheckSafe(s, h, io);
    case WriteReservation(write) => ReservationSafe(s, h, write);
    case LaunchRefused => MovedSafe(s, h, Settling(true, false));
    case Spawn(pid) => SpawnSafe(s, h, pid);
  }

  lemma SelectionSafe(s: Protocol, h: HostId, selectable: bool, write: Write)
    requires Inv(s) && In(s, h) && PhaseOf(s, h).Preparing?
    ensures Kept(s, CheckpointStep(s, h, RecordSelection(selectable, write)))
  {
    var m, pid := s.owners[h].memory, PhaseOf(s, h).pid;
    match ModelSelectionRecord(m, selectable)
    case Success(Some(m')) => WroteSafe(s, h, Success(m'), write, Submitting(pid), Exiting(pid, false));
    case Success(None) => MovedSafe(s, h, Submitting(pid));
    case Failure(_) => MovedSafe(s, h, Exiting(pid, false));
  }

  lemma LaunchSafe(s: Protocol, h: HostId, write: Write)
    requires Inv(s) && CheckpointEnabled(s, h, RecordLaunch(write))
    ensures Kept(s, CheckpointStep(s, h, RecordLaunch(write)))
  {
    var m, pid := s.owners[h].memory, PhaseOf(s, h).pid;
    WroteSafe(s, h, LaunchedRecord(m, pid), write, Connected(pid), Settling(false, false));
  }

  lemma ReadySafe(s: Protocol, h: HostId, session: Session, write: Write)
    requires Inv(s) && CheckpointEnabled(s, h, RecordReady(session, write))
    ensures Kept(s, CheckpointStep(s, h, RecordReady(session, write)))
  {
    var m, pid := s.owners[h].memory, PhaseOf(s, h).pid;
    WroteSafe(s, h, ReadyRecord(m, session), write, Idle(pid), Exiting(pid, false));
  }

  lemma SubmissionSafe(s: Protocol, h: HostId, runId: string, attempt: nat, write: Write)
    requires Inv(s) && In(s, h) && PhaseOf(s, h).Submitting?
    ensures Kept(s, CheckpointStep(s, h, RecordSubmission(runId, attempt, write)))
  {
    var m, pid := s.owners[h].memory, PhaseOf(s, h).pid;
    WroteSafe(s, h, SubmittedRecord(m, runId, attempt), write, Accepted(pid), Exiting(pid, false));
  }

  lemma CheckpointStepSafe(s: Protocol, h: HostId, move: CheckpointMove)
    requires Inv(s) && CheckpointEnabled(s, h, move)
    ensures Kept(s, CheckpointStep(s, h, move))
  {
    var m, pid := s.owners[h].memory, PhaseOf(s, h).pid;
    match move
    case RecordLaunch(write) => LaunchSafe(s, h, write);
    case RecordReady(session, write) => ReadySafe(s, h, session, write);
    case RecordSelection(selectable, write) => SelectionSafe(s, h, selectable, write);
    case RecordSubmission(runId, attempt, write) => SubmissionSafe(s, h, runId, attempt, write);
    case RecordUncertain(write) =>
      WroteSafe(s, h, UncertainRecord(m), write, Exiting(pid, false), Exiting(pid, false));
  }

  lemma FinishSafe(s: Protocol, h: HostId, stopReason: string, write: Write, ok: Phase)
    requires Inv(s) && In(s, h) && (PhaseOf(s, h).Accepted? || PhaseOf(s, h).Answered?)
    requires ok == Exiting(PhaseOf(s, h).pid, false) || ok == Idle(PhaseOf(s, h).pid)
    ensures var m, failed := s.owners[h].memory, Exiting(PhaseOf(s, h).pid, false);
      Kept(s, Wrote(s, h, Commit(FinishedRecord(m, stopReason), m, s.disk, write), ok, failed))
  {
    var m, failed := s.owners[h].memory, Exiting(PhaseOf(s, h).pid, false);
    WroteSafe(s, h, FinishedRecord(m, stopReason), write, ok, failed);
  }

  lemma TurnStepSafe(s: Protocol, h: HostId, move: TurnMove)
    requires Inv(s) && TurnEnabled(s, h, move)
    ensures Kept(s, TurnStep(s, h, move))
  {
    var pid := PhaseOf(s, h).pid;
    match move
    case Prepare => MovedSafe(s, h, Preparing(pid));
    case CancelBeforePrompt(write) => FinishSafe(s, h, CANCELLED_BEFORE_PROMPT, write, Exiting(pid, false));
    case SendPrompt =>
    case Respond =>
    case RecordFinish(stopReason, write) => FinishSafe(s, h, stopReason, write, Idle(pid));
    case Leave(clean) => MovedSafe(s, h, Exiting(pid, clean));
  }

  lemma TearDownSafe(s: Protocol, h: HostId, reaped: bool, killed: bool, failed: bool)
    requires Inv(s) && ExitEnabled(s, h, TearDown(reaped, killed, failed))
    ensures Kept(s, ExitStep(s, h, TearDown(reaped, killed, failed)))
  {
    MovedSafe(s, h, PhaseOf(ExitStep(s, h, TearDown(reaped, killed, failed)), h));
  }

  lemma FenceSafe(s: Protocol, h: HostId, write: Write)
    requires Inv(s) && In(s, h) && PhaseOf(s, h).Settled?
    ensures Kept(s, ExitStep(s, h, FenceSubmission(write)))
  {
    var m := s.owners[h].memory;
    if m.acp.value.status == Submitted {
      WroteSafe(s, h, UncertainRecord(m), write, Closing(false), Closing(false));
    } else {
      MovedSafe(s, h, PhaseOf(ExitStep(s, h, FenceSubmission(write)), h));
    }
  }

  lemma ExitStepSafe(s: Protocol, h: HostId, move: ExitMove)
    requires Inv(s) && ExitEnabled(s, h, move)
    ensures Kept(s, ExitStep(s, h, move))
  {
    match move
    case TearDown(reaped, killed, failed) => TearDownSafe(s, h, reaped, killed, failed);
    case RecordStopped(write) =>
      var m, p := s.owners[h].memory, PhaseOf(s, h);
      if p.proven {
        WroteSafe(s, h, StoppedRecord(m), write, Settled(true, p.clean), Settled(false, p.clean));
      } else {
        MovedSafe(s, h, Settled(false, p.clean));
      }
    case FenceSubmission(write) => FenceSafe(s, h, write);
    case Release => DroppedSafe(s, h);
    case Crash => DroppedSafe(s, h);
  }

  lemma StepSafe(s: Protocol, a: Action)
    requires Inv(s) && Enabled(s, a)
    ensures Kept(s, Step(s, a))
  {
    match a
    case Claims(h, move) => ClaimStepSafe(s, h, move);
    case Checkpoints(h, move) => CheckpointStepSafe(s, h, move);
    case Turns(h, move) => TurnStepSafe(s, h, move);
    case Exits(h, move) => ExitStepSafe(s, h, move);
    case PeerDies(_) =>
    case OtherProcesses(_) =>
  }

  lemma {:induction false} EveryStateSafe(trace: seq<Protocol>, actions: seq<Action>, i: nat)
    requires Execution(trace, actions) && i < |trace|
    ensures Inv(trace[i])
  {
    if i > 0 {
      EveryStateSafe(trace, actions, i - 1);
      StepSafe(trace[i - 1], actions[i - 1]);
    }
  }

  // ---------------------------------------------------------------- what every run guarantees

  /** At most one host owns the workspace and at most one launched peer is alive. */
  lemma OneOwnerOnePeer(trace: seq<Protocol>, actions: seq<Action>, i: nat)
    requires Execution(trace, actions) && i < |trace|
    ensures forall g, h :: g in trace[i].owners && h in trace[i].owners ==> g == h
    ensures forall p, q :: p in trace[i].live && q in trace[i].live ==> p == q
  {
    EveryStateSafe(trace, actions, i);
  }

  /** Every launch carries a generation above all earlier ones, whatever crashed in between. */
  lemma LaunchGenerationsIncrease(trace: seq<Protocol>, actions: seq<Action>, i: nat)
    requires Execution(trace, actions) && i < |trace|
    ensures Increasing(trace[i].launches)
  {
    EveryStateSafe(trace, actions, i);
  }

  lemma EveryStepKept(trace: seq<Protocol>, actions: seq<Action>, i: nat)
    requires Execution(trace, actions) && i < |actions|
    ensures Kept(trace[i], trace[i + 1])
  {
    EveryStateSafe(trace, actions, i);
    StepSafe(trace[i], actions[i]);
  }

  lemma {:induction false} GrowsOn(trace: seq<Protocol>, i: nat, j: nat)
    requires i <= j < |trace| && forall k :: i <= k < j ==> Grows(trace[k], trace[k + 1])
    ensures Grows(trace[i], trace[j])
  {
    if i < j {
      GrowsOn(trace, i, j - 1);
      assert Grows(trace[j - 1], trace[j - 1 + 1]);
    }
  }

  /** The durable generation never goes back, and launches are only ever appended. */
  lemma {:induction false} GenerationsOnlyGrow(trace: seq<Protocol>, actions: seq<Action>, i: nat, j: nat)
    requires Execution(trace, actions) && i <= j < |trace|
    ensures DiskGeneration(trace[i]) <= DiskGeneration(trace[j]) && trace[i].launches <= trace[j].launches
  {
    forall k | i <= k < j ensures Grows(trace[k], trace[k + 1]) {
      EveryStepKept(trace, actions, k);
    }
    GrowsOn(trace, i, j);
  }

  /** While a delivered prompt is unanswered it is the only one, the disk says so, and every claim is refused. */
  lemma UnansweredPromptIsFenced(trace: seq<Protocol>, actions: seq<Action>, i: nat)
    requires Execution(trace, actions) && i < |trace| && trace[i].unanswered != {}
    ensures forall p, q :: p in trace[i].unanswered && q in trace[i].unanswered ==> p == q
    ensures DiskHas(trace[i], Submitted) || DiskHas(trace[i], Status.Uncertain)
    ensures forall request, io, groups, locked, write ::
      Claimed(trace[i].workspace, trace[i].disk, locked, request, io, groups, write).result.Failure?
  {
    EveryStateSafe(trace, actions, i);
    forall request, io, groups
      ensures Admit(trace[i].workspace, trace[i].disk, request, io, groups).Failure?
    {
      NotQuiescentRefused(trace[i].workspace, trace[i].disk, request, io, groups);
    }
  }

  /** A record a claim cannot take: foreign to ACP, of unknown outcome, or lost between reservation and pid. */
  predicate Fenced(disk: Option<Manifest>) {
    && disk.Some?
    && (disk.value.acp.Some? ==>
        !Quiescent(disk.value.acp.value.status) || disk.value.acp.value.process == LaunchPending)
  }

  lemma NotQuiescentRefused(ws: Workspace, disk: Option<Manifest>, request: ClaimRequest, io: Reads, groups: set<nat>)
    requires Fenced(disk)
    ensures Admit(ws, disk, request, io, groups).Failure?
  {
    var loaded := LoadedRecord(ws, disk, request, io);
    if loaded.Success? {
      var bound := WithRun(loaded.value, request, io);
      assert bound.Success? ==> bound.value.acp == disk.value.acp;
    }
  }

  predicate HeldBack(s: Protocol, from: Protocol) {
    && s.disk == from.disk && s.launches == from.launches && s.sent == from.sent
    && forall h :: h in s.owners ==> s.owners[h].Locking?
  }

  lemma HeldBackStep(from: Protocol, s: Protocol, a: Action)
    requires Fenced(from.disk) && HeldBack(s, from) && Enabled(s, a)
    ensures HeldBack(Step(s, a), from)
  {
    match a
    case Claims(h, Check(io)) => NotQuiescentRefused(s.workspace, s.disk, s.owners[h].request, io, s.live + s.foreign);
    case _ =>
  }

  /** Once a fenced record has no owner, no later step of any host rewrites it, launches, or sends a prompt. */
  lemma {:induction false} FenceIsFinal(trace: seq<Protocol>, actions: seq<Action>, i: nat, j: nat)
    requires Execution(trace, actions) && i <= j < |trace|
    requires trace[i].owners == map[] && Fenced(trace[i].disk)
    ensures HeldBack(trace[j], trace[i])
  {
    if i < j {
      FenceIsFinal(trace, actions, i, j - 1);
      HeldBackStep(trace[i], trace[j - 1], actions[j - 1]);
    }
  }

  /** The checkpoint that made a submission durable, and that nothing was written since. */
  predicate SubmittedAt(trace: seq<Protocol>, actions: seq<Action>, i: nat, h: HostId, j: nat)
    requires |trace| == |actions| + 1 && i < |trace|
  {
    && j < i
    && actions[j].Checkpoints? && actions[j].h == h && actions[j].checkpoint.RecordSubmission?
    && actions[j].checkpoint.write.outcome.Durable?
    && In(trace[i], h)
    && trace[i].disk == trace[j + 1].disk == Some(Stamped(trace[i].owners[h].memory))
    && DiskHas(trace[i], Submitted)
    && trace[i].disk.value.acp.value.identity.runId == actions[j].checkpoint.runId
    && trace[i].disk.value.acp.value.identity.attempt == actions[j].checkpoint.attempt
  }

  /** Only a durable submission checkpoint lets an owner in; until it moves on nobody else writes. */
  predicate EnteredOrStayed(s: Protocol, a: Action, h: HostId)
    requires Enabled(s, a) && In(Step(s, a), h)
  {
    || (a.Checkpoints? && a.h == h && a.checkpoint.RecordSubmission? && a.checkpoint.write.outcome.Durable?
        && SubmittedRecord(s.owners[h].memory, a.checkpoint.runId, a.checkpoint.attempt)
           == Success(Step(s, a).owners[h].memory))
    || (In(s, h) && s.owners[h] == Step(s, a).owners[h] && s.disk == Step(s, a).disk)
  }

  lemma AcceptedByCheckpoint(s: Protocol, g: HostId, move: CheckpointMove, h: HostId)
    requires Inv(s) && Enabled(s, Checkpoints(g, move))
    requires In(Step(s, Checkpoints(g, move)), h) && PhaseOf(Step(s, Checkpoints(g, move)), h).Accepted?
    ensures EnteredOrStayed(s, Checkpoints(g, move), h)
  {
    match move
    case RecordSubmission(_, _, _) =>
    case _ =>
  }

  lemma NeverByClaim(s: Protocol, g: HostId, move: ClaimMove, h: HostId)
    requires Inv(s) && Enabled(s, Claims(g, move))
    requires In(Step(s, Claims(g, move)), h)
    ensures !PhaseOf(Step(s, Claims(g, move)), h).Accepted?
  {
  }

  lemma AcceptedBefore(s: Protocol, a: Action, h: HostId)
    requires Inv(s) && Enabled(s, a) && In(Step(s, a), h) && PhaseOf(Step(s, a), h).Accepted?
    ensures EnteredOrStayed(s, a, h)
  {
    match a
    case Claims(g, move) => NeverByClaim(s, g, move, h);
    case Checkpoints(g, move) => AcceptedByCheckpoint(s, g, move, h);
    case Turns(_, _) =>
    case Exits(_, _) =>
    case _ =>
  }

  lemma {:induction false} AcceptedWasSubmitted(trace: seq<Protocol>, actions: seq<Action>, i: nat, h: HostId)
    returns (j: nat)
    requires Execution(trace, actions) && i < |trace| && In(trace[i], h) && PhaseOf(trace[i], h).Accepted?
    ensures SubmittedAt(trace, actions, i, h, j)
  {
    EveryStateSafe(trace, actions, i);
    EveryStateSafe(trace, actions, i - 1);
    AcceptedBefore(trace[i - 1], actions[i - 1], h);
    if In(trace[i - 1], h) && trace[i - 1].owners[h] == trace[i].owners[h] && trace[i - 1].disk == trace[i].disk {
      j := AcceptedWasSubmitted(trace, actions, i - 1, h);
    } else {
      j := i - 1;
    }
  }

  /** A prompt reaches the wire only after the record of its own run is durably Submitted, with nothing in flight. */
  lemma SubmissionPrecedesWire(trace: seq<Protocol>, actions: seq<Action>, i: nat, h: HostId)
    requires Execution(trace, actions) && i < |actions| && actions[i] == Turns(h, SendPrompt)
    ensures trace[i].unanswered == {}
    ensures exists j: nat :: SubmittedAt(trace, actions, i, h, j)
  {
    EveryStateSafe(trace, actions, i);
    var j := AcceptedWasSubmitted(trace, actions, i, h);
  }

  // ---------------------------------------------------------------- how a session ends

  /**
   What a later claim must bring to take over a record that was left clean: the recorded binding, or for a parent
   continuation the recorded session, named by its run's parent as well.
   */
  predicate Matching(m: AcpManifest, request: ClaimRequest, io: Reads) {
    var stored, bound := m.acp.value.identity, WithRun(m, request, io);
    && io.recordReadable && io.recordBytes <= MAX_MANIFEST_BYTES
    && bound.Success?
    && (if request.expectedSession.None? then BindingMismatch(stored, request.identity).None?
        else && m.acp.value.sessionId == request.expectedSession
             && ParentBinding(bound.value.parent) == request.expectedSession
             && StaticMismatch(stored, request.identity).None?)
    && (request.identity.generation == 0 || request.identity.generation == stored.generation)
    && (request.reserveLaunch ==> stored.generation < U64_MAX)
  }

  /** An owner that ends cleanup-ready leaves a quiet record and a free lock, and exactly the matching claims get in. */
  lemma CleanupReadyReopens(s: Protocol, h: HostId, request: ClaimRequest, io: Reads, groups: set<nat>)
    requires Inv(s) && In(s, h) && PhaseOf(s, h) == Closing(true)
    ensures var s' := Step(s, Exits(h, Release));
      && s'.lock.None? && s'.owners == map[]
      && s'.disk.Some? && s'.disk.value.acp.Some?
      && Quiescent(s'.disk.value.acp.value.status) && s'.disk.value.acp.value.process == Stopped
      && (Admit(s'.workspace, s'.disk, request, io, groups).Success? <==> Matching(s'.disk.value, request, io))
  {
    var m := Stamped(s.owners[h].memory);
    var bound := WithRun(m, request, io);
    if bound.Success? {
      assert bound.value.acp == m.acp && bound.value.conversationId == m.conversationId;
    }
  }

  predicate Reaches(m: AcpManifest, write: Write) {
    WriteRefusal(m, write).None? && !write.outcome.LostBefore?
  }

  /**
   A terminal checkpoint that fails is reported as leaving the submission fenced. It does only while no
   write carries the finished record to disk: the failed write itself may have, and so may the later
   process checkpoint, which rewrites the whole record from memory.
   */
  lemma FailedFinishFence(s: Protocol, h: HostId, stopReason: string, finish: Write,
                          reaped: bool, killed: bool, failed: bool, stop: Write, fence: Write)
    requires Inv(s) && In(s, h) && PhaseOf(s, h).Answered?
    requires PhaseOf(TurnStep(s, h, RecordFinish(stopReason, finish)), h).Exiting?
    requires reaped && killed ==> PhaseOf(s, h).pid !in s.live
    ensures
      var m := s.owners[h].memory;
      var finished := FinishedRecord(m, stopReason);
      var s1 := TurnStep(s, h, RecordFinish(stopReason, finish));
      var s2 := ExitStep(s1, h, TearDown(reaped, killed, failed));
      var s3 := ExitStep(s2, h, RecordStopped(stop));
      var s4 := ExitStep(s3, h, FenceSubmission(fence));
      Fenced(s4.disk) <==> !(finished.Success?
                             && (Reaches(finished.value, finish)
                                 || (PhaseOf(s2, h).proven && Reaches(StoppedRecord(finished.value).value, stop))))
  {
    assert Fenced(s.disk);
  }

  // ---------------------------------------------------------------- reachable states

  ghost predicate Reachable(s: Protocol) {
    exists trace: seq<Protocol>, actions: seq<Action> :: Execution(trace, actions) && trace[|actions|] == s
  }

  lemma InitiallyReachable(s: Protocol)
    requires Initial(s)
    ensures Reachable(s)
  {
    assert Execution([s], []) && [s][0] == s;
  }

  lemma StepReachable(s: Protocol, a: Action)
    requires Reachable(s) && Enabled(s, a)
    ensures Reachable(Step(s, a))
  {
    var trace: seq<Protocol>, actions: seq<Action> :| Execution(trace, actions) && trace[|actions|] == s;
    ExecutionGrows(trace, actions, a);
    assert (trace + [Step(s, a)])[|actions + [a]|] == Step(s, a);
  }

  lemma {:induction false} ExecutionGrows(trace: seq<Protocol>, actions: seq<Action>, a: Action)
    requires Execution(trace, actions) && Enabled(trace[|actions|], a)
    ensures Execution(trace + [Step(trace[|actions|], a)], actions + [a])
  {
    var trace', actions' := trace + [Step(trace[|actions|], a)], actions + [a];
    forall i | 0 <= i < |actions'|
      ensures Enabled(trace'[i], actions'[i]) && trace'[i + 1] == Step(trace'[i], actions'[i])
    {
      if i < |actions| {
        assert trace'[i] == trace[i] && trace'[i + 1] == trace[i + 1] && actions'[i] == actions[i];
      }
    }
  }
}
