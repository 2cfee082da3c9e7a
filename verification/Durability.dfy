/**
 One durable conversation record and its owner lock.

 Every operation is given twice: as a function on values, which the ownership protocol reasons with, and
 as a method of `Durability`, which changes the in-memory record first and then writes it.
 */
module DurableRecord {
  import opened Prelude
  import opened Records

  /**
   A write is one atomic step. It can succeed, or report failure with the file old or already new. The
   encoded size is what the serializer makes of the manifest.
   */
  datatype WriteOutcome = Durable | LostBefore | LostAfter
  datatype Write = Write(encodedBytes: nat, outcome: WriteOutcome)

  /** `expectedSession` is set when a parent continuation rotates its grants over a bound session. */
  datatype ClaimRequest = ClaimRequest(
    identity: Identity,
    reserveLaunch: bool,
    expectedSession: Option<string>,
    ownerId: string)

  /** What the other files of the workspace look like while a claim runs. */
  datatype Reads = Reads(
    issue: Load<IssueManifest>,
    run: Load<RunManifest>,
    lockFileUsable: bool,
    recordReadable: bool,
    recordBytes: nat)

  /** Memory and disk after an operation, and what the caller is told. */
  datatype Effect = Effect(memory: AcpManifest, disk: Option<Manifest>, result: Result<Unit, Error>)

  datatype ClaimEffect = ClaimEffect(disk: Option<Manifest>, locked: bool, result: Result<AcpManifest, Error>)

  // ---------------------------------------------------------------- persist

  function WriteRefusal(m: AcpManifest, write: Write): Option<Error>
  {
    var s := m.acp.value;
    if !ValidIdentity(s.identity) then Some(InvalidMetadata)
    else if (s.sessionId.Some? && !ValidId(s.sessionId.value)) || write.encodedBytes > MAX_MANIFEST_BYTES
    then Some(InvalidMetadata)
    else None
  }

  function DiskAfter(disk: Option<Manifest>, m: AcpManifest, write: Write): Option<Manifest>
  {
    if WriteRefusal(m, write).Some? || write.outcome.LostBefore? then disk else Some(Stamped(m))
  }

  function WriteResult(m: AcpManifest, write: Write): Result<Unit, Error>
  {
    var refusal := WriteRefusal(m, write);
    if refusal.Some? then Failure(refusal.value)
    else if write.outcome.Durable? then Success(Unit.Unit)
    else Failure(Io)
  }

  /** A write that fits and gets there. */
  predicate Reliable(write: Write) { write.outcome.Durable? && write.encodedBytes <= MAX_MANIFEST_BYTES }

  /** An update that is refused touches nothing; an accepted one stays in memory even when its write fails. */
  function Commit(update: Result<AcpManifest, Error>, memory: AcpManifest, disk: Option<Manifest>, write: Write): Effect
  {
    match update
    case Failure(e) => Effect(memory, disk, Failure(e))
    case Success(m) => Effect(m, DiskAfter(disk, m, write), WriteResult(m, write))
  }

  // ---------------------------------------------------------------- updates of the record in memory

  function WithState(m: Manifest, s: SessionState): AcpManifest { m.(acp := Some(s)) }

  function LaunchedRecord(m: AcpManifest, pid: nat): (r: Result<AcpManifest, Error>)
  {
    if m.acp.value.process != LaunchPending || pid == 0 then Failure(InvalidMetadata)
    else Success(WithState(m, m.acp.value.(process := Running(pid))))
  }

  function StoppedRecord(m: AcpManifest): (r: Result<AcpManifest, Error>)
  {
    Success(WithState(m, m.acp.value.(process := Stopped)))
  }

  datatype Session = Session(id: string, negotiated: string, modelSelection: bool, recovery: Recovery,
                             resetReason: Option<string>)

  function ReadyRecord(m: AcpManifest, session: Session): (r: Result<AcpManifest, Error>)
  {
    var s := m.acp.value;
    if !Quiescent(s.status) then Failure(Error.Uncertain)
    else if !ValidId(session.id) then Failure(InvalidMetadata)
    else Success(m.(conversationId := session.id,
                    freshConversation := session.recovery.Fresh?,
                    resetReason := session.resetReason,
                    acp := Some(s.(sessionId := Some(session.id),
                                   negotiated := session.negotiated,
                                   modelSelection := session.modelSelection,
                                   recovery := session.recovery,
                                   promptSeeded := if session.recovery.Fresh? then Some(false) else s.promptSeeded,
                                   status := Ready,
                                   stopReason := None))))
  }

  /** `None` when the flag already has the wanted value and nothing is written. */
  function ModelSelectionRecord(m: AcpManifest, selectable: bool): (r: Result<Option<AcpManifest>, Error>)
  {
    var s := m.acp.value;
    if !Quiescent(s.status) then Failure(Error.Uncertain)
    else if s.modelSelection == selectable then Success(None)
    else Success(Some(WithState(m, s.(modelSelection := selectable))))
  }

  function SubmittedRecord(m: AcpManifest, runId: string, attempt: nat): (r: Result<AcpManifest, Error>)
  {
    var s := m.acp.value;
    if !Quiescent(s.status) then Failure(Error.Uncertain)
    else if !ValidId(runId) || s.sessionId.None? then Failure(InvalidMetadata)
    else Success(WithState(m, s.(identity := s.identity.(runId := runId, attempt := attempt),
                                 status := Submitted,
                                 stopReason := None)))
  }

  const CANCELLED_BEFORE_PROMPT := "cancelled_before_prompt"

  function FinishedRecord(m: AcpManifest, stopReason: string): (r: Result<AcpManifest, Error>)
  {
    var s := m.acp.value;
    if s.status != Submitted || !ValidId(stopReason) then Failure(InvalidMetadata)
    else Success(m.(freshConversation := false,
                    acp := Some(s.(status := Finished,
                                   promptSeeded := if stopReason != CANCELLED_BEFORE_PROMPT then Some(true)
                                                   else s.promptSeeded,
                                   stopReason := Some(stopReason)))))
  }

  /** `now` is `was` after a prompt that ended with this reason: seeded exactly by a prompt that was sent, or before. */
  predicate FinishedWith(was: AcpManifest, now: AcpManifest, stopReason: string) {
    var s, t := was.acp.value, now.acp.value;
    && t.status == Finished && t.stopReason == Some(stopReason) && !now.freshConversation
    && (t.promptSeeded == Some(true) <==> stopReason != CANCELLED_BEFORE_PROMPT || s.promptSeeded == Some(true))
    && (stopReason == CANCELLED_BEFORE_PROMPT ==> t.promptSeeded == s.promptSeeded)
    && t.(status := s.status, stopReason := s.stopReason, promptSeeded := s.promptSeeded) == s
    && now.(freshConversation := was.freshConversation, acp := was.acp) == was
  }

  lemma FinishedFields(m: AcpManifest, stopReason: string)
    ensures FinishedRecord(m, stopReason).Success? <==> m.acp.value.status == Submitted && ValidId(stopReason)
    ensures FinishedRecord(m, stopReason).Success? ==>
              FinishedWith(m, FinishedRecord(m, stopReason).value, stopReason)
  {
  }

  function UncertainRecord(m: AcpManifest): (r: Result<AcpManifest, Error>)
  {
    Success(WithState(m, m.acp.value.(status := Status.Uncertain)))
  }

  function CommitSelection(m: AcpManifest, selectable: bool, disk: Option<Manifest>, write: Write): Effect
  {
    match ModelSelectionRecord(m, selectable)
    case Failure(e) => Effect(m, disk, Failure(e))
    case Success(None) => Effect(m, disk, Success(Unit.Unit))
    case Success(Some(changed)) => Commit(Success(changed), m, disk, write)
  }

  // ---------------------------------------------------------------- claim

  function PreLockRefusal(ws: Workspace, request: ClaimRequest, io: Reads): Option<Error> {
    if !ValidIdentity(request.identity) then Some(InvalidMetadata)
    else match io.issue
      case Unreadable => Some(Io)
      case Missing => Some(Binding("issue manifest missing"))
      case Found(issue) =>
        if issue.issueId != ws.issueId || issue.identifier != ws.identifier || issue.key != ws.key
           || issue.path != ws.path || request.identity.workspacePath != ws.path
        then Some(Binding("workspace"))
        else if issue.repository != request.identity.repository then Some(Binding("repository"))
        else if ws.checkoutGeneration != request.identity.checkoutGeneration
        then Some(Binding("checkout generation"))
        else if !io.lockFileUsable then Some(Io)
        else None
  }

  function FreshManifest(ws: Workspace, identity: Identity): AcpManifest {
    Manifest(ws.issueId, ws.identifier, "", true, None, None, None,
             Some(SessionState("acp", identity.(generation := 0), None, "null", false, Ready, None,
                               Some(false), Fresh, "", Stopped)))
  }

  function LoadedRecord(ws: Workspace, disk: Option<Manifest>, request: ClaimRequest, io: Reads)
    : Result<Manifest, Error>
  {
    if disk.Some? && io.recordBytes > MAX_MANIFEST_BYTES then Failure(InvalidMetadata)
    else if !io.recordReadable then Failure(Io)
    else
      var m := if disk.Some? then disk.value else FreshManifest(ws, request.identity);
      if m.issueId != ws.issueId || m.identifier != ws.identifier then Failure(Binding("issue"))
      else Success(m)
  }

  function ParentBinding(envelope: Option<ParentEnvelope>): Option<string> {
    if envelope.Some? then envelope.value.binding else None
  }

  /** The run record must name the claimed run; its envelopes replace the recorded ones. */
  function WithRun(m: Manifest, request: ClaimRequest, io: Reads): Result<Manifest, Error> {
    var identity := request.identity;
    var expected := request.expectedSession;
    var run := if request.reserveLaunch then io.run else Missing;
    match run
    case Unreadable => Failure(Io)
    case Missing => if expected.Some? then Failure(Binding("parent run")) else Success(m)
    case Found(run) =>
      if run.runId != identity.runId || run.attempt != identity.attempt then Failure(Binding("run identity"))
      else if expected.Some? && ParentBinding(run.parent) != expected then Failure(Binding("parent conversation"))
      else if run.parent.Some? && (run.parent.value.harness != "acp"
                                   || run.parent.value.workspacePath != identity.workspacePath)
      then Failure(Binding("parent runtime envelope"))
      else if run.runtime.Some? && (run.runtime.value.harness != "acp"
                                    || run.runtime.value.checkoutPath != identity.workspacePath
                                    || Some(run.runtime.value.repository) != identity.repository
                                    || Some(run.runtime.value.checkoutGeneration) != identity.checkoutGeneration)
      then Failure(Binding("runtime envelope"))
      else Success(m.(parent := if run.parent.Some? then run.parent else m.parent,
                      runtime := if run.runtime.Some? then run.runtime else m.runtime))
  }

  /** Why the loaded record itself refuses a new owner. */
  function RecordRefusal(m: Manifest, request: ClaimRequest, groups: set<nat>): Option<Error> {
    if m.acp.None? then Some(NativeManifest)
    else
      var s := m.acp.value;
      var expected := request.expectedSession;
      var binding :=
        if expected.None? then BindingMismatch(s.identity, request.identity)
        else if s.sessionId != expected || m.conversationId != expected.value || ParentBinding(m.parent) != expected
        then Some(Binding("parent conversation"))
        else StaticMismatch(s.identity, request.identity);
      if binding.Some? then binding
      else if s.harness != "acp" || m.conversationId != (if s.sessionId.Some? then s.sessionId.value else "")
      then Some(Binding("harness/session"))
      else if !Quiescent(s.status) then Some(Error.Uncertain)
      else if PriorProcess(s.process, groups).Some? then PriorProcess(s.process, groups)
      else if request.identity.generation != 0 && request.identity.generation != s.identity.generation
      then Some(Binding("connection generation"))
      else None
  }

  function SeededDefault(s: SessionState): bool {
    if s.promptSeeded.Some? then s.promptSeeded.value
    else !s.status.Ready? && s.stopReason != Some(CANCELLED_BEFORE_PROMPT)
  }

  /** The record with its successor generation reserved, or quiet again for a retirement claim. */
  function ReservedRecord(m: AcpManifest, request: ClaimRequest): (r: Result<AcpManifest, Error>)
  {
    var s := m.acp.value.(promptSeeded := Some(SeededDefault(m.acp.value)));
    if !request.reserveLaunch then Success(WithState(m, s.(process := Stopped)))
    else if s.identity.generation + 1 > U64_MAX then Failure(Binding("connection generation exhausted"))
    else
      var rotated := if request.expectedSession.None? then s.identity
                     else s.identity.(profileFingerprint := request.identity.profileFingerprint,
                                      credentialScope := request.identity.credentialScope);
      var newRun := s.identity.runId != request.identity.runId || s.identity.attempt != request.identity.attempt;
      Success(WithState(m, s.(
        identity := rotated.(generation := s.identity.generation + 1,
                             runId := request.identity.runId,
                             attempt := request.identity.attempt),
        status := if newRun then Ready else s.status,
        stopReason := if newRun then None else s.stopReason,
        ownerId := request.ownerId,
        process := LaunchPending)))
  }

  /** Everything a claim decides while it holds the lock: the record it will write, or the first refusal. */
  function Admit(ws: Workspace, disk: Option<Manifest>, request: ClaimRequest, io: Reads, groups: set<nat>)
    : (r: Result<AcpManifest, Error>)
  {
    var loaded := LoadedRecord(ws, disk, request, io);
    if loaded.Failure? then loaded
    else
      var bound := WithRun(loaded.value, request, io);
      if bound.Failure? then bound
      else
        var refusal := RecordRefusal(bound.value, request, groups);
        if refusal.Some? then Failure(refusal.value) else ReservedRecord(bound.value, request)
  }

  function Claimed(ws: Workspace, disk: Option<Manifest>, locked: bool, request: ClaimRequest, io: Reads,
                   groups: set<nat>, write: Write): ClaimEffect
  {
    var refusal := PreLockRefusal(ws, request, io);
    if refusal.Some? then ClaimEffect(disk, locked, Failure(refusal.value))
    else if locked then ClaimEffect(disk, true, Failure(Owned))
    else
      var admitted := Admit(ws, disk, request, io, groups);
      if admitted.Failure? then ClaimEffect(disk, false, admitted)
      else
        var disk' := DiskAfter(disk, admitted.value, write);
        match WriteResult(admitted.value, write)
        case Failure(e) => ClaimEffect(disk', false, Failure(e))
        case Success(_) => ClaimEffect(disk', true, admitted)
  }

  // ---------------------------------------------------------------- the object

  /** The workspace's files as one process sees them: the record and the kernel's lock on the lock file. */
  class OwnerFiles {
    var record: Option<Manifest>
    var locked: bool
  }

  class Durability {
    const files: OwnerFiles
    var manifest: AcpManifest

    constructor (files: OwnerFiles, manifest: AcpManifest)
      ensures this.files == files && this.manifest == manifest
    {
      this.files := files;
      this.manifest := manifest;
    }

    static method Claim(files: OwnerFiles, ws: Workspace, request: ClaimRequest, io: Reads, groups: set<nat>,
                        write: Write) returns (r: Result<Durability, Error>)
      modifies files
      ensures old(files.locked) ==> r.Failure? && files.record == old(files.record) && files.locked
      ensures r.Success? ==> files.locked && r.value.files == files && files.record == Some(Stamped(r.value.manifest))
      ensures r.Failure? ==> files.locked == old(files.locked)
      ensures r.Failure? && files.record != old(files.record) ==> r.error == Io && write.outcome.LostAfter?
      ensures var effect := old(Claimed(ws, files.record, files.locked, request, io, groups, write));
        && files.record == effect.disk
        && files.locked == effect.locked
        && (effect.result.Failure? ==> r == Failure(effect.result.error))
        && (effect.result.Success? ==>
              r.Success? && fresh(r.value) && r.value.files == files
              && r.value.manifest == effect.result.value)
    {
      var refusal := PreLockRefusal(ws, request, io);
      if refusal.Some? {
        return Failure(refusal.value);
      }
      if files.locked {
        return Failure(Owned);
      }
      files.locked := true;
      var loaded := LoadedRecord(ws, files.record, request, io);
      if loaded.Failure? {
        files.locked := false;
        return Failure(loaded.error);
      }
      var bound := WithRun(loaded.value, request, io);
      if bound.Failure? {
        files.locked := false;
        return Failure(bound.error);
      }
      refusal := RecordRefusal(bound.value, request, groups);
      if refusal.Some? {
        files.locked := false;
        return Failure(refusal.value);
      }
      var reserved := ReservedRecord(bound.value, request);
      if reserved.Failure? {
        files.locked := false;
        return Failure(reserved.error);
      }
      var durable := new Durability(files, reserved.value);
      var written := durable.Persist(write);
      if written.Failure? {
        durable.Release();
        return Failure(written.error);
      }
      return Success(durable);
    }

    /** Dropping the owner unlocks explicitly. */
    method Release()
      modifies files`locked
      ensures !files.locked
    {
      files.locked := false;
    }

    method Persist(write: Write) returns (r: Result<Unit, Error>)
      modifies files`record
      ensures files.record == DiskAfter(old(files.record), manifest, write)
      ensures r == WriteResult(manifest, write)
      ensures var s := manifest.acp.value;
        var fits := ValidIdentity(s.identity) && (s.sessionId.Some? ==> ValidId(s.sessionId.value))
                    && write.encodedBytes <= 2 * 1024 * 1024;
        && files.record == (if fits && !write.outcome.LostBefore? then Some(Stamped(manifest)) else old(files.record))
        && (r.Success? <==> fits && write.outcome.Durable?)
        && (r.Failure? ==> r.error == if fits then Io else InvalidMetadata)
    {
      var s := manifest.acp.value;
      if !ValidIdentity(s.identity) {
        return Failure(InvalidMetadata);
      }
      if (s.sessionId.Some? && !ValidId(s.sessionId.value)) || write.encodedBytes > MAX_MANIFEST_BYTES {
        return Failure(InvalidMetadata);
      }
      match write.outcome
      case LostBefore =>
        r := Failure(Io);
      case LostAfter =>
        files.record := Some(Stamped(manifest));
        r := Failure(Io);
      case Durable =>
        files.record := Some(Stamped(manifest));
        r := Success(Unit.Unit);
    }

    method Launched(pid: nat, write: Write) returns (r: Result<Unit, Error>)
      modifies this, files`record
      ensures Effect(manifest, files.record, r)
              == old(Commit(LaunchedRecord(manifest, pid), manifest, files.record, write))
      ensures var was, now := old(manifest.acp.value), manifest.acp.value;
        && manifest == old(manifest).(acp := Some(was.(process := now.process)))
        && (if was.process == LaunchPending && pid != 0 then now.process == Running(pid)
            else now == was && files.record == old(files.record) && r == Failure(InvalidMetadata))
    {
      if manifest.acp.value.process != LaunchPending || pid == 0 {
        return Failure(InvalidMetadata);
      }
      manifest := manifest.(acp := Some(manifest.acp.value.(process := Running(pid))));
      r := Persist(write);
    }

    method MarkStopped(write: Write) returns (r: Result<Unit, Error>)
      modifies this, files`record
      ensures Effect(manifest, files.record, r)
              == old(Commit(StoppedRecord(manifest), manifest, files.record, write))
      ensures manifest == old(manifest.(acp := Some(manifest.acp.value.(process := Stopped))))
    {
      manifest := manifest.(acp := Some(manifest.acp.value.(process := Stopped)));
      r := Persist(write);
    }

    method MarkReady(session: Session, write: Write) returns (r: Result<Unit, Error>)
      modifies this, files`record
      ensures Effect(manifest, files.record, r)
              == old(Commit(ReadyRecord(manifest, session), manifest, files.record, write))
      ensures var was, now := old(manifest.acp.value), manifest.acp.value;
        if (was.status == Ready || was.status == Finished) && ValidId(session.id) then
          && now.sessionId == Some(session.id) && manifest.conversationId == session.id
          && now.status == Ready && now.stopReason == None
          && now.negotiated == session.negotiated && now.modelSelection == session.modelSelection
          && now.recovery == session.recovery && manifest.resetReason == session.resetReason
          && manifest.freshConversation == (session.recovery == Fresh)
          && now.promptSeeded == (if session.recovery == Fresh then Some(false) else was.promptSeeded)
          && now.identity == was.identity && now.process == was.process && now.harness == was.harness
          && now.ownerId == was.ownerId && manifest.parent == old(manifest).parent
          && manifest.runtime == old(manifest).runtime && manifest.issueId == old(manifest).issueId
          && manifest.identifier == old(manifest).identifier
        else manifest == old(manifest) && files.record == old(files.record) && r.Failure?
    {
      if !Quiescent(manifest.acp.value.status) {
        return Failure(Error.Uncertain);
      }
      if !ValidId(session.id) {
        return Failure(InvalidMetadata);
      }
      manifest := manifest.(conversationId := session.id, freshConversation := session.recovery.Fresh?,
                            resetReason := session.resetReason);
      var state := manifest.acp.value;
      state := state.(sessionId := Some(session.id), negotiated := session.negotiated,
                      modelSelection := session.modelSelection, recovery := session.recovery);
      if session.recovery.Fresh? {
        state := state.(promptSeeded := Some(false));
      }
      manifest := manifest.(acp := Some(state.(status := Ready, stopReason := None)));
      r := Persist(write);
    }

    method SetModelSelection(selectable: bool, write: Write) returns (r: Result<Unit, Error>)
      modifies this, files`record
      ensures Effect(manifest, files.record, r)
              == old(CommitSelection(manifest, selectable, files.record, write))
      ensures var was := old(manifest.acp.value);
        if was.status == Ready || was.status == Finished then
          && manifest == old(manifest).(acp := Some(was.(modelSelection := selectable)))
          && (was.modelSelection == selectable ==> r.Success? && files.record == old(files.record))
        else manifest == old(manifest) && files.record == old(files.record) && r == Failure(Error.Uncertain)
    {
      if !Quiescent(manifest.acp.value.status) {
        return Failure(Error.Uncertain);
      }
      if manifest.acp.value.modelSelection == selectable {
        return Success(Unit.Unit);
      }
      manifest := manifest.(acp := Some(manifest.acp.value.(modelSelection := selectable)));
      r := Persist(write);
    }

    method MarkSubmitted(runId: string, attempt: nat, write: Write) returns (r: Result<Unit, Error>)
      modifies this, files`record
      ensures Effect(manifest, files.record, r)
              == old(Commit(SubmittedRecord(manifest, runId, attempt), manifest, files.record, write))
      ensures var was, now := old(manifest.acp.value), manifest.acp.value;
        if (was.status == Ready || was.status == Finished) && ValidId(runId) && was.sessionId.Some? then
          && now.status == Submitted && now.stopReason == None
          && now.identity == was.identity.(runId := runId, attempt := attempt)
          && manifest == old(manifest).(acp := Some(was.(status := now.status, stopReason := now.stopReason,
                                                         identity := now.identity)))
        else manifest == old(manifest) && files.record == old(files.record) && r.Failure?
    {
      var state := manifest.acp.value;
      if !Quiescent(state.status) {
        return Failure(Error.Uncertain);
      }
      if !ValidId(runId) || state.sessionId.None? {
        return Failure(InvalidMetadata);
      }
      state := state.(identity := state.identity.(runId := runId, attempt := attempt));
      manifest := manifest.(acp := Some(state.(status := Submitted, stopReason := None)));
      r := Persist(write);
    }

    method MarkFinished(stopReason: string, write: Write) returns (r: Result<Unit, Error>)
      modifies this, files`record
      ensures Effect(manifest, files.record, r)
              == old(Commit(FinishedRecord(manifest, stopReason), manifest, files.record, write))
      ensures if old(manifest).acp.value.status == Submitted && ValidId(stopReason)
              then FinishedWith(old(manifest), manifest, stopReason)
              else manifest == old(manifest) && files.record == old(files.record) && r == Failure(InvalidMetadata)
    {
      FinishedFields(manifest, stopReason);
      var state := manifest.acp.value;
      if state.status != Submitted || !ValidId(stopReason) {
        return Failure(InvalidMetadata);
      }
      manifest := manifest.(freshConversation := false);
      state := state.(status := Finished);
      if stopReason != CANCELLED_BEFORE_PROMPT {
        state := state.(promptSeeded := Some(true));
      }
      manifest := manifest.(acp := Some(state.(stopReason := Some(stopReason))));
      r := Persist(write);
    }

    method MarkUncertain(write: Write) returns (r: Result<Unit, Error>)
      modifies this, files`record
      ensures Effect(manifest, files.record, r)
              == old(Commit(UncertainRecord(manifest), manifest, files.record, write))
      ensures manifest == old(manifest.(acp := Some(manifest.acp.value.(status := Status.Uncertain))))
    {
      manifest := manifest.(acp := Some(manifest.acp.value.(status := Status.Uncertain)));
      r := Persist(write);
    }
  }
}
