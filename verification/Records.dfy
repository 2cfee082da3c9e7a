/** The conversation manifest of one workspace: the record that outlives every host process. */
module Records {
  import opened Prelude

  const MAX_MANIFEST_BYTES: nat := 2 * 1024 * 1024
  const MAX_ID_BYTES: nat := 4096
  const U64_MAX: nat := 0xFFFF_FFFF_FFFF_FFFF
  const I32_MAX: nat := 0x7FFF_FFFF

  datatype Error =
    | Owned
    | Uncertain
    | ProcessUncertain
    | NativeManifest
    | Binding(what: string)
    | InvalidMetadata
    | Io

  datatype Status = Ready | Submitted | Finished | Uncertain

  datatype Process = Stopped | LaunchPending | Running(pid: nat)

  datatype Recovery = Fresh | RestoredResume | RestoredLoad | LiveAttach | TranscriptOnly

  datatype Identity = Identity(
    profileId: string,
    profileFingerprint: string,
    credentialScope: string,
    workspacePath: string,
    repository: Option<string>,
    checkoutGeneration: Option<string>,
    runId: string,
    attempt: nat,
    generation: nat)

  /** `negotiated` stands for the initialization metadata and the enabled operations. */
  datatype SessionState = SessionState(
    harness: string,
    identity: Identity,
    sessionId: Option<string>,
    negotiated: string,
    modelSelection: bool,
    status: Status,
    stopReason: Option<string>,
    promptSeeded: Option<bool>,
    recovery: Recovery,
    ownerId: string,
    process: Process)

  datatype ParentEnvelope = ParentEnvelope(
    harness: string,
    workspacePath: string,
    runId: string,
    attempt: nat,
    binding: Option<string>)

  datatype RuntimeEnvelope = RuntimeEnvelope(
    harness: string,
    checkoutPath: string,
    repository: string,
    checkoutGeneration: string,
    runId: string,
    attempt: nat,
    binding: Option<string>,
    session: Option<Identity>)

  /** `acp` is absent on a manifest that a native harness wrote. */
  datatype Manifest = Manifest(
    issueId: string,
    identifier: string,
    conversationId: string,
    freshConversation: bool,
    resetReason: Option<string>,
    parent: Option<ParentEnvelope>,
    runtime: Option<RuntimeEnvelope>,
    acp: Option<SessionState>)

  /** A manifest that carries an ACP session, as every manifest in an owner's memory does. */
  type AcpManifest = m: Manifest |
      m.acp.Some? witness Manifest("", "", "", true, None, None, None,
                                   Some(SessionState("acp", Identity("", "", "", "", None, None, "", 0, 0), None, "",
                                                     false, Ready, None, None, Fresh, "", Stopped)))

  datatype Workspace = Workspace(
    issueId: string,
    identifier: string,
    key: string,
    path: string,
    checkoutGeneration: Option<string>)

  datatype IssueManifest = IssueManifest(
    issueId: string,
    identifier: string,
    key: string,
    path: string,
    repository: Option<string>)

  datatype RunManifest = RunManifest(
    runId: string,
    attempt: nat,
    parent: Option<ParentEnvelope>,
    runtime: Option<RuntimeEnvelope>)

  /** Reading a file other than the conversation record. */
  datatype Load<+T> = Missing | Found(record: T) | Unreadable

  predicate Quiescent(status: Status) { status.Ready? || status.Finished? }

  predicate IsControl(c: char) { (c as int) < 0x20 || 0x7F <= (c as int) <= 0x9F }

  predicate ValidId(id: string) {
    id != "" && Utf8Length(id) <= MAX_ID_BYTES && forall i :: 0 <= i < |id| ==> !IsControl(id[i])
  }

  predicate ValidIdentity(identity: Identity) {
    && ValidId(identity.profileId)
    && ValidId(identity.profileFingerprint)
    && ValidId(identity.credentialScope)
    && ValidId(identity.runId)
    && (identity.checkoutGeneration.Some? ==> ValidId(identity.checkoutGeneration.value))
    && identity.workspacePath != "" && identity.workspacePath[0] == '/'
  }

  /** The part of a binding that no successor may change, checked field by field in order. */
  function StaticMismatch(stored: Identity, requested: Identity): Option<Error> {
    if stored.profileId != requested.profileId then Some(Binding("profile"))
    else if stored.workspacePath != requested.workspacePath then Some(Binding("workspace"))
    else if stored.repository != requested.repository then Some(Binding("repository"))
    else if stored.checkoutGeneration != requested.checkoutGeneration then Some(Binding("checkout generation"))
    else None
  }

  function BindingMismatch(stored: Identity, requested: Identity): Option<Error> {
    var fixed := StaticMismatch(stored, requested);
    if fixed.Some? then fixed
    else if stored.profileFingerprint != requested.profileFingerprint then Some(Binding("profile fingerprint"))
    else if stored.credentialScope != requested.credentialScope then Some(Binding("credential scope"))
    else None
  }

  /** Why a recorded process still bars a new owner; `groups` are the process groups that exist. */
  function PriorProcess(process: Process, groups: set<nat>): Option<Error> {
    match process
    case Stopped => None
    case LaunchPending => Some(ProcessUncertain)
    case Running(pid) =>
      if pid == 0 || pid > I32_MAX then Some(InvalidMetadata)
      else if pid in groups then Some(Owned)
      else None
  }

  /** What reaches the file: envelopes are rebound to the record's own session and run. */
  function Stamped(m: AcpManifest): AcpManifest {
    var s := m.acp.value;
    m.(runtime := if m.runtime.None? then None else Some(m.runtime.value.(
                    session := Some(s.identity), binding := s.sessionId,
                    runId := s.identity.runId, attempt := s.identity.attempt)),
       parent := if m.parent.None? then None else Some(m.parent.value.(
                    binding := s.sessionId, runId := s.identity.runId, attempt := s.identity.attempt)))
  }

  /**
   Writing changes nothing of a record but the envelopes, and of those only what binds them to its session and run.
   */
  lemma StampedRebinds(m: AcpManifest)
    ensures var file, s := Stamped(m), m.acp.value;
      && file.(runtime := m.runtime, parent := m.parent) == m
      && (file.runtime.Some? <==> m.runtime.Some?) && (file.parent.Some? <==> m.parent.Some?)
      && (m.runtime.Some? ==>
            var was, now := m.runtime.value, file.runtime.value;
            && now.session == Some(s.identity) && now.binding == s.sessionId
            && now.runId == s.identity.runId && now.attempt == s.identity.attempt
            && now.(session := was.session, binding := was.binding, runId := was.runId, attempt := was.attempt) == was)
      && (m.parent.Some? ==>
            var was, now := m.parent.value, file.parent.value;
            && now.binding == s.sessionId && now.runId == s.identity.runId && now.attempt == s.identity.attempt
            && now.(binding := was.binding, runId := was.runId, attempt := was.attempt) == was)
  {
  }
}
