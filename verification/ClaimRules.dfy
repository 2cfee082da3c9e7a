/**
 What a claim asks for and what it leaves, told on the records' own fields, and what it is in the ownership protocol.

 Nothing here is computed: each statement names the fields that a claim compares, and those that it writes.
 */
module ClaimRules {
  import opened Prelude
  import opened Records
  import opened DurableRecord
  import opened OwnerProtocol

  // ---------------------------------------------------------------- what a claim asks for

  /** The workspace's issue manifest and the claim name the same workspace, repository and checkout. */
  predicate SameWorkspace(ws: Workspace, identity: Identity, issue: IssueManifest) {
    && issue.issueId == ws.issueId && issue.identifier == ws.identifier && issue.key == ws.key
    && issue.path == ws.path == identity.workspacePath
    && issue.repository == identity.repository && ws.checkoutGeneration == identity.checkoutGeneration
  }

  lemma LockExactly(ws: Workspace, request: ClaimRequest, io: Reads)
    ensures PreLockRefusal(ws, request, io).None? <==>
              && ValidIdentity(request.identity)
              && io.issue.Found? && SameWorkspace(ws, request.identity, io.issue.record) && io.lockFileUsable
  {
  }

  /** The recorded run is the claimed one, and its envelopes are of this harness, workspace and checkout. */
  predicate RunFits(identity: Identity, expected: Option<string>, run: RunManifest) {
    && run.runId == identity.runId && run.attempt == identity.attempt
    && (expected.Some? ==> run.parent.Some? && run.parent.value.binding == expected)
    && (run.parent.Some? ==>
          run.parent.value.harness == "acp" && run.parent.value.workspacePath == identity.workspacePath)
    && (run.runtime.Some? ==>
          && run.runtime.value.harness == "acp" && run.runtime.value.checkoutPath == identity.workspacePath
          && Some(run.runtime.value.repository) == identity.repository
          && Some(run.runtime.value.checkoutGeneration) == identity.checkoutGeneration)
  }

  /** Only a launch looks at the run record. A parent continuation needs one. */
  predicate RunAllows(request: ClaimRequest, io: Reads) {
    if !request.reserveLaunch || io.run.Missing? then request.expectedSession.None?
    else io.run.Found? && RunFits(request.identity, request.expectedSession, io.run.record)
  }

  /** A process that cannot be there any more: stopped, or a possible group of its own that does not exist. */
  predicate ProcessGone(process: Process, groups: set<Pid>) {
    process.Stopped? || (process.Running? && 1 <= process.pid <= 0x7FFF_FFFF && process.pid !in groups)
  }

  /** Rotating the grants of a parent's bound session is the one way past another fingerprint or scope. */
  predicate SameBinding(stored: Identity, asked: Identity, rotates: bool) {
    && stored.profileId == asked.profileId && stored.workspacePath == asked.workspacePath
    && stored.repository == asked.repository && stored.checkoutGeneration == asked.checkoutGeneration
    && (rotates ||
        (stored.profileFingerprint == asked.profileFingerprint && stored.credentialScope == asked.credentialScope))
  }

  predicate SessionAllows(s: SessionState, conversationId: string, request: ClaimRequest, groups: set<Pid>) {
    && SameBinding(s.identity, request.identity, request.expectedSession.Some?)
    && (request.expectedSession.Some? ==> s.sessionId == request.expectedSession)
    && s.harness == "acp" && conversationId == (if s.sessionId.Some? then s.sessionId.value else "")
    && (s.status == Ready || s.status == Finished)
    && ProcessGone(s.process, groups)
    && (request.identity.generation == 0 || request.identity.generation == s.identity.generation)
    && (request.reserveLaunch ==> s.identity.generation < 0xFFFF_FFFF_FFFF_FFFF)
  }

  predicate RecordAllows(ws: Workspace, m: Manifest, request: ClaimRequest, groups: set<Pid>) {
    && m.issueId == ws.issueId && m.identifier == ws.identifier && m.acp.Some?
    && SessionAllows(m.acp.value, m.conversationId, request, groups)
  }

  /** Without a record there is nothing that a continuation or a known generation could go on from. */
  predicate MayTake(ws: Workspace, disk: Option<Manifest>, request: ClaimRequest, io: Reads, groups: set<Pid>) {
    && io.recordReadable && RunAllows(request, io)
    && (disk.Some? ==> io.recordBytes <= 2 * 1024 * 1024 && RecordAllows(ws, disk.value, request, groups))
    && (disk.None? ==> request.expectedSession.None? && request.identity.generation == 0)
  }

  lemma RunExactly(m: Manifest, request: ClaimRequest, io: Reads)
    ensures var bound := WithRun(m, request, io);
      && (bound.Success? <==> RunAllows(request, io))
      && (bound.Success? ==>
            && bound.value.acp == m.acp && bound.value.conversationId == m.conversationId
            && bound.value.issueId == m.issueId && bound.value.identifier == m.identifier
            && (request.expectedSession.Some? ==> ParentBinding(bound.value.parent) == request.expectedSession))
  {
  }

  lemma BindingExactly(stored: Identity, asked: Identity)
    ensures StaticMismatch(stored, asked).None? <==> SameBinding(stored, asked, true)
    ensures BindingMismatch(stored, asked).None? <==> SameBinding(stored, asked, false)
  {
  }

  lemma ProcessExactly(process: Process, groups: set<Pid>)
    ensures PriorProcess(process, groups).None? <==> ProcessGone(process, groups)
  {
  }

  lemma SessionExactly(m: Manifest, request: ClaimRequest, groups: set<Pid>)
    requires request.expectedSession.Some? ==> ParentBinding(m.parent) == request.expectedSession
    requires m.acp.Some? && (request.reserveLaunch ==> m.acp.value.identity.generation < U64_MAX)
    ensures RecordRefusal(m, request, groups).None? <==>
            SessionAllows(m.acp.value, m.conversationId, request, groups)
  {
    BindingExactly(m.acp.value.identity, request.identity);
    ProcessExactly(m.acp.value.process, groups);
  }

  /** A claim that holds the lock is admitted exactly when the record, the run and the processes allow it. */
  lemma AdmitsExactly(ws: Workspace, disk: Option<Manifest>, request: ClaimRequest, io: Reads, groups: set<Pid>)
    ensures Admit(ws, disk, request, io, groups).Success? <==> MayTake(ws, disk, request, io, groups)
  {
    var loaded := LoadedRecord(ws, disk, request, io);
    if loaded.Success? {
      RunExactly(loaded.value, request, io);
      var bound := WithRun(loaded.value, request, io);
      if bound.Success? && bound.value.acp.Some? {
        BoundExactly(ws, disk, request, io, groups, bound.value);
      }
    }
  }

  lemma BoundExactly(ws: Workspace, disk: Option<Manifest>, request: ClaimRequest, io: Reads, groups: set<Pid>,
                     m: Manifest)
    requires m.acp.Some? && LoadedRecord(ws, disk, request, io).Success? && RunAllows(request, io)
    requires WithRun(LoadedRecord(ws, disk, request, io).value, request, io) == Success(m)
    ensures RecordRefusal(m, request, groups).None? && ReservedRecord(m, request).Success? <==>
            MayTake(ws, disk, request, io, groups)
  {
    RunExactly(LoadedRecord(ws, disk, request, io).value, request, io);
    if request.reserveLaunch ==> m.acp.value.identity.generation < U64_MAX {
      SessionExactly(m, request, groups);
    }
  }

  // ---------------------------------------------------------------- what it leaves

  /** A prompt counts as sent when the record says so; an old record says it by how its last turn ended. */
  predicate CountsAsSeeded(s: SessionState) {
    if s.promptSeeded.Some? then s.promptSeeded.value
    else s.status != Ready && s.stopReason != Some(CANCELLED_BEFORE_PROMPT)
  }

  /** The record that a claim of `s` leaves: quiet again, or reserved for a launch under the next generation. */
  predicate Leaves(s: SessionState, request: ClaimRequest, now: SessionState) {
    && now.sessionId == s.sessionId && now.harness == s.harness && now.negotiated == s.negotiated
    && now.modelSelection == s.modelSelection && now.recovery == s.recovery
    && now.promptSeeded == Some(CountsAsSeeded(s))
    && (if request.reserveLaunch then
          && now.identity == request.identity.(generation := s.identity.generation + 1)
          && now.ownerId == request.ownerId && now.process == LaunchPending
          && (if s.identity.runId == request.identity.runId && s.identity.attempt == request.identity.attempt
              then now.status == s.status && now.stopReason == s.stopReason
              else now.status == Ready && now.stopReason == None)
        else
          && now.identity == s.identity && now.ownerId == s.ownerId && now.process == Stopped
          && now.status == s.status && now.stopReason == s.stopReason)
  }

  lemma ReservedLeaves(m: AcpManifest, request: ClaimRequest, groups: set<Pid>)
    requires ReservedRecord(m, request).Success?
    requires SameBinding(m.acp.value.identity, request.identity, request.expectedSession.Some?)
    ensures Leaves(m.acp.value, request, ReservedRecord(m, request).value.acp.value)
    ensures ReservedRecord(m, request).value.(acp := m.acp) == m
  {
  }

  /** What is in a fresh record before the claim reserves it. */
  predicate IsFresh(s: SessionState, identity: Identity) {
    && s.identity == identity.(generation := 0) && s.sessionId == None && s.status == Ready && s.stopReason == None
    && s.promptSeeded == Some(false) && s.process == Stopped && s.harness == "acp" && s.recovery == Fresh
    && !s.modelSelection
  }

  /** The envelopes of the claimed run replace the recorded ones, where it has any. */
  predicate TakesRun(was: Manifest, now: Manifest, request: ClaimRequest, io: Reads) {
    var run := request.reserveLaunch && io.run.Found?;
    && now.parent == (if run && io.run.record.parent.Some? then io.run.record.parent else was.parent)
    && now.runtime == (if run && io.run.record.runtime.Some? then io.run.record.runtime else was.runtime)
  }

  lemma RunTaken(m: Manifest, request: ClaimRequest, io: Reads)
    requires WithRun(m, request, io).Success?
    ensures var now := WithRun(m, request, io).value;
      TakesRun(m, now, request, io) && now.(parent := m.parent, runtime := m.runtime) == m
  {
  }

  /** An admitted claim's record: everything of the old one but what a claim writes. */
  lemma AdmittedRecord(ws: Workspace, disk: Option<Manifest>, request: ClaimRequest, io: Reads, groups: set<Pid>)
    requires Admit(ws, disk, request, io, groups).Success?
    ensures var now := Admit(ws, disk, request, io, groups).value;
      if disk.Some? then
        && disk.value.acp.Some? && Leaves(disk.value.acp.value, request, now.acp.value)
        && TakesRun(disk.value, now, request, io)
        && now.conversationId == disk.value.conversationId && now.resetReason == disk.value.resetReason
        && now.freshConversation == disk.value.freshConversation
        && now.issueId == disk.value.issueId && now.identifier == disk.value.identifier
      else
        && (exists s :: IsFresh(s, request.identity) && Leaves(s, request, now.acp.value))
        && now.conversationId == "" && now.freshConversation && now.issueId == ws.issueId
        && now.identifier == ws.identifier
  {
    AdmitsExactly(ws, disk, request, io, groups);
    var loaded := LoadedRecord(ws, disk, request, io).value;
    RunTaken(loaded, request, io);
    ReservedLeaves(WithRun(loaded, request, io).value, request, groups);
    assert disk.None? ==> IsFresh(loaded.acp.value, request.identity);
  }

  // ---------------------------------------------------------------- a claim in the protocol

  /** A claim that finds the lock held, or never gets to it, changes nothing and fails. */
  lemma HeldLockRefuses(ws: Workspace, disk: Option<Manifest>, locked: bool, request: ClaimRequest, io: Reads,
                        groups: set<Pid>, write: Write)
    requires locked || PreLockRefusal(ws, request, io).Some?
    ensures var c := Claimed(ws, disk, locked, request, io, groups, write);
      c.result.Failure? && c.disk == disk && c.locked == locked
      && (PreLockRefusal(ws, request, io).None? ==> c.result.error == Owned)
  {
  }

  /** The operation in the protocol's state. */
  function ClaimOf(s: Protocol, request: ClaimRequest, io: Reads, write: Write): ClaimEffect {
    Claimed(s.workspace, s.disk, s.lock.Some?, request, io, s.live + s.foreign, write)
  }

  /** The lock is taken and the record checked: the claim is over, as if it had not been, or has a record to write. */
  lemma CheckedClaim(s: Protocol, h: HostId, request: ClaimRequest, io: Reads, write: Write)
    requires h !in s.owners && Enabled(s, Claims(h, TakeLock(request, io)))
    ensures var c, s1 := ClaimOf(s, request, io, write), Step(s, Claims(h, TakeLock(request, io)));
      && s.lock.None? && Enabled(s1, Claims(h, Check(io)))
      && var s2 := Step(s1, Claims(h, Check(io)));
      && (!In(s2, h) ==> c.result.Failure? && s2 == s && c.disk == s.disk && !c.locked)
      && (In(s2, h) ==> Checked(s, h, request, io, s2))
  {
    var s1 := Step(s, Claims(h, TakeLock(request, io)));
    assert s1.owners - {h} == s.owners && s1.owners[h := s1.owners[h]] == s1.owners;
    var m := Admit(s.workspace, s.disk, request, io, s.live + s.foreign);
    if m.Success? {
      assert s1.owners[h := Owning(m.value, Admitted(request.reserveLaunch))]
          == s.owners[h := Owning(m.value, Admitted(request.reserveLaunch))];
    }
  }

  /** The state between a passed check and the write of the record. */
  predicate Checked(s: Protocol, h: HostId, request: ClaimRequest, io: Reads, s2: Protocol) {
    var m := Admit(s.workspace, s.disk, request, io, s.live + s.foreign);
    && m.Success?
    && s2 == s.(lock := Some(h), owners := s.owners[h := Owning(m.value, Admitted(request.reserveLaunch))])
  }

  lemma WrittenClaim(s: Protocol, h: HostId, request: ClaimRequest, io: Reads, write: Write, s2: Protocol)
    requires h !in s.owners && s.lock.None? && PreLockRefusal(s.workspace, request, io).None?
    requires Checked(s, h, request, io, s2)
    ensures var c := ClaimOf(s, request, io, write);
      && Enabled(s2, Claims(h, WriteReservation(write)))
      && var s3 := Step(s2, Claims(h, WriteReservation(write)));
      && s3.disk == c.disk && s3.live == s.live && s3.launches == s.launches
      && (if c.result.Success? && request.reserveLaunch
          then c.locked && s3.lock == Some(h) && s3.owners[h] == Owning(c.result.value, Reserved)
          else s3.lock.None? && s3.owners == s.owners && c.locked == c.result.Success?)
  {
    assert s2.owners - {h} == s.owners;
  }

  /**
   A whole claim is one host's three steps in a row. It succeeds only from a free lock; a launch then owns lock and
   record, and a retirement, whose guard is dropped at once, has freed the lock again.
   */
  lemma ClaimIsSteps(s: Protocol, h: HostId, request: ClaimRequest, io: Reads, write: Write)
    requires h !in s.owners
    ensures var c := ClaimOf(s, request, io, write);
      if !Enabled(s, Claims(h, TakeLock(request, io))) then
        c.result.Failure? && c.disk == s.disk && c.locked == s.lock.Some?
      else
        && s.lock.None?
        && var s1 := Step(s, Claims(h, TakeLock(request, io)));
        && Enabled(s1, Claims(h, Check(io)))
        && var s2 := Step(s1, Claims(h, Check(io)));
        && (!In(s2, h) ==> c.result.Failure? && s2 == s && c.disk == s.disk && !c.locked)
        && (In(s2, h) ==>
              && Enabled(s2, Claims(h, WriteReservation(write)))
              && var s3 := Step(s2, Claims(h, WriteReservation(write)));
              && s3.disk == c.disk && s3.live == s.live && s3.launches == s.launches
              && (if c.result.Success? && request.reserveLaunch
                  then c.locked && s3.lock == Some(h) && s3.owners[h] == Owning(c.result.value, Reserved)
                  else s3.lock.None? && s3.owners == s.owners && c.locked == c.result.Success?))
  {
    if Enabled(s, Claims(h, TakeLock(request, io))) {
      CheckedClaim(s, h, request, io, write);
      var s2 := Step(Step(s, Claims(h, TakeLock(request, io))), Claims(h, Check(io)));
      if In(s2, h) {
        WrittenClaim(s, h, request, io, write, s2);
      }
    } else {
      HeldLockRefuses(s.workspace, s.disk, s.lock.Some?, request, io, s.live + s.foreign, write);
    }
  }

  /** So while any host owns the workspace, every claim of every other host fails and leaves lock and record alone. */
  lemma OwnerKeepsOthersOut(trace: seq<Protocol>, actions: seq<Action>, i: nat, request: ClaimRequest, io: Reads,
                            write: Write)
    requires Execution(trace, actions) && i < |trace| && trace[i].owners != map[]
    ensures var c := ClaimOf(trace[i], request, io, write);
      c.result.Failure? && c.disk == trace[i].disk && c.locked
  {
    EveryStateSafe(trace, actions, i);
    HeldLockRefuses(trace[i].workspace, trace[i].disk, true, request, io, trace[i].live + trace[i].foreign, write);
  }

  // ---------------------------------------------------------------- what counts as a sent prompt

  predicate DiskSeeded(s: Protocol) {
    s.disk.Some? && s.disk.value.acp.Some? && s.disk.value.acp.value.promptSeeded == Some(true)
  }

  /** A step seeds an owner's record exactly when it finishes an answered prompt with a reason of its own. */
  lemma SeedingExactly(s: Protocol, a: Action, h: HostId)
    requires Inv(s) && Enabled(s, a) && In(s, h) && !Seeded(s, h)
    ensures Seeded(Step(s, a), h) <==>
              && a.Turns? && a.h == h && a.turn.RecordFinish? && PhaseOf(s, h).Answered?
              && ValidId(a.turn.stopReason) && a.turn.stopReason != CANCELLED_BEFORE_PROMPT
  {
    if Seeded(Step(s, a), h) {
      SeedingNeedsAnAnswer(s, a, h);
    }
    if a.Turns? && a.h == h && a.turn.RecordFinish? {
      FinishedFields(s.owners[h].memory, a.turn.stopReason);
    }
  }

  /** And the disk says so as soon as the write gets there. */
  lemma FinishSeedsDisk(s: Protocol, h: HostId, stopReason: string, write: Write)
    requires Inv(s) && In(s, h) && PhaseOf(s, h).Answered?
    requires ValidId(stopReason) && stopReason != CANCELLED_BEFORE_PROMPT
    ensures var s' := Step(s, Turns(h, RecordFinish(stopReason, write)));
      && Seeded(s', h)
      && (Reaches(s'.owners[h].memory, write) ==> DiskSeeded(s') && DiskHas(s', Finished))
  {
    FinishedFields(s.owners[h].memory, stopReason);
  }
}
