/**
 The session actor's loop: one prompt at a time, prepared, submitted durably, sent, and recorded.

 The outcome of each `select!` is an event; futures, clocks and the peer appear only as the data it carries.
 */
module SessionDriver {
  import opened Prelude
  import opened Records
  import opened DurableRecord

  type PromptId = nat
  type LeaseId = nat
  type Instant = nat

  datatype Limits = Limits(frameBytes: nat, maxAttachments: nat, attachmentTtl: nat, idleTimeout: nat)

  datatype PromptRequest = PromptRequest(id: PromptId, generation: nat, runId: string, attempt: nat,
                                         promptBytes: nat, cancelled: bool)

  datatype Control = Inspect | Attach(lease: LeaseId) | Renew(lease: LeaseId) | ReleaseLease(lease: LeaseId) | Retire

  datatype PromptResult = Reported(stopReason: string) | NeverSent | PromptFailed

  /** The branches of the loop. The two completions are only taken while their guard holds. */
  datatype Event =
    | PreparationEnds(ready: bool, cancelledBefore: bool, selectable: bool, cancelledAfter: bool,
                      selection: Write, submission: Write, finish: Write)
    | PromptEnds(result: PromptResult, write: Write)
    | PromptArrives(request: PromptRequest)
    | ControlArrives(generation: nat, action: Control)
    | CommandsClose
    | Tick

  datatype Outcome = Ongoing | RetiredByControl | RetiredIdle | Broken

  function Arrival(e: Event, id: PromptId): nat {
    if e.PromptArrives? && e.request.id == id then 1 else 0
  }

  /** How often a prompt arrives among the first `n` events. */
  function Received(events: seq<Event>, n: nat, id: PromptId): nat
    requires n <= |events|
  {
    if n == 0 then 0 else Received(events, n - 1, id) + Arrival(events[n - 1], id)
  }

  function Holds(p: Option<PromptRequest>, id: PromptId): nat {
    if p.Some? && p.value.id == id then 1 else 0
  }

  function Unexpired(leases: map<LeaseId, Instant>, now: Instant): map<LeaseId, Instant> {
    map l | l in leases && leases[l] > now :: leases[l]
  }

  /** The record that a prompt's outcome leaves in memory, or why it is refused. */
  function Recorded(m: AcpManifest, result: PromptResult): Result<AcpManifest, Error> {
    match result
    case NeverSent => FinishedRecord(m, CANCELLED_BEFORE_PROMPT)
    case PromptFailed => UncertainRecord(m)
    case Reported(stopReason) => FinishedRecord(m, stopReason)
  }

  /** A prompt that was never sent is finished, does not count as seeded, and leaves the record open for the next. */
  lemma NeverSentReopens(m: AcpManifest)
    requires m.acp.value.status == Submitted
    ensures var left := Recorded(m, NeverSent);
      && left.Success? && left.value.acp.value.status == Finished
      && left.value.acp.value.promptSeeded == m.acp.value.promptSeeded
  {
    CancelledIsValid();
  }

  /** A prompt of unknown outcome leaves a record that bars every claim. */
  lemma UnknownOutcomeBars(m: AcpManifest, ws: Workspace, request: ClaimRequest, io: Reads, groups: set<nat>)
    ensures var left := Recorded(m, PromptFailed);
      left.Success? && Admit(ws, Some(left.value), request, io, groups).Failure?
  {
    var left: Manifest := UncertainRecord(m).value;
    var loaded := LoadedRecord(ws, Some(left), request, io);
    if loaded.Success? {
      var bound := WithRun(loaded.value, request, io);
      assert bound.Success? ==> bound.value.acp == left.acp;
    }
  }

  // ---------------------------------------------------------------- the loop on values

  /** What the loop's branches read and write of the record, and the prompt they work on. */
  datatype View = View(memory: AcpManifest, disk: Option<Manifest>, active: Option<PromptRequest>,
                       preparing: Option<PromptRequest>)

  /** What holds whenever the loop selects its next branch. */
  predicate LoopHead(v: View) {
    var status := v.memory.acp.value.status;
    && (v.active.Some? <==> status == Submitted)
    && status != Status.Uncertain
    && !(v.active.Some? && v.preparing.Some?)
    && v.disk == Some(Stamped(v.memory))
  }

  function Checkpointed(v: View, e: Effect): View { v.(memory := e.memory, disk := e.disk) }

  function Selected(v: View, e: Event): Effect
    requires e.PreparationEnds?
  {
    CommitSelection(v.memory, e.selectable, v.disk, e.selection)
  }

  function SubmittedBy(v: View, e: Event): Effect
    requires e.PreparationEnds? && v.preparing.Some?
  {
    var selected := Selected(v, e);
    Commit(SubmittedRecord(selected.memory, v.preparing.value.runId, v.preparing.value.attempt), selected.memory,
           selected.disk, e.submission)
  }

  /** The end of a preparation: up to two checkpoints, and a third that takes the submission back when cancelled. */
  function Prepared(v: View, e: Event): View
    requires e.PreparationEnds? && v.preparing.Some?
  {
    var given := v.(preparing := None);
    var selected, submitted := Selected(v, e), SubmittedBy(v, e);
    if !e.ready || e.cancelledBefore then given
    else if selected.result.Failure? then Checkpointed(given, selected)
    else if submitted.result.Failure? then Checkpointed(given, submitted)
    else if e.cancelledAfter then
      Checkpointed(given, Commit(FinishedRecord(submitted.memory, CANCELLED_BEFORE_PROMPT), submitted.memory,
                                 submitted.disk, e.finish))
    else Checkpointed(given, submitted).(active := v.preparing)
  }

  function Ended(v: View, e: Event): Effect
    requires e.PromptEnds?
  {
    Commit(Recorded(v.memory, e.result), v.memory, v.disk, e.write)
  }

  predicate AcceptableTo(m: AcpManifest, request: PromptRequest, limits: Limits) {
    && request.generation == m.acp.value.identity.generation
    && request.promptBytes <= limits.frameBytes / 6
    && request.runId != "" && Utf8Length(request.runId) <= 1024
    && !request.cancelled
  }

  predicate Accepts(v: View, e: Event, limits: Limits) {
    e.PromptArrives? && v.active.None? && v.preparing.None? && AcceptableTo(v.memory, e.request, limits)
  }

  /** One branch. */
  function After(v: View, e: Event, limits: Limits): View {
    if e.PreparationEnds? && v.preparing.Some? then Prepared(v, e)
    else if e.PromptEnds? && v.active.Some? then Checkpointed(v, Ended(v, e)).(active := None)
    else if Accepts(v, e, limits) then v.(preparing := Some(e.request))
    else v
  }

  /** The branches that end the connection with an error. */
  predicate Breaks(v: View, e: Event) {
    || (e.PreparationEnds? && v.preparing.Some? && Prepared(v, e).active.None?)
    || (e.PromptEnds? && v.active.Some? && (!e.result.Reported? || Ended(v, e).result.Failure?))
  }

  /** Everything that the loop keeps between its branches. */
  datatype Loop = Loop(view: View, attachments: map<LeaseId, Instant>, idleSince: Instant, commandsClosed: bool)

  predicate Idle(v: View) { v.active.None? && v.preparing.None? }

  /** A command that controls the session, once it is known to be for this generation. */
  function Controlled(l: Loop, action: Control, now: Instant, limits: Limits): (Loop, Outcome) {
    var live := Unexpired(l.attachments, now);
    var next := l.(attachments := live);
    match action
    case Inspect => (next, Ongoing)
    case Attach(lease) =>
      (if |live| < limits.maxAttachments then next.(attachments := live[lease := now + limits.attachmentTtl]) else next,
       Ongoing)
    case Renew(lease) =>
      (if lease in live then next.(attachments := live[lease := now + limits.attachmentTtl]) else next, Ongoing)
    case ReleaseLease(lease) =>
      (if lease in live then next.(attachments := live - {lease}, idleSince := now) else next, Ongoing)
    case Retire => (next, if Idle(l.view) && live == map[] then RetiredByControl else Ongoing)
  }

  function Ticked(l: Loop, now: Instant, limits: Limits): (Loop, Outcome) {
    var live := Unexpired(l.attachments, now);
    (l.(attachments := live),
     if Idle(l.view) && live == map[] && (l.commandsClosed || now - l.idleSince >= limits.idleTimeout)
     then RetiredIdle else Ongoing)
  }

  /** One branch, with all that it changes. */
  function Turn(l: Loop, e: Event, now: Instant, limits: Limits): (Loop, Outcome) {
    if e.ControlArrives? then
      if e.generation != l.view.memory.acp.value.identity.generation then (l, Ongoing)
      else Controlled(l, e.action, now, limits)
    else if e.Tick? then Ticked(l, now, limits)
    else if e.CommandsClose? then (l.(commandsClosed := true), Ongoing)
    else
      var next := l.(view := After(l.view, e, limits));
      if Breaks(l.view, e) then (next, Broken)
      else if e.PromptEnds? && l.view.active.Some? then (next.(idleSince := now), Ongoing)
      else (next, Ongoing)
  }

  /** The states the loop went through: every branch but the last left it going on. */
  predicate Went(states: seq<Loop>, events: seq<Event>, now: seq<Instant>, limits: Limits, outcome: Outcome) {
    && |states| <= |events| + 1 && |now| == |events| && states != []
    && forall i :: 0 <= i < |states| - 1 ==>
         Turn(states[i], events[i], now[i], limits)
         == (states[i + 1], if i + 1 == |states| - 1 then outcome else Ongoing)
  }

  /** Which leases an action leaves: those unexpired but a released one, and a new one if there is room for it. */
  ghost predicate LeasesAfter(was: map<LeaseId, Instant>, leases: map<LeaseId, Instant>, action: Control, now: Instant,
                        limits: Limits)
  {
    var room := |Unexpired(was, now)| < limits.maxAttachments;
    && (forall l :: l in leases <==>
          || (action == Attach(l) && room)
          || (l in was && was[l] > now && action != ReleaseLease(l)))
    && (forall l :: l in leases ==>
          leases[l] == if (action == Attach(l) && room) || action == Renew(l)
                       then now + limits.attachmentTtl else was[l])
  }

  lemma ControlledExactly(l: Loop, action: Control, now: Instant, limits: Limits)
    ensures var (next, outcome) := Controlled(l, action, now, limits);
      && next.view == l.view && next.commandsClosed == l.commandsClosed
      && LeasesAfter(l.attachments, next.attachments, action, now, limits)
      && next.idleSince == (if exists k :: k in l.attachments && l.attachments[k] > now && action == ReleaseLease(k)
                            then now else l.idleSince)
      && (outcome == RetiredByControl <==> action.Retire? && Idle(l.view) && Unexpired(l.attachments, now) == map[])
      && (outcome == RetiredByControl || outcome == Ongoing)
      && (|l.attachments| <= limits.maxAttachments ==> |next.attachments| <= limits.maxAttachments)
  {
    var live, next := Unexpired(l.attachments, now), Controlled(l, action, now, limits).0;
    SmallerDomain(live, l.attachments);
    match action
    case Renew(lease) =>
      if lease in live {
        assert next.attachments.Keys == live.Keys;
        SmallerDomain(next.attachments, live);
      }
    case ReleaseLease(lease) => SmallerDomain(next.attachments, live);
    case _ =>
  }

  class Driver {
    const durable: Durability
    const limits: Limits
    var active: Option<PromptRequest>
    var preparing: Option<PromptRequest>
    var attachments: map<LeaseId, Instant>
    var idleSince: Instant
    var commandsClosed: bool
    var replied: multiset<PromptId>

    ghost function Value(): View
      reads this, durable, durable.files
    {
      View(durable.manifest, durable.files.record, active, preparing)
    }

    ghost function State(): Loop
      reads this, durable, durable.files
    {
      Loop(Value(), attachments, idleSince, commandsClosed)
    }

    ghost predicate AtLoopHead()
      reads this, durable, durable.files
    {
      LoopHead(Value())
    }

    /** How often a prompt was received so far: answered, running, or being prepared. */
    ghost function Owed(id: PromptId): nat
      reads this`replied, this`active, this`preparing
    {
      replied[id] + Holds(active, id) + Holds(preparing, id)
    }

    ghost predicate Quiet()
      reads this, durable, durable.files
    {
      AtLoopHead() && active.None? && preparing.None?
    }

    constructor (durable: Durability, limits: Limits, now: Instant)
      requires Quiescent(durable.manifest.acp.value.status)
      requires durable.files.record == Some(Stamped(durable.manifest))
      ensures this.durable == durable && this.limits == limits
      ensures Quiet() && replied == multiset{}
    {
      this.durable := durable;
      this.limits := limits;
      active, preparing := None, None;
      attachments := map[];
      idleSince := now;
      commandsClosed := false;
      replied := multiset{};
    }

    /** The two checkpoints before a prompt may be sent. */
    method Submit(pending: PromptRequest, e: Event) returns (submitted: bool)
      requires e.PreparationEnds? && Quiescent(durable.manifest.acp.value.status)
      requires durable.files.record == Some(Stamped(durable.manifest))
      modifies durable, durable.files`record
      ensures var v := View(old(durable.manifest), old(durable.files.record), None, Some(pending));
        var last := if Selected(v, e).result.Failure? then Selected(v, e) else SubmittedBy(v, e);
        Effect(durable.manifest, durable.files.record, last.result) == last && submitted == last.result.Success?
      ensures submitted ==>
                && durable.files.record == Some(Stamped(durable.manifest))
                && durable.manifest.acp.value.status == Submitted
                && durable.manifest.acp.value.identity.runId == pending.runId
                && durable.manifest.acp.value.identity.attempt == pending.attempt
    {
      var selected := durable.SetModelSelection(e.selectable, e.selection);
      if selected.Failure? {
        return false;
      }
      var written := durable.MarkSubmitted(pending.runId, pending.attempt, e.submission);
      return written.Success?;
    }

    /** The record can carry a submission of this prompt. */
    predicate Submittable(pending: PromptRequest)
      reads this, durable
    {
      var s := durable.manifest.acp.value;
      ValidIdentity(s.identity) && ValidId(pending.runId) && s.sessionId.Some? && ValidId(s.sessionId.value)
    }

    /** Preparation finished: submit durably, or end the connection having answered the caller. */
    method FinishPreparation(e: Event) returns (outcome: Outcome)
      requires e.PreparationEnds? && AtLoopHead() && preparing.Some?
      modifies this`active, this`preparing, this`replied, durable, durable.files`record
      ensures outcome == Ongoing || outcome == Broken
      ensures preparing.None?
      ensures outcome == Ongoing ==> AtLoopHead() && active == old(preparing)
      ensures outcome == Ongoing ==>
                && durable.manifest.acp.value.identity.runId == old(preparing).value.runId
                && durable.manifest.acp.value.identity.attempt == old(preparing).value.attempt
      ensures outcome == Broken ==> active.None?
      ensures Value() == Prepared(old(Value()), e)
      ensures outcome == Ongoing ==> e.ready && !e.cancelledBefore && !e.cancelledAfter
      ensures !e.ready || e.cancelledBefore ==>
                durable.manifest == old(durable.manifest) && durable.files.record == old(durable.files.record)
      ensures (e.ready && !e.cancelledBefore && !e.cancelledAfter && old(Submittable(preparing.value))
               && Reliable(e.selection) && Reliable(e.submission)) ==> outcome == Ongoing
      ensures forall id :: Owed(id) == old(Owed(id))
    {
      var pending := preparing.value;
      preparing := None;
      if !e.ready || e.cancelledBefore {
        replied := replied + multiset{pending.id};
        return Broken;
      }
      var submitted := Submit(pending, e);
      if !submitted {
        replied := replied + multiset{pending.id};
        return Broken;
      }
      if e.cancelledAfter {
        var _ := durable.MarkFinished(CANCELLED_BEFORE_PROMPT, e.finish);
        replied := replied + multiset{pending.id};
        return Broken;
      }
      active := Some(pending);
      return Ongoing;
    }

    /** The prompt's future resolved: record its outcome before answering the caller. */
    method FinishPrompt(e: Event, now: Instant) returns (outcome: Outcome)
      requires e.PromptEnds? && AtLoopHead() && active.Some?
      modifies this`active, this`replied, this`idleSince, durable, durable.files`record
      ensures outcome == Ongoing || outcome == Broken
      ensures active.None? && forall id :: Owed(id) == old(Owed(id))
      ensures outcome == Ongoing ==> AtLoopHead()
      ensures idleSince == if outcome == Ongoing then now else old(idleSince)
      ensures outcome == Ongoing <==> e.result.Reported? && old(Ended(Value(), e)).result.Success?
      ensures outcome == Ongoing ==>
                e.result.Reported? && durable.manifest.acp.value.stopReason == Some(e.result.stopReason)
      ensures Value() == Checkpointed(old(Value()), old(Ended(Value(), e))).(active := None)
    {
      var pending := active.value;
      active := None;
      replied := replied + multiset{pending.id};
      var recorded := RecordOutcome(e);
      if !e.result.Reported? || recorded.Failure? {
        return Broken;
      }
      idleSince := now;
      return Ongoing;
    }

    /** The checkpoint that the prompt's outcome calls for. */
    method RecordOutcome(e: Event) returns (r: Result<Unit, Error>)
      requires e.PromptEnds?
      modifies durable, durable.files`record
      ensures Effect(durable.manifest, durable.files.record, r)
              == old(Commit(Recorded(durable.manifest, e.result), durable.manifest, durable.files.record, e.write))
    {
      match e.result
      case NeverSent => r := durable.MarkFinished(CANCELLED_BEFORE_PROMPT, e.write);
      case PromptFailed => r := durable.MarkUncertain(e.write);
      case Reported(stopReason) => r := durable.MarkFinished(stopReason, e.write);
    }

    method AcceptPrompt(request: PromptRequest)
      requires AtLoopHead()
      modifies this`preparing, this`replied
      ensures AtLoopHead()
      ensures preparing == (if old(preparing).None? && active.None? && AcceptableTo(durable.manifest, request, limits)
                            then Some(request) else old(preparing))
      ensures preparing != old(preparing) <==>
                && old(preparing).None? && active.None? && !request.cancelled
                && request.generation == durable.manifest.acp.value.identity.generation
                && request.promptBytes <= limits.frameBytes / 6
                && 1 <= |request.runId| && Utf8Length(request.runId) <= 1024
      ensures preparing != old(preparing) ==> preparing == Some(request)
      ensures forall id :: Owed(id) == old(Owed(id)) + (if id == request.id then 1 else 0)
    {
      if request.generation != durable.manifest.acp.value.identity.generation {
        replied := replied + multiset{request.id};
        return;
      }
      if active.Some? || preparing.Some? {
        replied := replied + multiset{request.id};
        return;
      }
      if request.promptBytes > limits.frameBytes / 6 || request.runId == "" || Utf8Length(request.runId) > 1024 {
        replied := replied + multiset{request.id};
        return;
      }
      if request.cancelled {
        replied := replied + multiset{request.id};
        return;
      }
      preparing := Some(request);
    }

    /** Observation leases pin the process; only `Retire` with nothing pending ends the loop. */
    method Handle(generation: nat, action: Control, now: Instant) returns (outcome: Outcome)
      requires AtLoopHead()
      modifies this`attachments, this`idleSince
      ensures AtLoopHead()
      ensures outcome == Ongoing || outcome == RetiredByControl
      ensures outcome == RetiredByControl <==>
                && action.Retire? && generation == durable.manifest.acp.value.identity.generation
                && active.None? && preparing.None? && Unexpired(old(attachments), now) == map[]
      ensures generation != durable.manifest.acp.value.identity.generation ==>
                attachments == old(attachments) && idleSince == old(idleSince)
      ensures generation == durable.manifest.acp.value.identity.generation ==>
                && LeasesAfter(old(attachments), attachments, action, now, limits)
                && idleSince == (if exists l :: l in old(attachments) && old(attachments)[l] > now
                                                && action == ReleaseLease(l) then now else old(idleSince))
                && (State(), outcome) == Controlled(old(State()), action, now, limits)
      ensures |old(attachments)| <= limits.maxAttachments ==> |attachments| <= limits.maxAttachments
    {
      outcome := Ongoing;
      if generation != durable.manifest.acp.value.identity.generation {
        return;
      }
      ControlledExactly(State(), action, now, limits);
      outcome := Obey(action, now);
    }

    /** A control command of this generation. */
    method Obey(action: Control, now: Instant) returns (outcome: Outcome)
      modifies this`attachments, this`idleSince
      ensures (State(), outcome) == Controlled(old(State()), action, now, limits)
    {
      outcome := Ongoing;
      ExpireLeases(now);
      match action
      case Inspect =>
      case Attach(lease) =>
        if |attachments| < limits.maxAttachments {
          attachments := attachments[lease := now + limits.attachmentTtl];
        }
      case Renew(lease) =>
        if lease in attachments {
          attachments := attachments[lease := now + limits.attachmentTtl];
        }
      case ReleaseLease(lease) =>
        if lease in attachments {
          attachments := attachments - {lease};
          idleSince := now;
        }
      case Retire =>
        if active.None? && preparing.None? && attachments == map[] {
          outcome := RetiredByControl;
        }
    }

    method ExpireLeases(now: Instant)
      modifies this`attachments
      ensures attachments == Unexpired(old(attachments), now)
      ensures |attachments| <= |old(attachments)|
    {
      attachments := map l | l in attachments && attachments[l] > now :: attachments[l];
      SmallerDomain(attachments, old(attachments));
    }

    method OnTick(now: Instant) returns (outcome: Outcome)
      requires AtLoopHead()
      modifies this`attachments
      ensures AtLoopHead()
      ensures outcome == RetiredIdle || outcome == Ongoing
      ensures attachments == Unexpired(old(attachments), now)
      ensures outcome == RetiredIdle <==>
                && active.None? && preparing.None? && attachments == map[]
                && (commandsClosed || now - idleSince >= limits.idleTimeout)
    {
      ExpireLeases(now);
      if active.None? && preparing.None? && attachments == map[]
         && (commandsClosed || now - idleSince >= limits.idleTimeout) {
        return RetiredIdle;
      }
      return Ongoing;
    }

    method TakeBranch(e: Event, now: Instant) returns (outcome: Outcome)
      requires AtLoopHead()
      modifies this, durable, durable.files`record
      ensures outcome == Ongoing ==> AtLoopHead()
      ensures outcome == RetiredByControl || outcome == RetiredIdle ==> Quiet()
      ensures outcome != Ongoing ==> active.None? && preparing.None?
      ensures Value() == After(old(Value()), e, limits) && (outcome == Broken <==> Breaks(old(Value()), e))
      ensures (State(), outcome) == Turn(old(State()), e, now, limits)
      ensures commandsClosed == (old(commandsClosed) || e.CommandsClose?)
      ensures e.ControlArrives? && e.generation == durable.manifest.acp.value.identity.generation ==>
                && LeasesAfter(old(attachments), attachments, e.action, now, limits)
                && (outcome == RetiredByControl <==>
                      e.action.Retire? && active.None? && preparing.None? && Unexpired(old(attachments), now) == map[])
      ensures e.Tick? ==>
                && attachments == Unexpired(old(attachments), now)
                && (outcome == RetiredIdle <==>
                      && active.None? && preparing.None? && attachments == map[]
                      && (commandsClosed || now - idleSince >= limits.idleTimeout))
      ensures outcome == RetiredByControl ==> e.ControlArrives? && e.action.Retire?
      ensures outcome == RetiredIdle ==> e.Tick?
      ensures forall id :: Owed(id) == old(Owed(id)) + Arrival(e, id)
    {
      outcome := Ongoing;
      if e.PreparationEnds? {
        if preparing.Some? {
          outcome := FinishPreparation(e);
        }
      } else if e.PromptEnds? {
        if active.Some? {
          outcome := FinishPrompt(e, now);
        }
      } else if e.PromptArrives? {
        AcceptPrompt(e.request);
      } else if e.ControlArrives? {
        outcome := Handle(e.generation, e.action, now);
      } else if e.CommandsClose? {
        commandsClosed := true;
      } else {
        outcome := OnTick(now);
      }
    }

    /**
     The loop. When it returns, every prompt it received has been answered exactly once, and a clean return
     leaves a quiet record that the disk agrees with.
     */
    method Drive(events: seq<Event>, now: seq<Instant>) returns (outcome: Outcome, used: nat)
      requires Quiet() && replied == multiset{} && |now| == |events|
      modifies this, durable, durable.files`record
      ensures used <= |events| && (outcome == Ongoing ==> used == |events|)
      ensures outcome == Ongoing ==> AtLoopHead()
      ensures outcome == RetiredByControl || outcome == RetiredIdle ==>
          Quiet() && Quiescent(durable.manifest.acp.value.status)
      ensures forall id :: Owed(id) == Received(events, used, id)
      ensures outcome != Ongoing ==> forall id :: replied[id] == Received(events, used, id)
      ensures exists states: seq<Loop> ::
                |states| == used + 1 && states[0] == old(State()) && states[used] == State()
                && Went(states, events, now, limits, outcome)
    {
      used := 0;
      outcome := Ongoing;
      ghost var states := [State()];
      while used < |events| && outcome == Ongoing
        invariant used <= |events|
        invariant outcome == Ongoing ==> AtLoopHead()
        invariant outcome == RetiredByControl || outcome == RetiredIdle ==> Quiet()
        invariant outcome != Ongoing ==> active.None? && preparing.None?
        invariant forall id :: Owed(id) == Received(events, used, id)
        invariant |states| == used + 1 && states[0] == old(State()) && states[used] == State()
        invariant Went(states, events, now, limits, outcome)
        decreases |events| - used
      {
        outcome := TakeBranch(events[used], now[used]);
        used := used + 1;
        states := states + [State()];
      }
    }
  }

  lemma SmallerDomain<K, V>(small: map<K, V>, large: map<K, V>)
    requires small.Keys <= large.Keys
    ensures |small| <= |large|
  {
    SubsetSize(small.Keys, large.Keys);
    assert |small| == |small.Keys| && |large| == |large.Keys|;
  }

  predicate IsPrintable(c: char) { 0x20 <= (c as int) < 0x7F }

  lemma {:induction false} PrintableLength(s: string)
    requires forall c :: c in s ==> IsPrintable(c)
    ensures Utf8Length(s) == |s|
  {
    if s != "" {
      assert s[0] in s && forall c :: c in s[1..] ==> c in s;
      PrintableLength(s[1..]);
    }
  }

  lemma {:induction false} PrintableIsValid(s: string)
    requires s != "" && |s| <= MAX_ID_BYTES && forall c :: c in s ==> IsPrintable(c)
    ensures ValidId(s)
  {
    PrintableLength(s);
    assert forall i :: 0 <= i < |s| ==> s[i] in s;
  }

  lemma CancelledIsPrintable()
    ensures |CANCELLED_BEFORE_PROMPT| == 23 && forall c :: c in CANCELLED_BEFORE_PROMPT ==> IsPrintable(c)
  {
  }

  lemma CancelledIsValid()
    ensures ValidId(CANCELLED_BEFORE_PROMPT)
  {
    CancelledIsPrintable();
    PrintableIsValid(CANCELLED_BEFORE_PROMPT);
  }
}
