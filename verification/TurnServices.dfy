/**
 The actor that executes the peer's file and terminal callbacks, one turn at a time.

 Commands wait in one FIFO. Ending or beginning a turn cancels the current token, then waits for every
 terminal process and every reply of earlier callbacks before it is acknowledged.
 */
module TurnServices {
  import opened Prelude

  datatype Command = Callback | BeginTurn | EndTurn

  /** `done` is the process task's result; `gone` is the truth about its tree; `listed` terminals can still be named. */
  datatype Process = Process(callback: nat, done: Option<bool>, gone: bool, joined: bool, listed: bool)

  datatype Reply = Pending | Handed | Refused

  /** A file or process effect of a callback, and the turn it ran in. Turn `n + 1` was begun by command `n`. */
  datatype Effect = Effect(callback: nat, turn: nat)

  datatype Phase = Ready | Handling(callback: nat, live: bool) | Retiring(command: nat, begins: bool) | Stopped

  datatype Services = Services(
    commands: seq<Command>,
    taken: nat,
    phase: Phase,
    turn: nat,
    cancelled: bool,          // the current turn's token
    processes: seq<Process>,
    processesOk: bool,
    replies: map<nat, Reply>,
    joinedReplies: set<nat>,
    effects: seq<Effect>,
    acks: map<nat, bool>,     // acknowledged turn commands and their success
    fatal: bool)

  datatype CallbackMove = Touch | Spawn | ReleaseTerminal(process: nat) | Finish

  datatype RetireMove = Complete(parentCancelled: bool) | Expire | ReplyPanics

  datatype TaskMove = ProcessEnds(process: nat, ok: bool, gone: bool) | ReplyEnds(callback: nat, admitted: bool)

  datatype Action =
    | Send(command: Command)
    | CancelToken
    | FailElsewhere
    | Take
    | Callbacks(callbackMove: CallbackMove)
    | Tasks(task: TaskMove)
    | JoinProcess(process: nat)
    | JoinReply(callback: nat)
    | Retires(retire: RetireMove)
    | Stop

  predicate Joinable(s: Services) { s.phase.Ready? || s.phase.Retiring? }

  ghost predicate Enabled(s: Services, a: Action) {
    match a
    case Send(_) => true
    case CancelToken => true
    case FailElsewhere => true
    case Take => s.phase.Ready? && s.taken < |s.commands|
    case Callbacks(ReleaseTerminal(p)) => s.phase.Handling? && s.phase.live && p < |s.processes|
        && s.processes[p].listed
    case Callbacks(Finish) => s.phase.Handling?
    case Callbacks(_) => s.phase.Handling? && s.phase.live
    case Tasks(ProcessEnds(p, ok, gone)) => p < |s.processes| && s.processes[p].done.None? && (ok ==> gone)
    case Tasks(ReplyEnds(c, _)) => c in s.replies && s.replies[c] == Pending
    case JoinProcess(p) => Joinable(s) && p < |s.processes| && s.processes[p].done.Some? && !s.processes[p].joined
    case JoinReply(c) => Joinable(s) && c in s.replies && s.replies[c] != Pending && c !in s.joinedReplies
    case Retires(Complete(_)) => s.phase.Retiring? && AllJoined(s)
    case Retires(_) => s.phase.Retiring?
    case Stop => !s.phase.Stopped?
  }

  ghost predicate AllJoined(s: Services) {
    && (forall p :: 0 <= p < |s.processes| ==> s.processes[p].joined)
    && (forall c :: c in s.replies ==> c in s.joinedReplies)
  }

  ghost predicate TerminalsOk(s: Services) {
    forall p :: 0 <= p < |s.processes| && s.processes[p].listed ==> s.processes[p].done == Some(true)
  }

  function Unlisted(processes: seq<Process>): seq<Process> {
    seq(|processes|, i requires 0 <= i < |processes| => processes[i].(listed := false))
  }

  function RetireFailed(s: Services): Services
    requires s.phase.Retiring?
  {
    s.(acks := s.acks[s.phase.command := false], fatal := true, phase := Ready)
  }

  ghost function Retired(s: Services, parentCancelled: bool): Services
    requires s.phase.Retiring?
  {
    if !TerminalsOk(s) then RetireFailed(s)
    else
      var Retiring(t, begins) := s.phase;
      var s := s.(processes := Unlisted(s.processes), acks := s.acks[t := true], phase := Ready);
      if begins then s.(turn := t + 1, cancelled := parentCancelled) else s
  }

  function Taken(s: Services): Services
    requires s.phase.Ready? && s.taken < |s.commands|
  {
    var c := s.taken;
    var s := s.(taken := c + 1);
    if s.commands[c] == Callback then s.(phase := Handling(c, !s.cancelled))
    else if !s.processesOk then s.(acks := s.acks[c := false], fatal := true)
    else s.(phase := Retiring(c, s.commands[c] == BeginTurn), cancelled := true)
  }

  function CallbackStep(s: Services, a: CallbackMove): Services
    requires s.phase.Handling? && (a.ReleaseTerminal? ==> a.process < |s.processes|)
  {
    var c := s.phase.callback;
    match a
    case Touch => s.(effects := s.effects + [Effect(c, s.turn)])
    case Spawn => s.(effects := s.effects + [Effect(c, s.turn)],
                     processes := s.processes + [Process(c, None, false, false, true)])
    case ReleaseTerminal(p) => s.(effects := s.effects + [Effect(c, s.turn)],
                                  processes := s.processes[p := s.processes[p].(listed := false)])
    case Finish => s.(phase := Ready, replies := s.replies[c := Pending])
  }

  function TaskStep(s: Services, a: TaskMove): Services
    requires a.ProcessEnds? ==> a.process < |s.processes|
  {
    match a
    case ProcessEnds(p, ok, gone) => s.(processes := s.processes[p := s.processes[p].(done := Some(ok), gone := gone)])
    case ReplyEnds(c, admitted) =>
      s.(replies := s.replies[c := if admitted then Handed else Refused], fatal := s.fatal || !admitted)
  }

  function ProcessJoined(s: Services, p: nat): Services
    requires p < |s.processes| && s.processes[p].done.Some?
  {
    var ok := s.processes[p].done.value;
    var s := s.(processes := s.processes[p := s.processes[p].(joined := true)]);
    if ok then s
    else if s.phase.Retiring? then RetireFailed(s)
    else s.(processesOk := false)
  }

  ghost function Step(s: Services, a: Action): Services
    requires Enabled(s, a)
  {
    match a
    case Send(command) => s.(commands := s.commands + [command])
    case CancelToken => s.(cancelled := true)
    case FailElsewhere => s.(fatal := true)
    case Take => Taken(s)
    case Callbacks(move) => CallbackStep(s, move)
    case Tasks(task) => TaskStep(s, task)
    case JoinProcess(p) => ProcessJoined(s, p)
    case JoinReply(c) => s.(joinedReplies := s.joinedReplies + {c})
    case Retires(Complete(parentCancelled)) => Retired(s, parentCancelled)
    case Retires(_) => RetireFailed(s)
    case Stop => s.(phase := Stopped)
  }

  /** No turn is active before the first begin: the first token is already cancelled. */
  const Initial: Services := Services([], 0, Ready, 0, true, [], true, map[], {}, [], map[], false)

  ghost predicate Execution(trace: seq<Services>, actions: seq<Action>) {
    && |trace| == |actions| + 1
    && trace[0] == Initial
    && forall i :: 0 <= i < |actions| ==> Enabled(trace[i], actions[i]) && trace[i + 1] == Step(trace[i], actions[i])
  }

  // ---------------------------------------------------------------- the invariant

  predicate Succeeded(s: Services, t: nat) { t in s.acks && s.acks[t] }

  /** No turn command in the range was acknowledged as successful. */
  ghost predicate NoTurnBetween(s: Services, from: nat, to: nat) {
    forall t: nat :: from <= t < to ==> !Succeeded(s, t)
  }

  /** A turn is the one that a successfully acknowledged begin installed. */
  predicate Begun(s: Services, turn: nat) {
    1 <= turn <= |s.commands| && s.commands[turn - 1] == BeginTurn && Succeeded(s, turn - 1)
  }

  ghost predicate PhaseOk(s: Services) {
    && s.turn <= s.taken <= |s.commands|
    && (s.phase.Handling? ==> s.phase.callback + 1 == s.taken && s.phase.callback !in s.replies)
    && s.joinedReplies <= s.replies.Keys
    && (s.phase.Retiring? ==>
          s.phase.command + 1 == s.taken && s.phase.command !in s.acks && s.processesOk && s.cancelled
          && s.phase.begins == (s.commands[s.phase.command] == BeginTurn))
    && (forall t :: t in s.acks ==> t < s.taken)
    && (!s.cancelled ==> Begun(s, s.turn) && NoTurnBetween(s, s.turn, s.taken))
    && (s.phase.Handling? && s.phase.live ==>
        s.turn <= s.phase.callback && Begun(s, s.turn) && NoTurnBetween(s, s.turn, s.phase.callback))
  }

  ghost predicate EffectOk(s: Services, e: Effect) {
    e.turn <= e.callback < s.taken && Begun(s, e.turn) && NoTurnBetween(s, e.turn, e.callback)
  }

  ghost predicate EffectsOk(s: Services) {
    forall k :: 0 <= k < |s.effects| ==> EffectOk(s, s.effects[k])
  }

  ghost predicate ProcessOk(s: Services, p: Process) {
    && p.callback < s.taken
    && (p.done == Some(true) ==> p.gone) && (p.gone ==> p.done.Some?)
    && (p.joined ==> p.done.Some?)
    && (p.joined && !s.fatal && s.processesOk ==> p.done == Some(true))
  }

  ghost predicate ReplyOk(s: Services, c: nat)
    requires c in s.replies
  {
    && c < s.taken
    && (c in s.joinedReplies ==> s.replies[c] != Pending)
    && (s.replies[c] == Refused ==> s.fatal)
  }

  /** A callback that was taken and is not being executed any more. */
  predicate Owed(s: Services, c: nat)
    requires c < |s.commands|
  {
    s.commands[c] == Callback && !(s.phase.Handling? && s.phase.callback == c)
  }

  ghost predicate TasksOk(s: Services) {
    && (forall p :: 0 <= p < |s.processes| ==> ProcessOk(s, s.processes[p]))
    && (forall c :: c in s.replies ==> ReplyOk(s, c))
    && (!s.phase.Stopped? ==> forall c :: 0 <= c < Min(s.taken, |s.commands|) && Owed(s, c) ==> c in s.replies)
  }

  /** Nothing of the callbacks before command `t` is still going on. */
  ghost predicate Quiesced(s: Services, t: nat)
    requires t <= |s.commands|
  {
    && (forall p :: 0 <= p < |s.processes| && s.processes[p].callback < t ==> s.processes[p].gone)
    && (forall c :: 0 <= c < t && s.commands[c] == Callback ==> c in s.replies && s.replies[c] == Handed)
  }

  /** Every task of the callbacks before command `t` has ended, well or not. */
  ghost predicate Settled(s: Services, t: nat)
    requires t <= |s.commands|
  {
    && (forall p :: 0 <= p < |s.processes| && s.processes[p].callback < t ==> s.processes[p].joined)
    && (forall c :: 0 <= c < t && s.commands[c] == Callback ==> c in s.replies && s.replies[c] != Pending)
  }

  ghost predicate AcksOk(s: Services) {
    forall t :: t in s.acks && s.acks[t] ==> t < |s.commands| && AckOk(s, t)
  }

  /** Until a failure is raised, ended means ended well. */
  ghost predicate AckOk(s: Services, t: nat)
    requires t <= |s.commands|
  {
    Settled(s, t) && (!s.fatal ==> Quiesced(s, t))
  }

  ghost predicate Inv(s: Services) { PhaseOk(s) && EffectsOk(s) && TasksOk(s) && AcksOk(s) }

  // ---------------------------------------------------------------- preservation

  /** A step that leaves acknowledgements, replies and processes alone keeps what concerns processes and replies. */
  lemma SameTasks(s: Services, s': Services)
    requires TasksOk(s) && s'.processes == s.processes && s'.processesOk == s.processesOk
    requires s'.replies == s.replies && s'.joinedReplies == s.joinedReplies
    requires s.taken <= s'.taken && (s.fatal ==> s'.fatal)
    requires !s'.phase.Stopped? ==>
               && !s.phase.Stopped? && s.commands <= s'.commands && s.taken <= |s.commands|
               && forall c :: 0 <= c < Min(s'.taken, |s'.commands|) && Owed(s', c) ==> c < s.taken && Owed(s, c)
    ensures TasksOk(s')
  {
    forall p | 0 <= p < |s'.processes| ensures ProcessOk(s', s'.processes[p]) {
      assert ProcessOk(s, s.processes[p]);
    }
    forall c | c in s'.replies ensures ReplyOk(s', c) {
      assert ReplyOk(s, c);
    }
  }

  /** Acknowledgements stay sound while what ended stays ended; a new one may only be a failure. */
  lemma SameAcks(s: Services, s': Services)
    requires AcksOk(s) && s.commands <= s'.commands && (s.fatal ==> s'.fatal)
    requires |s'.processes| == |s.processes|
    requires forall p :: 0 <= p < |s.processes| ==>
      && s'.processes[p].callback == s.processes[p].callback && s'.processes[p].gone == s.processes[p].gone
      && (s.processes[p].joined ==> s'.processes[p].joined)
    requires forall c :: c in s.replies && s.replies[c] != Pending ==> c in s'.replies && s'.replies[c] == s.replies[c]
    requires forall t: nat :: Succeeded(s', t) ==> Succeeded(s, t)
    ensures AcksOk(s')
  {
    forall t | t in s'.acks && s'.acks[t] ensures t < |s'.commands| && AckOk(s', t) {
      assert Succeeded(s', t) && Succeeded(s, t) && AckOk(s, t);
    }
  }

  lemma SameEffects(s: Services, s': Services)
    requires EffectsOk(s) && s.commands <= s'.commands && s.taken <= s'.taken && s'.effects == s.effects
    requires forall t: nat :: Succeeded(s', t) == Succeeded(s, t)
    ensures EffectsOk(s')
  {
    forall k | 0 <= k < |s'.effects| ensures EffectOk(s', s'.effects[k]) {
      assert EffectOk(s, s.effects[k]);
    }
  }

  lemma TakeCallbackKeeps(s: Services)
    requires Inv(s) && Enabled(s, Take) && s.commands[s.taken] == Callback
    ensures Inv(Taken(s))
  {
    var s' := Taken(s);
    assert forall t: nat :: Succeeded(s', t) == Succeeded(s, t);
    SameTasks(s, s');
    SameAcks(s, s');
    SameEffects(s, s');
  }

  lemma TakeTurnKeeps(s: Services)
    requires Inv(s) && Enabled(s, Take) && s.commands[s.taken] != Callback
    ensures Inv(Taken(s))
  {
    var s' := Taken(s);
    assert forall t: nat :: Succeeded(s', t) == Succeeded(s, t);
    SameTasks(s, s');
    SameAcks(s, s');
    SameEffects(s, s');
  }

  lemma ActingKeepsEffects(s: Services, a: CallbackMove)
    requires Inv(s) && Enabled(s, Callbacks(a)) && !a.Finish?
    ensures EffectsOk(CallbackStep(s, a))
  {
    var s' := CallbackStep(s, a);
    assert s'.effects == s.effects + [Effect(s.phase.callback, s.turn)];
    assert forall t: nat :: Succeeded(s', t) == Succeeded(s, t);
    forall k | 0 <= k < |s'.effects| ensures EffectOk(s', s'.effects[k]) {
      assert EffectOk(s, s'.effects[k]);
    }
  }

  lemma ActingKeepsTasks(s: Services, a: CallbackMove)
    requires Inv(s) && Enabled(s, Callbacks(a)) && !a.Finish?
    ensures TasksOk(CallbackStep(s, a))
  {
    var s' := CallbackStep(s, a);
    forall p | 0 <= p < |s'.processes| ensures ProcessOk(s', s'.processes[p]) {
      assert p < |s.processes| ==> ProcessOk(s, s.processes[p]);
    }
    forall c | c in s'.replies ensures ReplyOk(s', c) {
      assert ReplyOk(s, c);
    }
  }

  lemma ActingKeepsAcks(s: Services, a: CallbackMove)
    requires Inv(s) && Enabled(s, Callbacks(a)) && !a.Finish?
    ensures AcksOk(CallbackStep(s, a))
  {
    var s' := CallbackStep(s, a);
    forall t | t in s'.acks && s'.acks[t] ensures t < |s'.commands| && AckOk(s', t) {
      assert AckOk(s, t);
    }
  }

  lemma CallbackKeeps(s: Services, a: CallbackMove)
    requires Inv(s) && Enabled(s, Callbacks(a)) && !a.Finish?
    ensures Inv(CallbackStep(s, a))
  {
    ActingKeepsEffects(s, a);
    ActingKeepsTasks(s, a);
    ActingKeepsAcks(s, a);
    assert forall t: nat :: Succeeded(CallbackStep(s, a), t) == Succeeded(s, t);
  }

  lemma FinishKeeps(s: Services)
    requires Inv(s) && Enabled(s, Callbacks(Finish))
    ensures Inv(CallbackStep(s, Finish))
  {
    var s' := CallbackStep(s, Finish);
    assert forall t: nat :: Succeeded(s', t) == Succeeded(s, t);
    forall p | 0 <= p < |s'.processes| ensures ProcessOk(s', s'.processes[p]) {
      assert ProcessOk(s, s.processes[p]);
    }
    forall c | c in s'.replies ensures ReplyOk(s', c) {
      assert c in s.replies ==> ReplyOk(s, c);
    }
    forall c | 0 <= c < Min(s'.taken, |s'.commands|) && Owed(s', c) ensures c in s'.replies {
      assert c != s.phase.callback ==> Owed(s, c);
    }
    SameAcks(s, s');
    SameEffects(s, s');
  }

  lemma EndedTasks(s: Services, a: TaskMove)
    requires Inv(s) && Enabled(s, Tasks(a))
    ensures TasksOk(TaskStep(s, a))
  {
    var s' := TaskStep(s, a);
    forall p | 0 <= p < |s'.processes| ensures ProcessOk(s', s'.processes[p]) {
      assert ProcessOk(s, s.processes[p]);
    }
    forall c | c in s'.replies ensures ReplyOk(s', c) {
      assert ReplyOk(s, c);
    }
    forall c | 0 <= c < Min(s'.taken, |s'.commands|) && Owed(s', c) && !s.phase.Stopped? ensures c in s'.replies {
      assert Owed(s, c);
    }
  }

  lemma TaskKeeps(s: Services, a: TaskMove)
    requires Inv(s) && Enabled(s, Tasks(a))
    ensures Inv(TaskStep(s, a))
  {
    var s' := TaskStep(s, a);
    EndedTasks(s, a);
    assert forall t: nat :: Succeeded(s', t) == Succeeded(s, t);
    SameEffects(s, s');
    forall t | t in s'.acks && s'.acks[t] ensures t < |s'.commands| && AckOk(s', t) {
      assert AckOk(s, t);
    }
  }

  lemma RetireFailedKeeps(s: Services)
    requires PhaseOk(s) && EffectsOk(s) && TasksOk(s.(fatal := true)) && AcksOk(s) && s.phase.Retiring?
    ensures Inv(RetireFailed(s))
  {
    var s' := RetireFailed(s);
    assert forall t: nat :: Succeeded(s', t) == Succeeded(s, t);
    SameTasks(s.(fatal := true), s');
    SameAcks(s, s');
    SameEffects(s, s');
  }

  /** A process that ended badly fails the retirement that joins it, or marks the actor for the next one. */
  lemma JoinedTasks(s: Services, p: nat, s': Services)
    requires TasksOk(s) && p < |s.processes| && s.processes[p].done.Some? && s.taken <= |s.commands|
    requires s' == s.(processes := s.processes[p := s.processes[p].(joined := true)], fatal := s'.fatal,
                      processesOk := s'.processesOk)
    requires s.fatal ==> s'.fatal
    requires s'.processesOk ==> s.processesOk
    requires s.processes[p].done.value || s'.fatal || !s'.processesOk
    ensures TasksOk(s')
  {
    assert s.processes[p].done == Some(s.processes[p].done.value);
    forall q | 0 <= q < |s'.processes| ensures ProcessOk(s', s'.processes[q]) {
      assert ProcessOk(s, s.processes[q]);
    }
    forall c | c in s'.replies ensures ReplyOk(s', c) {
      assert ReplyOk(s, c);
    }
    forall c | 0 <= c < Min(s'.taken, |s'.commands|) && Owed(s', c) && !s.phase.Stopped? ensures c in s'.replies {
      assert Owed(s, c);
    }
  }

  lemma JoinedOkKeeps(s: Services, p: nat)
    requires Inv(s) && Enabled(s, JoinProcess(p)) && (s.processes[p].done == Some(true) || s.phase.Ready?)
    ensures Inv(ProcessJoined(s, p))
  {
    var s' := ProcessJoined(s, p);
    JoinedTasks(s, p, s');
    assert forall t: nat :: Succeeded(s', t) == Succeeded(s, t);
    SameAcks(s, s');
    SameEffects(s, s');
  }

  lemma JoinProcessKeeps(s: Services, p: nat)
    requires Inv(s) && Enabled(s, JoinProcess(p))
    ensures Inv(ProcessJoined(s, p))
  {
    if s.processes[p].done.value || s.phase.Ready? {
      assert s.processes[p].done == Some(s.processes[p].done.value);
      JoinedOkKeeps(s, p);
    } else {
      var joined := s.(processes := s.processes[p := s.processes[p].(joined := true)]);
      assert forall t: nat :: Succeeded(joined, t) == Succeeded(s, t);
      JoinedTasks(s, p, joined.(fatal := true));
      SameAcks(s, joined);
      RetireFailedKeeps(joined);
    }
  }

  lemma JoinReplyKeeps(s: Services, c: nat)
    requires Inv(s) && Enabled(s, JoinReply(c))
    ensures Inv(s.(joinedReplies := s.joinedReplies + {c}))
  {
    var s' := s.(joinedReplies := s.joinedReplies + {c});
    assert forall t: nat :: Succeeded(s', t) == Succeeded(s, t);
    forall p | 0 <= p < |s'.processes| ensures ProcessOk(s', s'.processes[p]) {
      assert ProcessOk(s, s.processes[p]);
    }
    forall d | d in s'.replies ensures ReplyOk(s', d) {
      assert ReplyOk(s, d);
    }
    forall d | 0 <= d < Min(s'.taken, |s'.commands|) && Owed(s', d) ensures d in s'.replies {
      assert Owed(s, d);
    }
  }

  /** With every task joined, all that came before the command has ended. */
  lemma RetiredSettles(s: Services)
    requires PhaseOk(s) && TasksOk(s) && s.phase.Retiring? && AllJoined(s)
    ensures AckOk(s, s.phase.command)
  {
    forall p | 0 <= p < |s.processes| ensures !s.fatal ==> s.processes[p].gone {
      assert ProcessOk(s, s.processes[p]);
    }
    forall c | 0 <= c < s.phase.command && s.commands[c] == Callback ensures c in s.replies && s.replies[c] != Pending {
      assert Owed(s, c);
      assert ReplyOk(s, c);
    }
    forall c | c in s.replies && !s.fatal ensures s.replies[c] != Refused {
      assert ReplyOk(s, c);
    }
  }

  lemma CompleteTasks(s: Services, parentCancelled: bool)
    requires Inv(s) && Enabled(s, Retires(Complete(parentCancelled))) && TerminalsOk(s)
    ensures TasksOk(Retired(s, parentCancelled))
  {
    var s' := Retired(s, parentCancelled);
    forall p | 0 <= p < |s'.processes| ensures ProcessOk(s', s'.processes[p]) {
      assert ProcessOk(s, s.processes[p]);
    }
    forall c | c in s'.replies ensures ReplyOk(s', c) {
      assert ReplyOk(s, c);
    }
    forall c | 0 <= c < Min(s'.taken, |s'.commands|) && Owed(s', c) ensures c in s'.replies {
      assert Owed(s, c);
    }
  }

  lemma CompleteAcks(s: Services, parentCancelled: bool)
    requires Inv(s) && Enabled(s, Retires(Complete(parentCancelled))) && TerminalsOk(s)
    ensures AcksOk(Retired(s, parentCancelled))
  {
    var s' := Retired(s, parentCancelled);
    RetiredSettles(s);
    forall t | t in s'.acks && s'.acks[t] ensures t < |s'.commands| && AckOk(s', t) {
      assert AckOk(s, t);
    }
  }

  lemma CompletePhase(s: Services, parentCancelled: bool)
    requires Inv(s) && Enabled(s, Retires(Complete(parentCancelled))) && TerminalsOk(s)
    ensures PhaseOk(Retired(s, parentCancelled)) && EffectsOk(Retired(s, parentCancelled))
  {
    var s' := Retired(s, parentCancelled);
    assert forall t: nat :: t != s.phase.command ==> Succeeded(s', t) == Succeeded(s, t);
    forall k | 0 <= k < |s'.effects| ensures EffectOk(s', s'.effects[k]) {
      assert EffectOk(s, s.effects[k]);
    }
  }

  lemma CompleteKeeps(s: Services, parentCancelled: bool)
    requires Inv(s) && Enabled(s, Retires(Complete(parentCancelled)))
    ensures Inv(Retired(s, parentCancelled))
  {
    if TerminalsOk(s) {
      CompletePhase(s, parentCancelled);
      CompleteTasks(s, parentCancelled);
      CompleteAcks(s, parentCancelled);
    } else {
      SameTasks(s, s.(fatal := true));
      RetireFailedKeeps(s);
    }
  }

  lemma SendKeeps(s: Services, command: Command)
    requires Inv(s)
    ensures Inv(s.(commands := s.commands + [command]))
  {
    var s' := s.(commands := s.commands + [command]);
    assert forall t: nat :: Succeeded(s', t) == Succeeded(s, t);
    SameTasks(s, s');
    SameAcks(s, s');
    SameEffects(s, s');
  }

  lemma OtherKeeps(s: Services, s': Services)
    requires Inv(s)
    requires s' == s.(cancelled := true) || s' == s.(fatal := true) || s' == s.(phase := Stopped)
    ensures Inv(s')
  {
    assert forall t: nat :: Succeeded(s', t) == Succeeded(s, t);
    SameTasks(s, s');
    SameAcks(s, s');
    SameEffects(s, s');
  }

  lemma StepKeeps(s: Services, a: Action)
    requires Inv(s) && Enabled(s, a)
    ensures Inv(Step(s, a))
  {
    match a
    case Take =>
      if s.commands[s.taken] == Callback {
        TakeCallbackKeeps(s);
      } else {
        TakeTurnKeeps(s);
      }
    case Callbacks(Finish) => FinishKeeps(s);
    case Callbacks(move) => CallbackKeeps(s, move);
    case Tasks(task) => TaskKeeps(s, task);
    case JoinProcess(p) => JoinProcessKeeps(s, p);
    case JoinReply(c) => JoinReplyKeeps(s, c);
    case Retires(Complete(parentCancelled)) => CompleteKeeps(s, parentCancelled);
    case Retires(_) =>
      SameTasks(s, s.(fatal := true));
      RetireFailedKeeps(s);
    case Send(command) => SendKeeps(s, command);
    case _ => OtherKeeps(s, Step(s, a));
  }

  lemma {:induction false} EveryStateOk(trace: seq<Services>, actions: seq<Action>, i: nat)
    requires Execution(trace, actions) && i < |trace|
    ensures Inv(trace[i])
  {
    if i > 0 {
      EveryStateOk(trace, actions, i - 1);
      StepKeeps(trace[i - 1], actions[i - 1]);
    }
  }

  // ---------------------------------------------------------------- what it means

  /**
   Every effect belongs to the turn its callback was queued in: after the begin that was acknowledged for that
   turn, and with no successfully acknowledged turn command in between. So a callback queued before a begin never
   runs under it, and one queued between a successful end and the next begin has no effect at all.
   */
  lemma TurnIsolation(trace: seq<Services>, actions: seq<Action>, i: nat, k: nat)
    requires Execution(trace, actions) && i < |trace| && k < |trace[i].effects|
    ensures var e := trace[i].effects[k];
      && 1 <= e.turn <= e.callback && Begun(trace[i], e.turn)
      && forall t: nat :: e.turn <= t < e.callback ==> !Succeeded(trace[i], t)
  {
    EveryStateOk(trace, actions, i);
    assert EffectOk(trace[i], trace[i].effects[k]);
  }
}
