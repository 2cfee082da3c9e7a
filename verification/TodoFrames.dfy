/**
 What the todo correlation does, told from the frames themselves: their direction, method, id, session and list.

 An id waits for as many responses as requests came under it. A list is reported when the one request that came under
 its id since the id last waited for nothing is answered with acceptance.
 */
module TodoFrames {
  import opened Prelude
  import opened SourceLog
  import opened TodoProjection
  import opened TodoLog
  import CatchUp

  // ---------------------------------------------------------------- the frames that count

  /** Cursors are ordered by generation and then by sequence. */
  predicate Newer<T>(e: Event<Message<T>>, last: Option<Cursor>) {
    e.Source? && (last.None? || last.value.0 < e.generation
                  || (last.value.0 == e.generation && last.value.1 < e.frame.sequence))
  }

  function CursorAfter<T>(last: Option<Cursor>, events: seq<Event<Message<T>>>): Option<Cursor> {
    if events == [] then last
    else
      var n := |events| - 1;
      var before := CursorAfter(last, events[..n]);
      if Newer(events[n], before) then Some((events[n].generation, events[n].frame.sequence)) else before
  }

  /** The frames of this run in one generation, each new when it came and none of them replayed. */
  function Current<T>(runId: string, last: Option<Cursor>, events: seq<Event<Message<T>>>, generation: nat)
    : (frames: seq<Event<Message<T>>>)
    ensures forall i :: 0 <= i < |frames| ==> frames[i].Source?
  {
    if events == [] then []
    else
      var n := |events| - 1;
      var before, e := Current(runId, last, events[..n], generation), events[n];
      if Newer(e, CursorAfter(last, events[..n])) && e.generation == generation && e.runId == runId && !e.replay
      then before + [e] else before
  }

  // ---------------------------------------------------------------- what a frame is

  predicate Asks<R, T, U>(config: Config<R, T, U>, e: Event<Message<T>>, key: string) {
    && e.Source? && config.enabled && config.session.Some?
    && e.frame.direction == Incoming && e.frame.payload.verb.Named? && e.frame.payload.id == Key(key)
  }

  predicate Replies<R, T, U>(config: Config<R, T, U>, e: Event<Message<T>>, key: string) {
    && e.Source? && config.enabled
    && e.frame.direction == Outgoing && e.frame.payload.verb == NoMethod && e.frame.payload.id == Key(key)
  }

  /** A request to show a well-formed list, for this session or for none in particular. */
  predicate AsksForTodos<R, T, U>(config: Config<R, T, U>, e: Event<Message<T>>, key: string) {
    && Asks(config, e, key) && e.frame.payload.verb == Named("cursor/update_todos")
    && e.frame.payload.params.Some?
    && var params := e.frame.payload.params.value;
    && (params.session == SessionField.Missing || params.session == Session(config.session.value))
    && params.todos.Some?
  }

  ghost predicate AsksTodos<R, T, U>(config: Config<R, T, U>, e: Event<Message<T>>, key: string, todos: T) {
    AsksForTodos(config, e, key) && e.frame.payload.params.value.todos == Some(todos)
  }

  /** How many requests under an id still wait for a response. */
  function Waiting<R, T, U>(config: Config<R, T, U>, frames: seq<Event<Message<T>>>, key: string): nat {
    if frames == [] then 0
    else
      var n := |frames| - 1;
      var before := Waiting(config, frames[..n], key);
      if Asks(config, frames[n], key) then before + 1
      else if Replies(config, frames[n], key) && before > 0 then before - 1
      else before
  }

  /** How many of them, answered or not since the id last waited for nothing, showed a list. */
  function TodosUnder<R, T, U>(config: Config<R, T, U>, frames: seq<Event<Message<T>>>, key: string): nat {
    if frames == [] then 0
    else
      var n := |frames| - 1;
      var before := TodosUnder(config, frames[..n], key);
      if Asks(config, frames[n], key) then before + (if AsksForTodos(config, frames[n], key) then 1 else 0)
      else if Replies(config, frames[n], key) && Waiting(config, frames[..n], key) <= 1 then 0
      else before
  }

  /** How many requests wait under all ids together. */
  function AllWaiting<R, T, U>(config: Config<R, T, U>, frames: seq<Event<Message<T>>>): int
    requires forall i :: 0 <= i < |frames| ==> frames[i].Source?
  {
    if frames == [] then 0
    else
      var n := |frames| - 1;
      var before, id := AllWaiting(config, frames[..n]), frames[n].frame.payload.id;
      if !id.Key? then before
      else if Asks(config, frames[n], id.text) then before + 1
      else if Replies(config, frames[n], id.text) && Waiting(config, frames[..n], id.text) > 0 then before - 1
      else before
  }

  /** And how many lists are held or ambiguous under all ids together. */
  function AllTodos<R, T, U>(config: Config<R, T, U>, frames: seq<Event<Message<T>>>): int
    requires forall i :: 0 <= i < |frames| ==> frames[i].Source?
  {
    if frames == [] then 0
    else
      var n := |frames| - 1;
      var before, id := AllTodos(config, frames[..n]), frames[n].frame.payload.id;
      if !id.Key? then before
      else if AsksForTodos(config, frames[n], id.text) then before + 1
      else if Replies(config, frames[n], id.text) && Waiting(config, frames[..n], id.text) == 1
      then before - TodosUnder(config, frames[..n], id.text)
      else before
  }

  /** After these frames, one more request is more than is tracked. */
  predicate TooMuch<R, T, U>(config: Config<R, T, U>, frames: seq<Event<Message<T>>>, e: Event<Message<T>>)
    requires e.Source? && forall i :: 0 <= i < |frames| ==> frames[i].Source?
  {
    && e.frame.payload.id.Key?
    && var key := e.frame.payload.id.text;
    && Asks(config, e, key)
    && (Utf8Length(key) > 128 || AllWaiting(config, frames) >= 128
        || (AsksForTodos(config, e, key) && AllTodos(config, frames) >= 16))
  }

  predicate EverTooMuch<R, T, U>(config: Config<R, T, U>, frames: seq<Event<Message<T>>>)
    requires forall i :: 0 <= i < |frames| ==> frames[i].Source?
  {
    exists j :: 0 <= j < |frames| && TooMuch(config, frames[..j], frames[j])
  }

  /** Frame `j` is the one request under its id since the id waited for nothing, and it is still unanswered. */
  ghost predicate Lone<R, T, U>(config: Config<R, T, U>, frames: seq<Event<Message<T>>>, j: nat, key: string, todos: T)
  {
    && j < |frames| && AsksTodos(config, frames[j], key, todos)
    && Waiting(config, frames[..j], key) == 0
    && forall i :: j < i < |frames| ==> !Asks(config, frames[i], key) && !Replies(config, frames[i], key)
  }

  // ---------------------------------------------------------------- frames and moves

  function Moves<R, T, U>(config: Config<R, T, U>, frames: seq<Event<Message<T>>>): seq<Move<T>>
    requires forall i :: 0 <= i < |frames| ==> frames[i].Source?
  {
    seq(|frames|, i requires 0 <= i < |frames| => Classify(config, frames[i].frame))
  }

  /** The classification, on the frame's own fields. */
  lemma ClassifiesExactly<R, T, U>(config: Config<R, T, U>, e: Event<Message<T>>, key: string, todos: T)
    requires e.Source?
    ensures var move := Classify(config, e.frame);
      && (move.Request? && move.key == key <==> Asks(config, e, key))
      && (move.Response? && move.key == key <==> Replies(config, e, key))
      && (move == Request(key, Some(todos)) <==> AsksTodos(config, e, key, todos))
      && (move.Request? && move.key == key && move.todo.Some? <==> AsksForTodos(config, e, key))
      && (Replies(config, e, key) ==> move.accepted == e.frame.payload.accepted)
      && !(Asks(config, e, key) && Replies(config, e, key))
  {
  }

  lemma {:induction false} WaitingIsOutstanding<R, T, U>(config: Config<R, T, U>, frames: seq<Event<Message<T>>>,
                                                         key: string)
    requires forall i :: 0 <= i < |frames| ==> frames[i].Source?
    ensures Outstanding(Moves(config, frames), key) == Waiting(config, frames, key)
  {
    if frames != [] {
      var n := |frames| - 1;
      WaitingIsOutstanding(config, frames[..n], key);
      assert Moves(config, frames)[..n] == Moves(config, frames[..n]);
      FlightSize(Moves(config, frames[..n]), key);
    }
  }

  lemma LoneIsAlone<R, T, U>(config: Config<R, T, U>, frames: seq<Event<Message<T>>>, j: nat, key: string, todos: T)
    requires forall i :: 0 <= i < |frames| ==> frames[i].Source?
    ensures Lone(config, frames, j, key, todos) <==> AloneSince(Moves(config, frames), j, key, todos)
  {
    if j < |frames| {
      assert Moves(config, frames)[..j] == Moves(config, frames[..j]);
      WaitingIsOutstanding(config, frames[..j], key);
      forall i | 0 <= i < |frames| ensures Touches(Moves(config, frames)[i], key) <==>
                                           Asks(config, frames[i], key) || Replies(config, frames[i], key)
      {
        ClassifiesExactly(config, frames[i], key, todos);
      }
      ClassifiesExactly(config, frames[j], key, todos);
    }
  }

  lemma {:induction false} CursorIsLast<R, T, U>(config: Config<R, T, U>, start: State<R, T>,
                                                 events: seq<Event<Message<T>>>)
    ensures Feed(config, start, events).last == CursorAfter(start.last, events)
  {
    if events != [] {
      CursorIsLast(config, start, events[..|events| - 1]);
    }
  }

  lemma NewerExactly<R, T>(s: State<R, T>, e: Event<Message<T>>)
    ensures Newer(e, s.last) <==> !CatchUp.AlreadySeen(s, e)
  {
  }

  lemma {:induction false} CurrentHasNone<T>(runId: string, last: Option<Cursor>, events: seq<Event<Message<T>>>,
                                             generation: nat)
    requires CursorAfter(last, events).None? || CursorAfter(last, events).value.0 < generation
    ensures Current(runId, last, events, generation) == []
  {
    if events != [] {
      CurrentHasNone(runId, last, events[..|events| - 1], generation);
    }
  }

  /** The log is the moves of the frames that count, in the generation of the last new frame. */
  lemma {:induction false} LogIsCurrent<R, T, U>(config: Config<R, T, U>, start: State<R, T>,
                                                 events: seq<Event<Message<T>>>, generation: nat)
    requires start.inner.0 == Empty()
    requires CursorAfter(start.last, events).None? || CursorAfter(start.last, events).value.0 <= generation
    ensures var s := Feed(config, start, events);
      KeptLog(s.last, TodoLog.Log(config, start, events), generation)
      == Moves(config, Current(config.runId, start.last, events, generation))
  {
    CursorIsLast(config, start, events);
    if events != [] {
      var n := |events| - 1;
      var before, e := events[..n], events[n];
      CursorIsLast(config, start, before);
      NewerExactly(Feed(config, start, before), e);
      LogIsCurrent(config, start, before, generation);
      var frames := Current(config.runId, start.last, before, generation);
      if Newer(e, CursorAfter(start.last, before)) && e.generation == generation {
        if Ours(config, e) {
          assert Moves(config, frames + [e]) == Moves(config, frames) + [Classify(config, e.frame)];
        }
      } else if Newer(e, CursorAfter(start.last, before)) {
        CurrentHasNone(config.runId, start.last, events, generation);
      }
    }
  }

  // ---------------------------------------------------------------- the totals

  lemma FlightNext<T>(log: seq<Move<T>>, move: Move<T>, key: string)
    ensures FlightOf(log + [move], key) == After(FlightOf(log, key), move, key)
  {
    assert (log + [move])[..|log|] == log;
  }

  /** How many lists the flight of an id has seen, after one more move. */
  lemma AfterTodos<T>(flight: Flight<T>, move: Move<T>, key: string)
    requires flight.outstanding == 0 ==> flight.batch == []
    ensures Todos(After(flight, move, key).batch)
         == if !Touches(move, key) then Todos(flight.batch)
            else if move.Request? then Todos(flight.batch) + (if move.todo.Some? then 1 else 0)
            else if flight.outstanding <= 1 then 0 else Todos(flight.batch)
  {
    if Touches(move, key) && move.Request? {
      BatchAppend(flight.batch, move.todo);
    }
  }

  lemma KindsExactly<R, T, U>(config: Config<R, T, U>, e: Event<Message<T>>, key: string)
    requires e.Source?
    ensures var move := Classify(config, e.frame);
      && (Touches(move, key) && move.Request? <==> Asks(config, e, key))
      && (Touches(move, key) && move.Response? <==> Replies(config, e, key))
      && (Touches(move, key) && move.Request? && move.todo.Some? <==> AsksForTodos(config, e, key))
  {
  }

  lemma UnderNext<R, T, U>(config: Config<R, T, U>, frames: seq<Event<Message<T>>>, e: Event<Message<T>>, key: string)
    requires e.Source?
    ensures var move := Classify(config, e.frame);
      TodosUnder(config, frames + [e], key)
      == if !Touches(move, key) then TodosUnder(config, frames, key)
         else if move.Request? then TodosUnder(config, frames, key) + (if move.todo.Some? then 1 else 0)
         else if Waiting(config, frames, key) <= 1 then 0 else TodosUnder(config, frames, key)
  {
    KindsExactly(config, e, key);
    assert (frames + [e])[..|frames|] == frames;
  }

  lemma {:induction false} UnderIsBatch<R, T, U>(config: Config<R, T, U>, frames: seq<Event<Message<T>>>, key: string)
    requires forall i :: 0 <= i < |frames| ==> frames[i].Source?
    ensures Todos(FlightOf(Moves(config, frames), key).batch) == TodosUnder(config, frames, key)
  {
    if frames != [] {
      var n := |frames| - 1;
      var before := Moves(config, frames[..n]);
      UnderIsBatch(config, frames[..n], key);
      WaitingIsOutstanding(config, frames[..n], key);
      FlightSize(before, key);
      var move := Classify(config, frames[n].frame);
      assert Moves(config, frames) == before + [move];
      FlightNext(before, move, key);
      assert frames == frames[..n] + [frames[n]];
      UnderNext(config, frames[..n], frames[n], key);
      AfterTodos(FlightOf(before, key), move, key);
    }
  }

  /** Until saturation the two counters are the totals, and the flag is set exactly after a request too many. */
  ghost predicate Counting<R, T, U>(config: Config<R, T, U>, c: Callbacks<T>, frames: seq<Event<Message<T>>>) {
    && (forall i :: 0 <= i < |frames| ==> frames[i].Source?)
    && FollowsLog(c, Moves(config, frames))
    && (!c.saturated ==> c.rpcPending == AllWaiting(config, frames) && c.todoPending == AllTodos(config, frames))
    && (c.saturated <==> EverTooMuch(config, frames))
  }

  lemma NextTotals<R, T, U>(config: Config<R, T, U>, frames: seq<Event<Message<T>>>, e: Event<Message<T>>)
    requires e.Source? && forall i :: 0 <= i < |frames| ==> frames[i].Source?
    ensures (frames + [e])[..|frames|] == frames
        && Moves(config, frames + [e]) == Moves(config, frames) + [Classify(config, e.frame)]
    ensures EverTooMuch(config, frames + [e]) <==> EverTooMuch(config, frames) || TooMuch(config, frames, e)
  {
    var all := frames + [e];
    assert all[..|frames|] == frames && all[|frames|] == e;
    forall j | 0 <= j < |frames| ensures all[..j] == frames[..j] && all[j] == frames[j] {
    }
  }

  /** A request overflows exactly when it is too much by the frames. */
  lemma OverflowsExactly<R, T, U>(config: Config<R, T, U>, c: Callbacks<T>, frames: seq<Event<Message<T>>>,
                                  e: Event<Message<T>>)
    requires Counting(config, c, frames) && !c.saturated && e.Source?
    ensures var move := Classify(config, e.frame);
      move.Request? && Overflows(c, move.key, move.todo) <==> TooMuch(config, frames, e)
  {
  }

  lemma AskedCounts<R, T, U>(config: Config<R, T, U>, c: Callbacks<T>, frames: seq<Event<Message<T>>>,
                             e: Event<Message<T>>)
    requires Counting(config, c, frames) && !c.saturated && e.Source? && Classify(config, e.frame).Request?
    requires !TooMuch(config, frames, e)
    ensures var move := Classify(config, e.frame); var c' := Asked(c, move.key, move.todo);
      && !c'.saturated && c'.rpcPending == AllWaiting(config, frames + [e])
      && c'.todoPending == AllTodos(config, frames + [e])
  {
    NextTotals(config, frames, e);
    OverflowsExactly(config, c, frames, e);
  }

  lemma AnsweredCounts<R, T, U>(config: Config<R, T, U>, c: Callbacks<T>, frames: seq<Event<Message<T>>>,
                                e: Event<Message<T>>)
    requires Counting(config, c, frames) && !c.saturated && e.Source? && Classify(config, e.frame).Response?
    ensures var c' := Answered(c, Classify(config, e.frame).key).0;
      && !c'.saturated && c'.rpcPending == AllWaiting(config, frames + [e])
      && c'.todoPending == AllTodos(config, frames + [e])
  {
    var key := Classify(config, e.frame).key;
    NextTotals(config, frames, e);
    WaitingIsOutstanding(config, frames, key);
    UnderIsBatch(config, frames, key);
    assert Follows(c, key, FlightOf(Moves(config, frames), key));
  }

  lemma IdleCounts<R, T, U>(config: Config<R, T, U>, frames: seq<Event<Message<T>>>, e: Event<Message<T>>)
    requires e.Source? && forall i :: 0 <= i < |frames| ==> frames[i].Source?
    requires Classify(config, e.frame).Neither?
    ensures AllWaiting(config, frames + [e]) == AllWaiting(config, frames)
    ensures AllTodos(config, frames + [e]) == AllTodos(config, frames)
  {
    NextTotals(config, frames, e);
  }

  lemma MovedTotals<R, T, U>(config: Config<R, T, U>, c: Callbacks<T>, frames: seq<Event<Message<T>>>,
                             e: Event<Message<T>>)
    requires Counting(config, c, frames) && !c.saturated && e.Source?
    ensures var c' := Moved<T, U>(c, Classify(config, e.frame), e.generation, e.frame.sequence).0;
      && (c'.saturated <==> TooMuch(config, frames, e))
      && (!c'.saturated ==>
            c'.rpcPending == AllWaiting(config, frames + [e]) && c'.todoPending == AllTodos(config, frames + [e]))
  {
    OverflowsExactly(config, c, frames, e);
    match Classify(config, e.frame)
    case Neither => IdleCounts(config, frames, e);
    case Response(_, _) => AnsweredCounts(config, c, frames, e);
    case Request(key, todo) =>
      if !TooMuch(config, frames, e) {
        AskedCounts(config, c, frames, e);
      }
  }

  lemma MovedCounts<R, T, U>(config: Config<R, T, U>, c: Callbacks<T>, frames: seq<Event<Message<T>>>,
                             e: Event<Message<T>>)
    requires Counting(config, c, frames) && e.Source?
    ensures Counting(config, Moved<T, U>(c, Classify(config, e.frame), e.generation, e.frame.sequence).0, frames + [e])
  {
    var move := Classify(config, e.frame);
    NextTotals(config, frames, e);
    MovedFollows<T, U>(c, Moves(config, frames), move, e.generation, e.frame.sequence);
    if c.saturated {
      SaturationStays<T, U>(c, move, e.generation, e.frame.sequence);
    } else {
      MovedTotals(config, c, frames, e);
    }
  }

  /** In every run, for the generation of any frame that may come next. */
  lemma {:induction false} EveryStateCounts<R, T, U>(config: Config<R, T, U>, start: State<R, T>,
                                                     events: seq<Event<Message<T>>>, generation: nat)
    requires start.inner.0 == Empty()
    requires CursorAfter(start.last, events).None? || CursorAfter(start.last, events).value.0 <= generation
    ensures var s := Feed(config, start, events);
      Counting(config, Carried(s.inner.0, s.last, generation), Current(config.runId, start.last, events, generation))
  {
    EmptySound<T>();
    CursorIsLast(config, start, events);
    if events != [] {
      var n := |events| - 1;
      var before, e := events[..n], events[n];
      CursorIsLast(config, start, before);
      NewerExactly(Feed(config, start, before), e);
      EveryStateCounts(config, start, before, generation);
      if Newer(e, CursorAfter(start.last, before)) {
        if e.generation < generation {
          CurrentHasNone(config.runId, start.last, events, generation);
        } else if Ours(config, e) {
          var s := Feed(config, start, before);
          MovedCounts(config, Carried(s.inner.0, s.last, generation),
                      Current(config.runId, start.last, before, generation), e);
        }
      }
    }
  }

  // ---------------------------------------------------------------- the main results

  /** A new frame of this run that is no replay. */
  predicate OwnFrame<R, T, U>(config: Config<R, T, U>, start: State<R, T>, events: seq<Event<Message<T>>>,
                              e: Event<Message<T>>)
  {
    Newer(e, CursorAfter(start.last, events)) && e.runId == config.runId && !e.replay
  }

  /** What the projector says to one more frame after `events`. */
  function Says<R, T, U>(config: Config<R, T, U>, start: State<R, T>, events: seq<Event<Message<T>>>,
                         e: Event<Message<T>>): Option<Update<T, U>>
  {
    CatchUp.Apply(Projecting(config), Feed(config, start, events), e).1
  }

  /**
   As long as no request was too many: a list is reported exactly when a new frame of this run accepts the one request
   under its id since the id waited for nothing, and that request showed this list.
   */
  lemma ReportsExactly<R, T, U>(config: Config<R, T, U>, start: State<R, T>, events: seq<Event<Message<T>>>,
                                e: Event<Message<T>>, todos: T)
    requires start.inner.0 == Empty() && e.Source?
    requires !EverTooMuch(config, Current(config.runId, start.last, events, e.generation))
    ensures var frames := Current(config.runId, start.last, events, e.generation);
      Says(config, start, events, e) == Some(VendorTodos(e.generation, e.frame.sequence, todos)) <==>
        && OwnFrame(config, start, events, e) && e.frame.payload.accepted
        && exists key, j: nat :: Replies(config, e, key) && Lone(config, frames, j, key, todos)
  {
    CursorIsLast(config, start, events);
    NewerExactly(Feed(config, start, events), e);
    if OwnFrame(config, start, events, e) {
      EveryStateCounts(config, start, events, e.generation);
      LogIsCurrent(config, start, events, e.generation);
      EmitsExactly(config, start, events, e, todos);
      var frames := Current(config.runId, start.last, events, e.generation);
      forall key ensures (Classify(config, e.frame).Response? && Classify(config, e.frame).key == key <==>
                          Replies(config, e, key))
      {
        ClassifiesExactly(config, e, key, todos);
      }
      forall key, j: nat
        ensures Lone(config, frames, j, key, todos) <==> AloneSince(Moves(config, frames), j, key, todos)
      {
        LoneIsAlone(config, frames, j, key, todos);
      }
    } else {
      ApplyEmits(config, Feed(config, start, events), e, todos);
    }
  }

  /** The first request too many, and nothing else, raises the alarm. */
  lemma AlarmsExactly<R, T, U>(config: Config<R, T, U>, start: State<R, T>, events: seq<Event<Message<T>>>,
                               e: Event<Message<T>>)
    requires start.inner.0 == Empty() && e.Source?
    requires !EverTooMuch(config, Current(config.runId, start.last, events, e.generation))
    ensures var frames := Current(config.runId, start.last, events, e.generation);
      Says(config, start, events, e) == Some(Saturation(e.generation, e.frame.sequence)) <==>
      OwnFrame(config, start, events, e) && TooMuch(config, frames, e)
  {
    CursorIsLast(config, start, events);
    NewerExactly(Feed(config, start, events), e);
    if OwnFrame(config, start, events, e) {
      var s := Feed(config, start, events);
      EveryStateCounts(config, start, events, e.generation);
      OverflowsExactly(config, Carried(s.inner.0, s.last, e.generation),
                       Current(config.runId, start.last, events, e.generation), e);
    }
  }

  /** What the correlation keeps to itself: its own two updates, and every request that shows a list. */
  ghost predicate Consumes<R, T, U>(config: Config<R, T, U>, start: State<R, T>, events: seq<Event<Message<T>>>,
                                    e: Event<Message<T>>)
  {
    || (Says(config, start, events, e).Some? && !Says(config, start, events, e).value.Downstream?)
    || (exists key :: AsksForTodos(config, e, key))
    || (e.Source? && e.frame.direction == Direction.Other)
  }

  /** The rest of the projector gets exactly the other frames of this run, each new one once, and speaks for itself. */
  lemma HandsOnExactly<R, T, U>(config: Config<R, T, U>, start: State<R, T>, events: seq<Event<Message<T>>>,
                                e: Event<Message<T>>)
    ensures var s := Feed(config, start, events); var rest := CatchUp.Apply(Projecting(config), s, e).0.inner.1;
      if !OwnFrame(config, start, events, e) then rest == s.inner.1 && Says(config, start, events, e).None?
      else if Consumes(config, start, events, e) then
        && rest == s.inner.1
        && (Says(config, start, events, e).Some? ==> !Says(config, start, events, e).value.Downstream?)
      else
        var (next, other) := config.downstream(s.inner.1, e);
        && rest == next
        && Says(config, start, events, e) == (if other.Some? then Some(Downstream(other.value)) else None)
  {
    CursorIsLast(config, start, events);
    NewerExactly(Feed(config, start, events), e);
    if OwnFrame(config, start, events, e) {
      var move := Classify(config, e.frame);
      KindsExactly(config, e, if move.Neither? then "" else move.key);
      forall key ensures AsksForTodos(config, e, key) ==> move.Request? && move.key == key && move.todo.Some? {
        KindsExactly(config, e, key);
      }
    }
  }
}
