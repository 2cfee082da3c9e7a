/**
 What the todo correlation means, told from the log of requests and responses alone.

 No map or counter appears here: a request id's flight is the requests since it was last idle.
 */
module TodoLog {
  import opened Prelude
  import opened SourceLog
  import opened TodoProjection
  import CatchUp

  /** An id in flight: how many requests await a response, and all requests since it was last idle. */
  datatype Flight<+T> = Flight(outstanding: nat, batch: seq<Option<T>>)

  predicate Touches<T>(move: Move<T>, key: string) { !move.Neither? && move.key == key }

  function After<T>(flight: Flight<T>, move: Move<T>, key: string): Flight<T> {
    if !Touches(move, key) then flight
    else if move.Request? then Flight(flight.outstanding + 1, flight.batch + [move.todo])
    else if flight.outstanding == 0 then flight
    else if flight.outstanding == 1 then Flight(0, [])
    else flight.(outstanding := flight.outstanding - 1)
  }

  function FlightOf<T>(log: seq<Move<T>>, key: string): Flight<T> {
    if log == [] then Flight(0, []) else After(FlightOf(log[..|log| - 1], key), log[|log| - 1], key)
  }

  function Outstanding<T>(log: seq<Move<T>>, key: string): nat { FlightOf(log, key).outstanding }

  function Sole<T>(batch: seq<Option<T>>): Option<T> { if |batch| == 1 then batch[0] else None }

  function Todos<T>(batch: seq<Option<T>>): nat {
    if batch == [] then 0 else Todos(batch[..|batch| - 1]) + (if batch[|batch| - 1].Some? then 1 else 0)
  }

  lemma BatchAppend<T>(batch: seq<Option<T>>, todo: Option<T>)
    ensures Todos(batch + [todo]) == Todos(batch) + (if todo.Some? then 1 else 0)
    ensures Sole(batch + [todo]) == if batch == [] then todo else None
  {
    assert (batch + [todo])[..|batch|] == batch;
  }

  ghost predicate Follows<T>(c: Callbacks<T>, key: string, flight: Flight<T>) {
    && Count(c.counts, key) == flight.outstanding
    && (flight.outstanding == 0 <==> flight.batch == [])
    && (key in c.candidates <==> Todos(flight.batch) > 0)
    && (key in c.candidates ==> c.candidates[key] == Candidate(Sole(flight.batch), Todos(flight.batch)))
  }

  lemma AnsweredElsewhere<T>(c: Callbacks<T>, key: string, flight: Flight<T>, answered: string)
    requires Follows(c, key, flight) && key != answered
    ensures Follows(Answered(c, answered).0, key, flight)
  {
  }

  lemma AnsweredFollows<T>(c: Callbacks<T>, key: string, flight: Flight<T>, answered: string, accepted: bool)
    requires Sound(c) && Follows(c, key, flight)
    ensures Follows(Answered(c, answered).0, key, After(flight, Response(answered, accepted), key))
    ensures key == answered ==> Answered(c, key).1 == if flight.outstanding == 1 then Sole(flight.batch) else None
  {
    if key != answered {
      AnsweredElsewhere(c, key, flight, answered);
    } else if flight.outstanding == 1 && |flight.batch| == 1 {
      BatchAppend([], flight.batch[0]);
      assert [] + [flight.batch[0]] == flight.batch;
    }
  }

  /** The asked id's own entries after an admitted request. */
  lemma AskedEntries<T>(c: Callbacks<T>, key: string, todo: Option<T>)
    requires !Overflows(c, key, todo)
    ensures var c' := Asked(c, key, todo); var busy := Count(c.counts, key) > 0;
      && Count(c'.counts, key) == Count(c.counts, key) + 1
      && (key in c'.candidates <==> key in c.candidates || todo.Some?)
      && (key in c.candidates && (busy || todo.Some?) ==>
            c'.candidates[key] == Candidate(None, c.candidates[key].todos + (if todo.Some? then 1 else 0)))
      && (key !in c.candidates && todo.Some? ==> c'.candidates[key] == Candidate(if busy then None else todo, 1))
  {
  }

  lemma AskedElsewhere<T>(c: Callbacks<T>, key: string, asked: string, todo: Option<T>)
    requires !Overflows(c, asked, todo) && key != asked
    ensures var c' := Asked(c, asked, todo);
      && Count(c'.counts, key) == Count(c.counts, key)
      && (key in c'.candidates <==> key in c.candidates)
      && (key in c.candidates ==> c'.candidates[key] == c.candidates[key])
  {
  }

  lemma AskedFollows<T>(c: Callbacks<T>, key: string, flight: Flight<T>, asked: string, todo: Option<T>)
    requires Follows(c, key, flight) && !Overflows(c, asked, todo)
    ensures Follows(Asked(c, asked, todo), key, After(flight, Request(asked, todo), key))
  {
    if key == asked {
      AskedEntries(c, key, todo);
      BatchAppend(flight.batch, todo);
    } else {
      AskedElsewhere(c, key, asked, todo);
    }
  }

  // ---------------------------------------------------------------- whole runs

  type State<!R, !T> = CatchUp.Projection<(Callbacks<T>, R)>

  /** The moves of this run in the generation of the last frame seen. */
  function Noted<R, T, U>(config: Config<R, T, U>, last: Option<Cursor>, log: seq<Move<T>>, e: Event<Message<T>>)
    : seq<Move<T>>
  {
    if CatchUp.AlreadySeen(CatchUp.Projection(last, 0), e) then log
    else
      var kept := KeptLog(last, log, e.generation);
      if Ours(config, e) then kept + [Classify(config, e.frame)] else kept
  }

  function KeptLog<T>(last: Option<Cursor>, log: seq<Move<T>>, generation: nat): seq<Move<T>> {
    if last.Some? && last.value.0 != generation then [] else log
  }

  function Feed<R, T, U>(config: Config<R, T, U>, start: State<R, T>, events: seq<Event<Message<T>>>): State<R, T> {
    if events == [] then start
    else CatchUp.Apply(Projecting(config), Feed(config, start, events[..|events| - 1]), events[|events| - 1]).0
  }

  function Log<R, T, U>(config: Config<R, T, U>, start: State<R, T>, events: seq<Event<Message<T>>>): seq<Move<T>> {
    if events == [] then []
    else
      var before := events[..|events| - 1];
      Noted(config, Feed(config, start, before).last, Log(config, start, before), events[|events| - 1])
  }

  ghost predicate FollowsLog<T>(c: Callbacks<T>, log: seq<Move<T>>) {
    && Sound(c)
    && (!c.saturated ==> forall k: string :: Follows(c, k, FlightOf(log, k)))
  }

  lemma MovedFollowsKey<T, U>(c: Callbacks<T>, log: seq<Move<T>>, move: Move<T>, generation: nat, sequence: nat,
                              k: string)
    requires Sound(c) && Follows(c, k, FlightOf(log, k)) && !Moved<T, U>(c, move, generation, sequence).0.saturated
        && !c.saturated
    ensures Follows(Moved<T, U>(c, move, generation, sequence).0, k, FlightOf(log + [move], k))
  {
    assert (log + [move])[..|log|] == log;
    match move
    case Neither =>
    case Response(key, accepted) => AnsweredFollows(c, k, FlightOf(log, k), key, accepted);
    case Request(key, todo) => AskedFollows(c, k, FlightOf(log, k), key, todo);
  }

  lemma MovedFollows<T, U>(c: Callbacks<T>, log: seq<Move<T>>, move: Move<T>, generation: nat, sequence: nat)
    requires FollowsLog(c, log)
    ensures FollowsLog(Moved<T, U>(c, move, generation, sequence).0, log + [move])
  {
    MovedSound<T, U>(c, move, generation, sequence);
    if !Moved<T, U>(c, move, generation, sequence).0.saturated {
      SaturationStays<T, U>(c, move, generation, sequence);
      forall k: string ensures Follows(Moved<T, U>(c, move, generation, sequence).0, k, FlightOf(log + [move], k)) {
        assert Follows(c, k, FlightOf(log, k));
        MovedFollowsKey<T, U>(c, log, move, generation, sequence, k);
      }
    }
  }

  /** Within a generation saturation is never taken back. */
  lemma SaturationStays<T, U>(c: Callbacks<T>, move: Move<T>, generation: nat, sequence: nat)
    ensures c.saturated ==> Moved<T, U>(c, move, generation, sequence).0.saturated
  {
  }

  lemma CarriedFollows<T>(c: Callbacks<T>, log: seq<Move<T>>, last: Option<Cursor>, generation: nat)
    requires FollowsLog(c, log)
    ensures FollowsLog(Carried(c, last, generation), KeptLog(last, log, generation))
  {
    EmptySound<T>();
  }

  lemma ApplyFollows<R, T, U>(config: Config<R, T, U>, s: State<R, T>, log: seq<Move<T>>, e: Event<Message<T>>)
    requires FollowsLog(s.inner.0, log)
    ensures FollowsLog(CatchUp.Apply(Projecting(config), s, e).0.inner.0, Noted(config, s.last, log, e))
  {
    if !CatchUp.AlreadySeen(s, e) {
      CarriedFollows(s.inner.0, log, s.last, e.generation);
      if Ours(config, e) {
        MovedFollows<T, U>(Carried(s.inner.0, s.last, e.generation), KeptLog(s.last, log, e.generation),
                           Classify(config, e.frame), e.generation, e.frame.sequence);
      }
    }
  }

  /** In every run the counters are the sums of the counts, and until saturation the maps say what the log says. */
  lemma {:induction false} EveryStateFollows<R, T, U>(config: Config<R, T, U>, start: State<R, T>,
                                                      events: seq<Event<Message<T>>>)
    requires start.inner.0 == Empty()
    ensures FollowsLog(Feed(config, start, events).inner.0, Log(config, start, events))
  {
    if events == [] {
      EmptySound<T>();
    } else {
      var before := events[..|events| - 1];
      EveryStateFollows(config, start, before);
      ApplyFollows(config, Feed(config, start, before), Log(config, start, before), events[|events| - 1]);
    }
  }

  /** Request `j` is the only request of its id since the id was idle, and nothing answered it yet. */
  ghost predicate AloneSince<T>(log: seq<Move<T>>, j: nat, key: string, todos: T) {
    && j < |log| && log[j] == Request(key, Some(todos))
    && Outstanding(log[..j], key) == 0
    && forall i :: j < i < |log| ==> !Touches(log[i], key)
  }

  lemma {:induction false} FlightSize<T>(log: seq<Move<T>>, key: string)
    ensures var f := FlightOf(log, key); f.outstanding <= |f.batch| && (f.outstanding == 0 <==> f.batch == [])
  {
    if log != [] {
      FlightSize(log[..|log| - 1], key);
    }
  }

  lemma {:induction false} SoleExactly<T>(log: seq<Move<T>>, key: string, todos: T)
    ensures Outstanding(log, key) == 1 && Sole(FlightOf(log, key).batch) == Some(todos)
            <==> exists j: nat :: AloneSince(log, j, key, todos)
  {
    if log != [] {
      var n := |log| - 1;
      FlightSize(log[..n], key);
      SoleExactly(log[..n], key, todos);
      assert forall j: nat | j < n :: log[..n][..j] == log[..j];
      if Touches(log[n], key) {
        assert forall j: nat | j < n :: !AloneSince(log, j, key, todos);
        assert AloneSince(log, n, key, todos) <==>
            log[n] == Request(key, Some(todos)) && Outstanding(log[..n], key) == 0;
      } else {
        assert forall j: nat :: AloneSince(log, j, key, todos) <==> AloneSince(log[..n], j, key, todos);
      }
    }
  }

  /**
   Before saturation, a frame makes the projector report `todos` exactly when it is a new frame of this run,
   an accepted response, and its id's only request since the id was idle is a well-formed request with those todos.
   */
  lemma EmitsExactly<R, T, U>(config: Config<R, T, U>, start: State<R, T>, events: seq<Event<Message<T>>>,
                              e: Event<Message<T>>, todos: T)
    requires start.inner.0 == Empty() && e.Source?
    requires !Carried(Feed(config, start, events).inner.0, Feed(config, start, events).last, e.generation).saturated
    ensures var s := Feed(config, start, events);
      var log := KeptLog(s.last, Log(config, start, events), e.generation);
      CatchUp.Apply(Projecting(config), s, e).1 == Some(VendorTodos(e.generation, e.frame.sequence, todos))
      <==> && !CatchUp.AlreadySeen(s, e) && Ours(config, e)
           && Classify(config, e.frame).Response? && Classify(config, e.frame).accepted
           && exists j: nat :: AloneSince(log, j, Classify(config, e.frame).key, todos)
  {
    EveryStateFollows(config, start, events);
    var s := Feed(config, start, events);
    var c, log := Carried(s.inner.0, s.last, e.generation), KeptLog(s.last, Log(config, start, events), e.generation);
    CarriedFollows(s.inner.0, Log(config, start, events), s.last, e.generation);
    var move := Classify(config, e.frame);
    ApplyEmits(config, s, e, todos);
    if move.Response? {
      AnsweredFollows(c, move.key, FlightOf(log, move.key), move.key, true);
      SoleExactly(log, move.key, todos);
    }
  }

  /** The one way a todo update leaves the projector. */
  lemma ApplyEmits<R, T, U>(config: Config<R, T, U>, s: State<R, T>, e: Event<Message<T>>, todos: T)
    requires e.Source?
    ensures var move := Classify(config, e.frame);
      CatchUp.Apply(Projecting(config), s, e).1 == Some(VendorTodos(e.generation, e.frame.sequence, todos))
      <==> && !CatchUp.AlreadySeen(s, e) && Ours(config, e) && move.Response? && move.accepted
           && Answered(Carried(s.inner.0, s.last, e.generation), move.key).1 == Some(todos)
  {
  }

  /** Two requests that shared an id before it drained: no todo list is reported for it. */
  lemma SharedIdIsSilent<T>(log: seq<Move<T>>, key: string, first: nat, second: nat)
    requires first < second < |log| && Touches(log[first], key) && Touches(log[second], key)
    requires log[first].Request? && log[second].Request?
    requires forall i :: first < i <= |log| ==> Outstanding(log[..i], key) > 0
    ensures forall j: nat, todos: T :: !AloneSince(log, j, key, todos)
  {
    forall j: nat, todos: T ensures !AloneSince(log, j, key, todos) {
      assert second <= j < |log| ==> Outstanding(log[..j], key) > 0;
    }
  }
}
