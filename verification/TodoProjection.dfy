/**
 The worker's correlation of vendor todo requests with the host's accepted responses.

 A response carries only a request id, so a todo list is reported only when its id was in flight once. The
 rest of the projector is the parameter `downstream`, over its own state `R`.
 */
module TodoProjection {
  import opened Prelude
  import opened SourceLog
  import CatchUp

  const RPC_LIMIT: nat := 128
  const RPC_ID_LIMIT: nat := 128
  const TODO_LIMIT: nat := 16

  /** The `method` member of a message, if any; one that is not text is present but names nothing. */
  datatype Verb = NoMethod | Named(name: string) | NotText

  /** An id correlates only when it is a number or text; `text` is then its JSON form. */
  datatype Id = NoId | Key(text: string) | Uncorrelated

  datatype SessionField = Missing | Session(id: string) | NotASession

  /** `todos` is present when the parameters form a well-formed, bounded todo list. */
  datatype Params<+T> = Params(session: SessionField, todos: Option<T>)

  datatype Message<+T> = Message(verb: Verb, id: Id, params: Option<Params<T>>, accepted: bool)

  datatype Candidate<+T> = Candidate(payload: Option<T>, todos: nat)

  datatype Callbacks<+T> = Callbacks(
    counts: map<string, nat>,
    rpcPending: int,
    candidates: map<string, Candidate<T>>,
    todoPending: int,
    saturated: bool)

  datatype Update<+T, +U> =
    | VendorTodos(generation: nat, sequence: nat, todos: T)
    | Saturation(generation: nat, sequence: nat)
    | Downstream(update: U)

  type Projector<!R, !T, !U> = (R, Event<Message<T>>) -> (R, Option<U>)

  datatype Config<!R, !T, !U> =
    Config(enabled: bool, session: Option<string>, runId: string, downstream: Projector<R, T, U>)

  function Empty<T>(): Callbacks<T> { Callbacks(map[], 0, map[], 0, false) }

  /** What one frame means for the correlation. */
  datatype Move<+T> = Request(key: string, todo: Option<T>) | Response(key: string, accepted: bool) | Neither

  function Classify<R, T, U>(config: Config<R, T, U>, frame: Frame<Message<T>>): Move<T> {
    var m := frame.payload;
    if !config.enabled || !m.id.Key? then Neither
    else if frame.direction == Outgoing then
      if m.verb == NoMethod then Response(m.id.text, m.accepted) else Neither
    else if frame.direction == Incoming && config.session.Some? && m.verb.Named? then
      Request(m.id.text, if m.verb.name == "cursor/update_todos" then TodoOf(config.session.value, m) else None)
    else Neither
  }

  function TodoOf<T>(session: string, m: Message<T>): Option<T> {
    if m.params.None? then None
    else if m.params.value.session.Missing? || m.params.value.session == Session(session) then m.params.value.todos
    else None
  }

  function Count(counts: map<string, nat>, key: string): nat { if key in counts then counts[key] else 0 }

  function WithoutPayload<T>(candidates: map<string, Candidate<T>>, key: string): map<string, Candidate<T>> {
    if key in candidates then candidates[key := candidates[key].(payload := None)] else candidates
  }

  /** A response takes one request off its id; the last one releases the id and yields what was held for it. */
  function Answered<T>(c: Callbacks<T>, key: string): (Callbacks<T>, Option<T>) {
    if key !in c.counts then (c, None)
    else
      var c := c.(rpcPending := c.rpcPending - 1);
      if c.counts[key] > 1 then (c.(counts := c.counts[key := c.counts[key] - 1]), None)
      else if key in c.candidates then
        (c.(counts := c.counts - {key}, candidates := c.candidates - {key},
            todoPending := c.todoPending - c.candidates[key].todos),
         c.candidates[key].payload)
      else (c.(counts := c.counts - {key}), None)
  }

  /** A request joins its id, making a held todo list ambiguous if the id was already in flight. */
  function Counted<T>(c: Callbacks<T>, key: string): Callbacks<T> {
    c.(counts := c.counts[key := Count(c.counts, key) + 1], rpcPending := c.rpcPending + 1,
       candidates := if Count(c.counts, key) > 0 then WithoutPayload(c.candidates, key) else c.candidates)
  }

  /** A todo list is held for its id if it is the only one there. */
  function Held<T>(c: Callbacks<T>, key: string, todo: T, ambiguous: bool): Callbacks<T> {
    if c.todoPending >= TODO_LIMIT then c.(saturated := true)
    else
      var candidate := if key in c.candidates then Candidate(None, c.candidates[key].todos + 1)
                       else Candidate(if ambiguous then None else Some(todo), 1);
      c.(todoPending := c.todoPending + 1, candidates := c.candidates[key := candidate])
  }

  function Asked<T>(c: Callbacks<T>, key: string, todo: Option<T>): Callbacks<T> {
    if Utf8Length(key) > RPC_ID_LIMIT || c.rpcPending >= RPC_LIMIT then c.(saturated := true)
    else if todo.None? then Counted(c, key)
    else Held(Counted(c, key), key, todo.value, Count(c.counts, key) > 0)
  }

  predicate Overflows<T>(c: Callbacks<T>, key: string, todo: Option<T>) {
    || Utf8Length(key) > RPC_ID_LIMIT
    || c.rpcPending >= RPC_LIMIT
    || (todo.Some? && c.todoPending >= TODO_LIMIT)
  }

  /** The callbacks after a move, and the update it emits itself, if it does. */
  function Moved<T, U>(c: Callbacks<T>, move: Move<T>, generation: nat, sequence: nat)
    : (Callbacks<T>, Option<Update<T, U>>)
  {
    match move
    case Neither => (c, None)
    case Response(key, accepted) =>
      var (c', payload) := Answered(c, key);
      (c', if accepted && payload.Some? then Some(VendorTodos(generation, sequence, payload.value)) else None)
    case Request(key, todo) =>
      (Asked(c, key, todo), if Overflows(c, key, todo) then Some(Saturation(generation, sequence)) else None)
  }

  /** The callbacks an event of this generation starts from: a new generation forgets the old one's ids. */
  function Carried<T>(c: Callbacks<T>, last: Option<Cursor>, generation: nat): Callbacks<T> {
    if last.Some? && last.value.0 != generation then Empty() else c
  }

  predicate Ours<R, T, U>(config: Config<R, T, U>, e: Event<Message<T>>)
    requires e.Source?
  {
    !e.replay && e.runId == config.runId
  }

  /** One new frame, in the form the worker's catch-up feeds: state, cursor before it, frame. */
  function Project<R, T, U>(config: Config<R, T, U>, s: (Callbacks<T>, R), last: Option<Cursor>, e: Event<Message<T>>)
    : ((Callbacks<T>, R), Option<Update<T, U>>)
  {
    if !e.Source? then (s, None)
    else
      var c := Carried(s.0, last, e.generation);
      if !Ours(config, e) then ((c, s.1), None)
      else
        var move := Classify(config, e.frame);
        var (c', update) := Moved<T, U>(c, move, e.generation, e.frame.sequence);
        if update.Some? || (move.Request? && move.todo.Some?) || e.frame.direction == Direction.Other then
          ((c', s.1), update)
        else
          var (rest, other) := config.downstream(s.1, e);
          ((c', rest), if other.Some? then Some(Downstream(other.value)) else None)
  }

  // ---------------------------------------------------------------- the counters are the sums

  ghost predicate Tally(bag: multiset<string>, counts: map<string, nat>) {
    forall k: string :: bag[k] == Count(counts, k)
  }

  /** `total` is the sum of the counts: the size of the bag they are the multiplicities of. */
  ghost predicate Sums(counts: map<string, nat>, total: int) {
    exists bag: multiset<string> :: Tally(bag, counts) && |bag| == total
  }

  function TodoCounts<T>(candidates: map<string, Candidate<T>>): map<string, nat> {
    map k | k in candidates :: candidates[k].todos
  }

  ghost predicate SoundCounts(counts: map<string, nat>, pending: int) {
    && Sums(counts, pending) && pending <= RPC_LIMIT
    && forall k :: k in counts ==> 1 <= counts[k] && Utf8Length(k) <= RPC_ID_LIMIT
  }

  ghost predicate SoundTodos<T>(candidates: map<string, Candidate<T>>, pending: int) {
    && Sums(TodoCounts(candidates), pending) && pending <= TODO_LIMIT
    && forall k :: k in candidates ==> 1 <= candidates[k].todos
  }

  ghost predicate Sound<T>(c: Callbacks<T>) {
    && SoundCounts(c.counts, c.rpcPending)
    && SoundTodos(c.candidates, c.todoPending)
    && c.candidates.Keys <= c.counts.Keys
  }

  lemma SumsSet(counts: map<string, nat>, total: int, key: string, n: nat)
    requires Sums(counts, total)
    ensures Sums(counts[key := n], total - Count(counts, key) + n)
  {
    var bag :| Tally(bag, counts) && |bag| == total;
    assert Tally(bag[key := n], counts[key := n]);
  }

  lemma SumsRemove(counts: map<string, nat>, total: int, key: string)
    requires Sums(counts, total)
    ensures Sums(counts - {key}, total - Count(counts, key)) && Count(counts, key) <= total
  {
    var bag :| Tally(bag, counts) && |bag| == total;
    assert Tally(bag[key := 0], counts - {key});
    assert bag[key] <= |bag|;
  }

  lemma ForgetCandidate<T>(candidates: map<string, Candidate<T>>, pending: int, key: string)
    requires SoundTodos(candidates, pending) && key in candidates
    ensures SoundTodos(candidates - {key}, pending - candidates[key].todos)
    ensures candidates[key].todos <= pending
  {
    SumsRemove(TodoCounts(candidates), pending, key);
    assert TodoCounts(candidates - {key}) == TodoCounts(candidates) - {key};
  }

  lemma SetCandidate<T>(candidates: map<string, Candidate<T>>, pending: int, key: string, candidate: Candidate<T>)
    requires SoundTodos(candidates, pending) && 1 <= candidate.todos
    requires pending - Count(TodoCounts(candidates), key) + candidate.todos <= TODO_LIMIT
    ensures SoundTodos(candidates[key := candidate], pending - Count(TodoCounts(candidates), key) + candidate.todos)
  {
    SumsSet(TodoCounts(candidates), pending, key, candidate.todos);
    assert TodoCounts(candidates[key := candidate]) == TodoCounts(candidates)[key := candidate.todos];
  }

  lemma AnsweredSound<T>(c: Callbacks<T>, key: string)
    requires Sound(c)
    ensures Sound(Answered(c, key).0)
    ensures key in c.counts ==> 1 <= c.rpcPending
    ensures key in c.candidates ==> c.candidates[key].todos <= c.todoPending
  {
    if key in c.counts {
      SumsRemove(c.counts, c.rpcPending, key);
      SumsSet(c.counts, c.rpcPending, key, if c.counts[key] > 1 then c.counts[key] - 1 else 0);
      if key in c.candidates {
        ForgetCandidate(c.candidates, c.todoPending, key);
      }
    }
  }

  lemma CountedSound(counts: map<string, nat>, pending: int, key: string)
    requires SoundCounts(counts, pending) && pending < RPC_LIMIT && Utf8Length(key) <= RPC_ID_LIMIT
    ensures SoundCounts(counts[key := Count(counts, key) + 1], pending + 1)
  {
    SumsSet(counts, pending, key, Count(counts, key) + 1);
  }

  lemma WithoutPayloadSound<T>(candidates: map<string, Candidate<T>>, pending: int, key: string)
    requires SoundTodos(candidates, pending)
    ensures SoundTodos(WithoutPayload(candidates, key), pending)
        && WithoutPayload(candidates, key).Keys == candidates.Keys
  {
    if key in candidates {
      SetCandidate(candidates, pending, key, candidates[key].(payload := None));
    }
  }

  lemma HeldSound<T>(c: Callbacks<T>, key: string, todo: T, ambiguous: bool)
    requires Sound(c) && key in c.counts
    ensures Sound(Held(c, key, todo, ambiguous))
  {
    if c.todoPending < TODO_LIMIT {
      SetCandidate(c.candidates, c.todoPending, key, Held(c, key, todo, ambiguous).candidates[key]);
    }
  }

  lemma AskedSound<T>(c: Callbacks<T>, key: string, todo: Option<T>)
    requires Sound(c)
    ensures Sound(Asked(c, key, todo))
  {
    if Utf8Length(key) <= RPC_ID_LIMIT && c.rpcPending < RPC_LIMIT {
      CountedSound(c.counts, c.rpcPending, key);
      WithoutPayloadSound(c.candidates, c.todoPending, key);
      if todo.Some? {
        HeldSound(Counted(c, key), key, todo.value, Count(c.counts, key) > 0);
      }
    }
  }

  lemma EmptySound<T>()
    ensures Sound(Empty<T>())
  {
    assert Tally(multiset{}, map[]);
    assert TodoCounts(Empty<T>().candidates) == map[];
  }

  lemma MovedSound<T, U>(c: Callbacks<T>, move: Move<T>, generation: nat, sequence: nat)
    requires Sound(c)
    ensures Sound(Moved<T, U>(c, move, generation, sequence).0)
  {
    match move
    case Neither =>
    case Response(key, _) => AnsweredSound(c, key);
    case Request(key, todo) => AskedSound(c, key, todo);
  }

  /** The projection as the worker's catch-up drives it. */
  function Projecting<R, T, U>(config: Config<R, T, U>): CatchUp.Projector<(Callbacks<T>, R), Message<T>, Update<T, U>>
  {
    (s, last, e) => Project(config, s, last, e)
  }

  class RuntimeProjection<R, T, U> {
    const config: Config<R, T, U>
    var last: Option<Cursor>
    var counts: map<string, nat>
    var rpcPending: nat
    var candidates: map<string, Candidate<T>>
    var todoPending: nat
    var saturated: bool
    var rest: R

    ghost function Value(): Callbacks<T>
      reads this
    {
      Callbacks(counts, rpcPending, candidates, todoPending, saturated)
    }

    ghost function Projection(): CatchUp.Projection<(Callbacks<T>, R)>
      reads this
    {
      CatchUp.Projection(last, (Value(), rest))
    }

    ghost predicate Valid()
      reads this
    {
      Sound(Value())
    }

    constructor (config: Config<R, T, U>, after: Option<Cursor>, rest: R)
      ensures Valid() && this.config == config && Projection() == CatchUp.Projection(after, (Empty(), rest))
    {
      this.config := config;
      last, counts, rpcPending, candidates, todoPending, saturated := after, map[], 0, map[], 0, false;
      this.rest := rest;
      new;
      EmptySound<T>();
    }

    method Forget()
      modifies this`counts, this`rpcPending, this`candidates, this`todoPending, this`saturated
      ensures Value() == Empty() && Valid()
    {
      counts, rpcPending, candidates, todoPending, saturated := map[], 0, map[], 0, false;
      EmptySound<T>();
    }

    method Answer(key: string) returns (payload: Option<T>)
      requires key in counts ==> 1 <= counts[key] && 1 <= rpcPending
      requires key in candidates ==> candidates[key].todos <= todoPending
      modifies this`counts, this`rpcPending, this`candidates, this`todoPending
      ensures (Value(), payload) == Answered(old(Value()), key)
    {
      payload := None;
      if key !in counts {
        return;
      }
      rpcPending := rpcPending - 1;
      if counts[key] > 1 {
        counts := counts[key := counts[key] - 1];
        return;
      }
      counts := counts - {key};
      if key in candidates {
        payload := candidates[key].payload;
        todoPending := todoPending - candidates[key].todos;
        candidates := candidates - {key};
      }
    }

    method Track(key: string) returns (ambiguous: bool)
      modifies this`counts, this`rpcPending, this`candidates
      ensures ambiguous == (key in old(counts) && old(counts)[key] > 0)
      ensures counts == old(counts)[key := Count(old(counts), key) + 1] && rpcPending == old(rpcPending) + 1
      ensures candidates == if ambiguous then WithoutPayload(old(candidates), key) else old(candidates)
    {
      ambiguous := key in counts && counts[key] > 0;
      counts := counts[key := (if key in counts then counts[key] else 0) + 1];
      rpcPending := rpcPending + 1;
      if ambiguous && key in candidates {
        candidates := candidates[key := candidates[key].(payload := None)];
      }
    }

    method Ask(key: string, todo: Option<T>) returns (overflow: bool)
      modifies this`counts, this`rpcPending, this`candidates, this`todoPending, this`saturated
      ensures Value() == Asked(old(Value()), key, todo)
      ensures overflow == Overflows(old(Value()), key, todo)
    {
      if Utf8Length(key) > RPC_ID_LIMIT || rpcPending >= RPC_LIMIT {
        saturated := true;
        return true;
      }
      var ambiguous := Track(key);
      if todo.None? {
        return false;
      }
      if todoPending >= TODO_LIMIT {
        saturated := true;
        return true;
      }
      todoPending := todoPending + 1;
      if key in candidates {
        candidates := candidates[key := Candidate(None, candidates[key].todos + 1)];
      } else {
        candidates := candidates[key := Candidate(if ambiguous then None else todo, 1)];
      }
      return false;
    }

    /** No decrement here can underflow: both counters are naturals. */
    method Move(move: Move<T>, generation: nat, sequence: nat) returns (update: Option<Update<T, U>>)
      requires Valid()
      modifies this`counts, this`rpcPending, this`candidates, this`todoPending, this`saturated
      ensures Valid() && (Value(), update) == Moved(old(Value()), move, generation, sequence)
    {
      update := None;
      MovedSound<T, U>(Value(), move, generation, sequence);
      match move
      case Neither =>
      case Response(key, accepted) =>
        AnsweredSound(Value(), key);
        var payload := Answer(key);
        if accepted && payload.Some? {
          update := Some(VendorTodos(generation, sequence, payload.value));
        }
      case Request(key, todo) =>
        var overflow := Ask(key, todo);
        if overflow {
          update := Some(Saturation(generation, sequence));
        }
    }

    /** A frame of this run: correlate it, then hand it on unless the correlation consumed it. */
    method Observe(e: Event<Message<T>>) returns (update: Option<Update<T, U>>)
      requires Valid() && e.Source? && Ours(config, e)
      modifies this`counts, this`rpcPending, this`candidates, this`todoPending, this`saturated, this`rest
      ensures Valid() && ((Value(), rest), update) == Project(config, old((Value(), rest)), None, e)
    {
      var move := Classify(config, e.frame);
      update := Move(move, e.generation, e.frame.sequence);
      if update.None? && !(move.Request? && move.todo.Some?) && e.frame.direction != Direction.Other {
        var (rest', other) := config.downstream(rest, e);
        rest := rest';
        update := if other.Some? then Some(Downstream(other.value)) else None;
      }
    }

    /** A new frame: an earlier generation's ids are forgotten, then the frame is observed if it is ours. */
    method Advance(e: Event<Message<T>>) returns (update: Option<Update<T, U>>)
      requires Valid() && e.Source?
      modifies this
      ensures Valid() && last == Some((e.generation, e.frame.sequence))
      ensures ((Value(), rest), update) == Project(config, old((Value(), rest)), old(last), e)
    {
      if last.Some? && last.value.0 != e.generation {
        Forget();
      }
      last := Some((e.generation, e.frame.sequence));
      if !Ours(config, e) {
        return None;
      }
      update := Observe(e);
    }

    method Apply(e: Event<Message<T>>) returns (update: Option<Update<T, U>>)
      requires Valid()
      modifies this
      ensures Valid()
      ensures (Projection(), update) == CatchUp.Apply(Projecting(config), old(Projection()), e)
    {
      if !e.Source? || (last.Some? && CatchUp.AtMost((e.generation, e.frame.sequence), last.value)) {
        return None;
      }
      update := Advance(e);
    }
  }
}
