/**
 A worker that follows the live channel and, when it lags, catches up from the bounded history.

 The projection's cursor discipline is here; what it does with a new frame is the parameter `f`, so the
 result holds for every projector.
 */
module CatchUp {
  import opened Prelude
  import opened SourceLog
  import opened Broadcast

  /** The projector's own state, the cursor it had, the new frame; its next state and an update to emit. */
  type Projector<!S, !P, !U> = (S, Option<Cursor>, Event<P>) -> (S, Option<U>)

  datatype Projection<+S> = Projection(last: Option<Cursor>, inner: S)

  predicate AtMost(a: Cursor, b: Cursor) { a.0 < b.0 || (a.0 == b.0 && a.1 <= b.1) }

  predicate AlreadySeen<S, P>(p: Projection<S>, e: Event<P>) {
    !e.Source? || (p.last.Some? && AtMost((e.generation, e.frame.sequence), p.last.value))
  }

  function Apply<S, P, U>(f: Projector<S, P, U>, p: Projection<S>, e: Event<P>): (Projection<S>, Option<U>) {
    if AlreadySeen(p, e) then (p, None)
    else
      var (inner, update) := f(p.inner, p.last, e);
      (Projection(Some((e.generation, e.frame.sequence)), inner), update)
  }

  /** Apply events in order: the final projection and the updates emitted on the way. */
  function Feed<S, P, U>(f: Projector<S, P, U>, p: Projection<S>, events: seq<Event<P>>): (Projection<S>, seq<U>)
    decreases |events|
  {
    if events == [] then (p, [])
    else
      var (p', update) := Apply(f, p, events[0]);
      var (last, updates) := Feed(f, p', events[1..]);
      (last, (if update.Some? then [update.value] else []) + updates)
  }

  lemma {:induction false} FeedConcat<S, P, U>(f: Projector<S, P, U>, p: Projection<S>, a: seq<Event<P>>,
                                               b: seq<Event<P>>)
    ensures var (mid, first) := Feed(f, p, a); var (last, second) := Feed(f, mid, b);
      Feed(f, p, a + b) == (last, first + second)
    decreases |a|
  {
    if a == [] {
      var (last, second) := Feed(f, p, b);
      assert a + b == b && [] + second == second;
    } else {
      var (p', update) := Apply(f, p, a[0]);
      FeedConcat(f, p', a[1..], b);
      assert (a + b)[1..] == a[1..] + b;
      var head := if update.Some? then [update.value] else [];
      var (mid, first) := Feed(f, p', a[1..]);
      var second := Feed(f, mid, b).1;
      assert head + (first + second) == (head + first) + second;
    }
  }

  lemma FeedSlices<S, P, U>(f: Projector<S, P, U>, p: Projection<S>, published: seq<Event<P>>, base: nat, n: nat,
                            m: nat)
    requires base <= n <= m <= |published|
    ensures var (mid, first) := Feed(f, p, published[base..n]); var (last, second) := Feed(f, mid, published[n..m]);
      Feed(f, p, published[base..m]) == (last, first + second)
  {
    FeedConcat(f, p, published[base..n], published[n..m]);
    assert published[base..n] + published[n..m] == published[base..m];
  }

  /** Feeding frames after `n` from a cursor at `n` moves the cursor to the last of them. */
  lemma {:induction false} FeedMovesCursor<S, P, U>(f: Projector<S, P, U>, p: Projection<S>, published: seq<Event<P>>,
                                                    generation: nat, n: nat, m: nat)
    requires Numbered(published, generation) && n <= m <= |published| && p.last == Some((generation, n))
    ensures Feed(f, p, published[n..m]).0.last == Some((generation, m))
    decreases m - n
  {
    if n < m {
      assert published[n..m][1..] == published[n + 1..m];
      FeedMovesCursor(f, Apply(f, p, published[n]).0, published, generation, n + 1, m);
    }
  }

  lemma KeptTail<P>(events: seq<Event<P>>, published: seq<Event<P>>, generation: nat, m: nat)
    requires Numbered(published, generation)
    requires events != [] && Ordered(events, published)
    requires forall k :: m < k <= |published| ==> Kept(events, published, k)
    requires m >= events[0].frame.sequence
    ensures Ordered(events[1..], published)
    ensures forall k :: m < k <= |published| ==> Kept(events[1..], published, k)
  {
    forall k | m < k <= |published| ensures Kept(events[1..], published, k) {
      assert Kept(events, published, k);
      var i :| 0 <= i < |events| && events[i] == published[k - 1];
      assert events[1..][i - 1] == published[k - 1];
    }
  }

  lemma EmptyKeepsNone<P>(published: seq<Event<P>>, k: nat)
    requires 1 <= k <= |published|
    ensures !Kept([], published, k)
  {
  }

  /** A nonempty ordered log that keeps everything after `n` starts at `n + 1` or before. */
  lemma FirstKept<P>(events: seq<Event<P>>, published: seq<Event<P>>, n: nat)
    requires events != [] && Ordered(events, published) && n < |published|
    requires Kept(events, published, n + 1)
    requires published[n].Source? && published[n].frame.sequence == n + 1
    ensures events[0].frame.sequence <= n + 1
  {
  }

  /**
   Catch-up refines live delivery: applying whatever the history kept, in order, from a cursor it covers
   gives the same projection and the same updates as applying every later frame one by one.
   */
  lemma {:induction false} HistoryRefinesLive<S, P, U>(f: Projector<S, P, U>, p: Projection<S>, events: seq<Event<P>>,
                                                       published: seq<Event<P>>, generation: nat, n: nat)
    requires Numbered(published, generation) && Ordered(events, published)
    requires p.last == Some((generation, n)) && n <= |published|
    requires forall k :: n < k <= |published| ==> Kept(events, published, k)
    ensures Feed(f, p, events) == Feed(f, p, published[n..])
    decreases |events|
  {
    if events == [] {
      if n < |published| {
        EmptyKeepsNone(published, n + 1);
      }
      assert published[n..] == [];
    } else {
      var e := events[0];
      var m := e.frame.sequence;
      assert e == published[m - 1];
      if m <= n {
        KeptTail(events, published, generation, n);
        FeedSeen(f, p, events);
        HistoryRefinesLive(f, p, events[1..], published, generation, n);
      } else {
        FirstKept(events, published, n);
        KeptTail(events, published, generation, n + 1);
        assert published[n..][1..] == published[n + 1..];
        HistoryRefinesLive(f, Apply(f, p, e).0, events[1..], published, generation, n + 1);
      }
    }
  }

  /** An event at or below the cursor changes nothing and emits nothing. */
  lemma FeedSeen<S, P, U>(f: Projector<S, P, U>, p: Projection<S>, events: seq<Event<P>>)
    requires events != [] && AlreadySeen(p, events[0])
    ensures Feed(f, p, events) == Feed(f, p, events[1..])
  {
    var updates := Feed(f, p, events[1..]).1;
    assert [] + updates == updates;
  }

  lemma CatchUpRefinesLive<S, P, U>(f: Projector<S, P, U>, p: Projection<S>, log: Log<P>, published: seq<Event<P>>,
                                    generation: nat, n: nat)
    requires Built(log, published, generation) && p.last == Some((generation, n)) && n <= |published|
    requires Covers(Snapshot(log), (generation, n))
    ensures Feed(f, p, Snapshot(log).events) == Feed(f, p, published[n..])
  {
    CoversExactly(log, published, generation, (generation, n));
    HistoryRefinesLive(f, p, Events(log.entries), published, generation, n);
  }

  // ---------------------------------------------------------------- the worker's whole run

  datatype Worker<+S, +U> =
    | Detached
    | Subscribed(next: nat)
    | Following(next: nat, projection: Projection<S>, updates: seq<U>, lagged: bool)
    | Failed

  datatype System<+S, +P, +U> =
    System(publisher: Publisher<P>, capacity: nat, start: S, base: nat, worker: Worker<S, U>)

  datatype Action<+P> = Publishes(publish: Publish<P>) | Subscribe | ReadBaseline | Receive | CatchUp

  ghost predicate Enabled<S, P, U>(s: System<S, P, U>, a: Action<P>) {
    match a
    case Publishes(publish) => PublishEnabled(s.publisher, publish)
    case Subscribe => s.worker.Detached?
    case ReadBaseline => s.worker.Subscribed?
    case Receive => s.worker.Following? && !s.worker.lagged && s.worker.next < |s.publisher.sent|
    case CatchUp => s.worker.Following? && s.worker.lagged
  }

  function Received<S, P, U>(f: Projector<S, P, U>, s: System<S, P, U>): Worker<S, U>
    requires s.worker.Following? && !s.worker.lagged && s.worker.next < |s.publisher.sent|
  {
    var Following(next, p, updates, _) := s.worker;
    var sent := s.publisher.sent;
    if |sent| - next > s.capacity then Following(|sent| - s.capacity, p, updates, true)
    else if sent[next].Gap? then Failed
    else
      var (p', more) := Feed(f, p, [sent[next]]);
      Following(next + 1, p', updates + more, false)
  }

  /** After the channel reported a lag: read the history at some later moment and apply it if it covers the cursor. */
  function CaughtUp<S, P, U>(f: Projector<S, P, U>, s: System<S, P, U>): Worker<S, U>
    requires s.worker.Following? && s.worker.lagged
  {
    var Following(next, p, updates, _) := s.worker;
    var h := Snapshot(s.publisher.log);
    var cursor := if p.last.Some? then p.last.value else (s.publisher.generation, s.base);
    if !Covers(h, cursor) then Failed
    else
      var (p', more) := Feed(f, p, h.events);
      Following(next, p', updates + more, false)
  }

  function Baseline<P>(p: Publisher<P>): nat { if p.log.latest.Some? then p.log.latest.value.1 else 0 }

  function Step<S, P, U>(f: Projector<S, P, U>, s: System<S, P, U>, a: Action<P>): System<S, P, U>
    requires Enabled(s, a)
  {
    match a
    case Publishes(publish) => s.(publisher := PublishStep(s.publisher, publish))
    case Subscribe => s.(worker := Subscribed(|s.publisher.sent|))
    case ReadBaseline =>
      var base := Baseline(s.publisher);
      s.(base := base,
         worker := Following(s.worker.next, Projection(Some((s.publisher.generation, base)), s.start), [], false))
    case Receive => s.(worker := Received(f, s))
    case CatchUp => s.(worker := CaughtUp(f, s))
  }

  ghost predicate Execution<S, P, U>(f: Projector<S, P, U>, trace: seq<System<S, P, U>>, actions: seq<Action<P>>) {
    && |trace| == |actions| + 1
    && PublisherOk(trace[0].publisher) && trace[0].worker.Detached?
    && forall i :: 0 <= i < |actions| ==> Enabled(trace[i], actions[i]) && trace[i + 1] == Step(f, trace[i], actions[i])
  }

  /** Projection and updates are those of the plain frame stream from the baseline up to frame `n`. */
  ghost predicate Agrees<S, P, U>(f: Projector<S, P, U>, s: System<S, P, U>, n: nat) {
    && s.worker.Following?
    && s.base <= n <= |s.publisher.published|
    && s.worker.next <= |s.publisher.sent|
    && (s.worker.lagged || FrameCount(s.publisher.sent, s.worker.next) <= n)
    && s.worker.projection.last == Some((s.publisher.generation, n))
    && (s.worker.projection, s.worker.updates)
       == Feed(f, Projection(Some((s.publisher.generation, s.base)), s.start), s.publisher.published[s.base..n])
  }

  ghost predicate Inv<S, P, U>(f: Projector<S, P, U>, s: System<S, P, U>) {
    && PublisherOk(s.publisher)
    && (s.worker.Subscribed? ==> s.worker.next <= |s.publisher.sent|)
    && (s.worker.Following? ==> exists n: nat :: Agrees(f, s, n))
  }

  /** Extending an agreeing projection by the frames `n..m` keeps it agreeing. */
  lemma AgreesExtends<S, P, U>(f: Projector<S, P, U>, s: System<S, P, U>, n: nat, m: nat, events: seq<Event<P>>,
                               next: nat)
    requires PublisherOk(s.publisher) && Agrees(f, s, n) && n <= m <= |s.publisher.published|
    requires Feed(f, s.worker.projection, events) == Feed(f, s.worker.projection, s.publisher.published[n..m])
    requires next <= |s.publisher.sent| && FrameCount(s.publisher.sent, next) <= m
    ensures var (p', more) := Feed(f, s.worker.projection, events);
      Agrees(f, s.(worker := Following(next, p', s.worker.updates + more, false)), m)
  {
    var start := Projection(Some((s.publisher.generation, s.base)), s.start);
    FeedSlices(f, start, s.publisher.published, s.base, n, m);
    FeedMovesCursor(f, s.worker.projection, s.publisher.published, s.publisher.generation, n, m);
  }

  lemma CatchUpKeepsInv<S, P, U>(f: Projector<S, P, U>, s: System<S, P, U>)
    requires Inv(f, s) && Enabled(s, CatchUp)
    ensures Inv(f, s.(worker := CaughtUp(f, s)))
  {
    var p := s.publisher;
    var n: nat :| Agrees(f, s, n);
    if Covers(Snapshot(p.log), (p.generation, n)) {
      CatchUpRefinesLive(f, s.worker.projection, p.log, p.published, p.generation, n);
      assert p.published[n..] == p.published[n..|p.published|];
      FrameCountGrows(p.sent, s.worker.next, |p.sent|);
      AgreesExtends(f, s, n, |p.published|, Snapshot(p.log).events, s.worker.next);
    }
  }

  lemma SeenKeepsInv<S, P, U>(f: Projector<S, P, U>, s: System<S, P, U>, n: nat)
    requires PublisherOk(s.publisher) && Agrees(f, s, n) && !s.worker.lagged && s.worker.next < |s.publisher.sent|
    requires |s.publisher.sent| - s.worker.next <= s.capacity && !s.publisher.sent[s.worker.next].Gap?
    requires AlreadySeen(s.worker.projection, s.publisher.sent[s.worker.next])
    requires FrameCount(s.publisher.sent, s.worker.next + 1) <= n
    ensures Agrees(f, s.(worker := Received(f, s)), n)
  {
    var e := s.publisher.sent[s.worker.next];
    FeedSeen(f, s.worker.projection, [e]);
    assert [e][1..] == s.publisher.published[n..n] == [];
    AgreesExtends(f, s, n, n, [e], s.worker.next + 1);
  }

  lemma NewKeepsInv<S, P, U>(f: Projector<S, P, U>, s: System<S, P, U>, n: nat)
    requires PublisherOk(s.publisher) && Agrees(f, s, n) && !s.worker.lagged && s.worker.next < |s.publisher.sent|
    requires |s.publisher.sent| - s.worker.next <= s.capacity && !s.publisher.sent[s.worker.next].Gap?
    requires n < |s.publisher.published| && s.publisher.sent[s.worker.next] == s.publisher.published[n]
    requires FrameCount(s.publisher.sent, s.worker.next + 1) <= n + 1
    ensures Agrees(f, s.(worker := Received(f, s)), n + 1)
  {
    var e := s.publisher.sent[s.worker.next];
    assert s.publisher.published[n..n + 1] == [e];
    AgreesExtends(f, s, n, n + 1, [e], s.worker.next + 1);
  }

  /** The channel's next event is either a frame already applied, or exactly the next frame. */
  lemma NextKeepsInv<S, P, U>(f: Projector<S, P, U>, s: System<S, P, U>, n: nat)
    requires PublisherOk(s.publisher) && Agrees(f, s, n) && !s.worker.lagged && s.worker.next < |s.publisher.sent|
    requires |s.publisher.sent| - s.worker.next <= s.capacity && !s.publisher.sent[s.worker.next].Gap?
    ensures exists m: nat :: Agrees(f, s.(worker := Received(f, s)), m)
  {
    var p, next := s.publisher, s.worker.next;
    var e := p.sent[next];
    if e.Source? {
      assert StandsFor(e, p.published, p.generation, FrameCount(p.sent, next) + 1);
    }
    if AlreadySeen(s.worker.projection, e) {
      SeenKeepsInv(f, s, n);
    } else {
      NewKeepsInv(f, s, n);
    }
  }

  lemma ReceiveKeepsInv<S, P, U>(f: Projector<S, P, U>, s: System<S, P, U>)
    requires Inv(f, s) && Enabled(s, Receive)
    ensures Inv(f, s.(worker := Received(f, s)))
  {
    var p := s.publisher;
    var n: nat :| Agrees(f, s, n);
    if |p.sent| - s.worker.next > s.capacity {
      assert Agrees(f, s.(worker := Received(f, s)), n);
    } else if !p.sent[s.worker.next].Gap? {
      NextKeepsInv(f, s, n);
    }
  }

  lemma PublishKeepsInv<S, P, U>(f: Projector<S, P, U>, s: System<S, P, U>, a: Publish<P>)
    requires Inv(f, s) && PublishEnabled(s.publisher, a)
    ensures Inv(f, s.(publisher := PublishStep(s.publisher, a)))
  {
    PublishKeepsOk(s.publisher, a);
    if s.worker.Following? {
      var p, p' := s.publisher, PublishStep(s.publisher, a);
      var n: nat :| Agrees(f, s, n);
      var more := p'.sent[|p.sent|..];
      assert p'.sent == p.sent + more;
      FrameCountPrefix(p.sent, more, s.worker.next);
      assert p'.published[s.base..n] == p.published[s.base..n];
      assert Agrees(f, s.(publisher := p'), n);
    }
  }

  lemma StepKeepsInv<S, P, U>(f: Projector<S, P, U>, s: System<S, P, U>, a: Action<P>)
    requires Inv(f, s) && Enabled(s, a)
    ensures Inv(f, Step(f, s, a))
  {
    match a
    case Publishes(publish) => PublishKeepsInv(f, s, publish);
    case Subscribe =>
    case ReadBaseline =>
      FrameCountGrows(s.publisher.sent, s.worker.next, |s.publisher.sent|);
      assert Agrees(f, Step(f, s, a), Baseline(s.publisher));
    case Receive => ReceiveKeepsInv(f, s);
    case CatchUp => CatchUpKeepsInv(f, s);
  }

  lemma {:induction false} EveryStateAgrees<S, P, U>(f: Projector<S, P, U>, trace: seq<System<S, P, U>>,
                                                     actions: seq<Action<P>>, i: nat)
    requires Execution(f, trace, actions) && i < |trace|
    ensures Inv(f, trace[i])
  {
    if i > 0 {
      EveryStateAgrees(f, trace, actions, i - 1);
      StepKeepsInv(f, trace[i - 1], actions[i - 1]);
    }
  }

  /** A worker that has drained the channel has applied exactly the frames published since its baseline. */
  lemma DrainedWorkerSawEverything<S, P, U>(f: Projector<S, P, U>, trace: seq<System<S, P, U>>, actions: seq<Action<P>>,
                                            i: nat)
    requires Execution(f, trace, actions) && i < |trace|
    requires trace[i].worker.Following? && !trace[i].worker.lagged && trace[i].worker.next == |trace[i].publisher.sent|
    requires trace[i].publisher.pending.None?
    ensures var s := trace[i];
      s.base <= |s.publisher.published|
      && (s.worker.projection, s.worker.updates)
         == Feed(f, Projection(Some((s.publisher.generation, s.base)), s.start), s.publisher.published[s.base..])
  {
    EveryStateAgrees(f, trace, actions, i);
    var s := trace[i];
    var n: nat :| Agrees(f, s, n);
    assert s.publisher.published[s.base..n] == s.publisher.published[s.base..];
  }

  // ---------------------------------------------------------------- when it gives up

  /** A frame after the worker's cursor that the history does not hold any more. */
  ghost predicate LostFrame<S, P, U>(s: System<S, P, U>) {
    && s.worker.Following? && s.worker.projection.last.Some?
    && exists k: nat :: s.worker.projection.last.value.1 < k <= |s.publisher.published|
                        && !Kept(Snapshot(s.publisher.log).events, s.publisher.published, k)
  }

  predicate Behind<S, P, U>(s: System<S, P, U>) {
    s.worker.Following? && |s.publisher.sent| - s.worker.next > s.capacity
  }

  /**
   A following worker gives up exactly when the next thing it receives is a frame too large to keep, or when it fell
   behind and a frame that it still needs has left the history. It falls behind exactly when the channel overflowed.
   */
  lemma GivesUpExactly<S, P, U>(f: Projector<S, P, U>, trace: seq<System<S, P, U>>, actions: seq<Action<P>>, i: nat)
    requires Execution(f, trace, actions) && i < |actions| && trace[i].worker.Following?
    ensures var s, after := trace[i], trace[i + 1].worker;
      && (after.Failed? <==>
          || (actions[i] == Receive && !Behind(s) && s.publisher.sent[s.worker.next].Gap?)
          || (actions[i] == Action.CatchUp && LostFrame(s)))
      && (actions[i] == Receive ==> (after.Following? && after.lagged <==> Behind(s)))
      && (after.Failed? || after.Following?)
  {
    EveryStateAgrees(f, trace, actions, i);
    var s := trace[i];
    var n: nat :| Agrees(f, s, n);
    if actions[i] == Action.CatchUp {
      CoversExactly(s.publisher.log, s.publisher.published, s.publisher.generation, (s.publisher.generation, n));
    }
  }
}
