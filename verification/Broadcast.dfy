/**
 One publisher and a bounded broadcast channel.

 A frame is first retained in the shared log and only then sent, so a subscriber can see the log between
 the two. State changes share the channel. `closed` is the moment after which nothing is published.
 */
module Broadcast {
  import opened Prelude
  import opened SourceLog

  datatype Publisher<+P> = Publisher(
    generation: nat,
    log: Log<P>,
    published: seq<Event<P>>,
    pending: Option<Event<P>>,
    sent: seq<Event<P>>,
    closed: bool)

  datatype Publish<+P> =
    | Retain(event: Event<P>, bytes: nat)
    | Send
    | SendState
    | End(cleanupReady: bool)
    | Drop

  predicate IsFrame<P>(e: Event<P>) { e.Source? || e.Gap? }

  /** How many frames, kept or announced as too large, the first `n` sent events carry. */
  function FrameCount<P>(sent: seq<Event<P>>, n: nat): nat
    requires n <= |sent|
  {
    if n == 0 then 0 else FrameCount(sent, n - 1) + (if IsFrame(sent[n - 1]) then 1 else 0)
  }

  ghost predicate PublishEnabled<P>(p: Publisher<P>, a: Publish<P>) {
    && !p.closed
    && match a
       case Retain(event, _) => p.pending.None? && event.Source? && Numbered(p.published + [event], p.generation)
                                && WithinBudget(p.log)
       case Send => p.pending.Some?
       case SendState => true
       case End(_) => p.pending.None?
       case Drop => p.pending.None?
  }

  function PublishStep<P>(p: Publisher<P>, a: Publish<P>): Publisher<P>
    requires PublishEnabled(p, a)
  {
    match a
    case Retain(event, bytes) =>
      var (log, admitted) := Retained(p.log, event, bytes);
      p.(log := log, published := p.published + [event],
         pending := Some(if admitted then event else Gap(p.generation, event.frame.sequence)))
    case Send => p.(sent := p.sent + [p.pending.value], pending := None)
    case SendState => p.(sent := p.sent + [State])
    case End(cleanupReady) => p.(sent := p.sent + [Ended(cleanupReady)], closed := true)
    case Drop => p.(closed := true)
  }

  /** `e` is the event that stands for published frame number `n`. */
  ghost predicate StandsFor<P>(e: Event<P>, published: seq<Event<P>>, generation: nat, n: nat) {
    1 <= n <= |published| && (e == published[n - 1] || e == Gap(generation, n))
  }

  ghost predicate PublisherOk<P>(p: Publisher<P>) {
    && Built(p.log, p.published, p.generation)
    && Faithful(p.sent, p.published, p.generation)
    && FrameCount(p.sent, |p.sent|) + (if p.pending.Some? then 1 else 0) == |p.published|
    && (p.pending.Some? ==> StandsFor(p.pending.value, p.published, p.generation, |p.published|))
    && EndsLast(p)
  }

  lemma {:induction false} FrameCountPrefix<P>(sent: seq<Event<P>>, more: seq<Event<P>>, n: nat)
    requires n <= |sent|
    ensures FrameCount(sent + more, n) == FrameCount(sent, n)
  {
    if n > 0 {
      FrameCountPrefix(sent, more, n - 1);
    }
  }

  lemma {:induction false} FrameCountGrows<P>(sent: seq<Event<P>>, m: nat, n: nat)
    requires m <= n <= |sent|
    ensures FrameCount(sent, m) <= FrameCount(sent, n)
  {
    if m < n {
      FrameCountGrows(sent, m, n - 1);
    }
  }

  /** Every frame in the channel stands for the published frame of its rank. */
  ghost predicate Faithful<P>(sent: seq<Event<P>>, published: seq<Event<P>>, generation: nat) {
    forall i :: 0 <= i < |sent| && IsFrame(sent[i]) ==>
      StandsFor(sent[i], published, generation, FrameCount(sent, i) + 1)
  }

  /** Sending one more event leaves the ranks of the others. */
  lemma {:induction false} RanksStay<P>(sent: seq<Event<P>>, e: Event<P>, i: nat)
    requires i < |sent|
    ensures (sent + [e])[i] == sent[i] && FrameCount(sent + [e], i) == FrameCount(sent, i)
  {
    FrameCountPrefix(sent, [e], i);
  }

  lemma {:induction false} RankOfLast<P>(sent: seq<Event<P>>, e: Event<P>)
    ensures FrameCount(sent + [e], |sent|) == FrameCount(sent, |sent|)
    ensures FrameCount(sent + [e], |sent| + 1) == FrameCount(sent, |sent|) + (if IsFrame(e) then 1 else 0)
  {
    FrameCountPrefix(sent, [e], |sent|);
    assert (sent + [e])[|sent|] == e;
  }

  lemma {:induction false} FaithfulAppend<P>(sent: seq<Event<P>>, e: Event<P>, published: seq<Event<P>>,
                                             generation: nat)
    requires Faithful(sent, published, generation)
    requires IsFrame(e) ==> StandsFor(e, published, generation, FrameCount(sent, |sent|) + 1)
    ensures Faithful(sent + [e], published, generation)
    ensures FrameCount(sent + [e], |sent| + 1) == FrameCount(sent, |sent|) + (if IsFrame(e) then 1 else 0)
  {
    var all := sent + [e];
    RankOfLast(sent, e);
    forall i | 0 <= i < |all| && IsFrame(all[i])
      ensures StandsFor(all[i], published, generation, FrameCount(all, i) + 1)
    {
      if i < |sent| {
        RanksStay(sent, e, i);
      }
    }
  }

  lemma FaithfulGrows<P>(sent: seq<Event<P>>, published: seq<Event<P>>, more: seq<Event<P>>, generation: nat)
    requires Faithful(sent, published, generation)
    ensures Faithful(sent, published + more, generation)
  {
  }

  ghost predicate EndsLast<P>(p: Publisher<P>) {
    && (p.closed ==> p.pending.None?)
    && forall i :: 0 <= i < |p.sent| && p.sent[i].Ended? ==> p.closed && i == |p.sent| - 1
  }

  lemma SendKeepsOk<P>(p: Publisher<P>, e: Event<P>, p': Publisher<P>)
    requires PublisherOk(p) && !p.closed
    requires p' == p.(sent := p.sent + [e], pending := p'.pending, closed := e.Ended?)
    requires if IsFrame(e) then p.pending == Some(e) && p'.pending.None? else p'.pending == p.pending
    requires e.Ended? ==> p.pending.None?
    ensures PublisherOk(p')
  {
    FaithfulAppend(p.sent, e, p.published, p.generation);
  }

  lemma PublishKeepsOk<P>(p: Publisher<P>, a: Publish<P>)
    requires PublisherOk(p) && PublishEnabled(p, a)
    ensures PublisherOk(PublishStep(p, a))
  {
    var p' := PublishStep(p, a);
    match a
    case Retain(event, bytes) =>
      RetainBuilds(p.log, p.published, p.generation, event, bytes);
      FaithfulGrows(p.sent, p.published, [event], p.generation);
      assert p'.published[|p.published|] == event;
    case Send => SendKeepsOk(p, p.pending.value, p');
    case SendState => SendKeepsOk(p, State, p');
    case End(cleanupReady) => SendKeepsOk(p, Ended(cleanupReady), p');
    case Drop =>
  }

  /** One frame, retained and then sent: the publisher afterwards, which is as sound as before. */
  lemma {:induction false} PublishedFrame<P>(p: Publisher<P>, event: Event<P>, size: nat)
    requires PublisherOk(p) && p.pending.None? && !p.closed
    requires event.Source? && event.generation == p.generation && event.frame.sequence == |p.published| + 1 <= U64_MAX
    ensures PublishEnabled(p, Retain(event, size))
    ensures var (log, admitted) := Retained(p.log, event, size);
      var p' := p.(log := log, published := p.published + [event],
                   sent := p.sent + [if admitted then event else Gap(p.generation, event.frame.sequence)]);
      && PublishStep(PublishStep(p, Retain(event, size)), Send) == p'
      && PublisherOk(p')
  {
    PublishKeepsOk(p, Retain(event, size));
    PublishKeepsOk(PublishStep(p, Retain(event, size)), Send);
  }

  /** A gap is sent for a frame only if it is too large to be kept. */
  lemma SentExactly<P>(p: Publisher<P>, event: Event<P>, size: nat)
    requires PublishEnabled(p, Retain(event, size))
    ensures var p' := PublishStep(PublishStep(p, Retain(event, size)), Send);
      && p'.sent == p.sent + [if size <= p.log.maxBytes then event else Gap(p.generation, event.frame.sequence)]
      && p'.published == p.published + [event]
  {
  }

  /** What the publisher looks at in a frame: a request to load a session, or a peer's response. */
  datatype Kind = LoadRequest(id: string) | PeerResponse(id: string) | Plain

  /** The capture that numbers a connection's frames, and the publisher that it feeds. */
  class EventPublisher<P> {
    const generation: nat
    const history: EventHistory<P>
    var sequence: nat
    var runId: string
    var replay: bool
    var replayRequest: Option<string>
    var sent: seq<Event<P>>
    ghost var published: seq<Event<P>>

    ghost function Value(): Publisher<P>
      reads this, history
    {
      Publisher(generation, history.Value(), published, None, sent, false)
    }

    ghost predicate Valid()
      reads this, history
    {
      PublisherOk(Value()) && sequence == |published|
    }

    constructor (generation: nat, history: EventHistory<P>, runId: string, replay: bool)
      requires WithinBudget(history.Value()) && history.entries == [] && history.latest.None? && !history.truncated
      ensures Valid() && published == [] && sent == []
      ensures this.generation == generation && this.history == history && this.runId == runId && this.replay == replay
    {
      this.generation, this.history := generation, history;
      sequence, this.runId, this.replay, replayRequest := 0, runId, replay, None;
      sent, published := [], [];
    }

    /** Number a frame, keep it in the history, and only then send it or the gap that stands for it. */
    method Record(direction: Direction, payload: P, kind: Kind, size: nat)
      requires Valid() && sequence < U64_MAX
      modifies this, history
      ensures Valid() && sequence == old(sequence) + 1 && runId == old(runId)
      ensures var event := Source(generation, old(runId), old(replay), Frame(old(sequence) + 1, direction, payload));
        && PublishEnabled(old(Value()), Retain(event, size))
        && Value() == PublishStep(PublishStep(old(Value()), Retain(event, size)), Send)
        && published == old(published) + [event]
        && sent == old(sent) + [if size <= history.maxBytes then event else Gap(generation, sequence)]
      ensures replayRequest == if direction == Outgoing && kind.LoadRequest? then Some(kind.id) else old(replayRequest)
      ensures replay
          == (old(replay) && !(direction == Incoming && kind.PeerResponse? && old(replayRequest) == Some(kind.id)))
    {
      sequence := sequence + 1;
      if direction == Outgoing && kind.LoadRequest? {
        replayRequest := Some(kind.id);
      }
      var endsReplay := direction == Incoming && kind.PeerResponse? && replayRequest == Some(kind.id);
      var event := Source(generation, runId, replay, Frame(sequence, direction, payload));
      ghost var before := Value();
      PublishedFrame(before, event, size);
      var admitted := history.Retain(event, size);
      published := published + [event];
      sent := sent + [if admitted then event else Gap(generation, sequence)];
      if endsReplay {
        replay := false;
      }
    }
  }
}
