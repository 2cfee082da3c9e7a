/** The server-sent event stream: subscribe, then read the history, then follow live without repeats. */
module EventStream {
  import opened Prelude
  import opened SourceLog
  import opened Broadcast

  /** `Notice` is the stream's own gap event; a frame too large to keep is delivered as a `Gap` session event. */
  datatype Output<+P> = Snapshotted | Notice | Delivered(event: Event<P>)

  datatype Stream<+P> =
    | Detached
    | Subscribed(next: nat)
    | Following(next: nat, last: nat, output: seq<Output<P>>)
    | Done(output: seq<Output<P>>)

  datatype System<+P> = System(publisher: Publisher<P>, capacity: nat, stream: Stream<P>)

  datatype Action<+P> = Publishes(publish: Publish<P>) | Subscribe | ReadHistory | Receive

  /** The highest sequence number in a history, zero when it holds no source frame. */
  function LastSequence<P>(events: seq<Event<P>>): nat {
    if events == [] then 0
    else
      var rest := LastSequence(events[1..]);
      if events[0].Source? then Max(events[0].frame.sequence, rest) else rest
  }

  function Deliveries<P>(events: seq<Event<P>>): seq<Output<P>> {
    seq(|events|, i requires 0 <= i < |events| => Delivered(events[i]))
  }

  function Opening<P>(h: History<P>): seq<Output<P>> {
    [Snapshotted] + (if h.truncated then [Notice] else []) + Deliveries(h.events)
  }

  /** What the receiver reports: the next event, or that it fell behind. Exhaustion means the channel closed. */
  datatype Arrival<+P> = Arrived(event: Event<P>) | Lagged

  /** What one arrival makes the stream yield, and whether it ends the stream. */
  function Reaction<P>(last: nat, arrival: Arrival<P>): (seq<Output<P>>, bool) {
    match arrival
    case Lagged => ([Notice], true)
    case Arrived(e) =>
      if e.Source? && e.frame.sequence <= last then ([], false) else ([Delivered(e)], e.Ended?)
  }

  function Live<P>(last: nat, arrivals: seq<Arrival<P>>): seq<Output<P>> {
    if arrivals == [] then []
    else
      var (yielded, ended) := Reaction(last, arrivals[0]);
      yielded + (if ended then [] else Live(last, arrivals[1..]))
  }

  method Highest<P>(events: seq<Event<P>>) returns (last: nat)
    ensures last == LastSequence(events)
  {
    last := 0;
    for i := |events| downto 0
      invariant last == LastSequence(events[i..])
    {
      if events[i].Source? {
        last := Max(events[i].frame.sequence, last);
      }
    }
  }

  method Open<P>(h: History<P>) returns (output: seq<Output<P>>)
    ensures output == Opening(h)
  {
    output := [Snapshotted];
    if h.truncated {
      output := output + [Notice];
    }
    ghost var head := output;
    for i := 0 to |h.events|
      invariant output == head + Deliveries(h.events)[..i]
    {
      output := output + [Delivered(h.events[i])];
    }
  }

  /** The stream's body: the snapshot, the history, then live events past it until the end, a lag or a close. */
  method Follow<P>(h: History<P>, arrivals: seq<Arrival<P>>) returns (output: seq<Output<P>>)
    ensures output == Opening(h) + Live(LastSequence(h.events), arrivals)
  {
    var last := Highest(h.events);
    output := Open(h);
    var live := FollowLive(last, arrivals);
    output := output + live;
  }

  lemma LiveStep<P>(last: nat, arrivals: seq<Arrival<P>>, i: nat)
    requires i < |arrivals|
    ensures var (yielded, ended) := Reaction(last, arrivals[i]);
      Live(last, arrivals[i..]) == yielded + (if ended then [] else Live(last, arrivals[i + 1..]))
  {
    assert arrivals[i..][1..] == arrivals[i + 1..];
  }

  /** `output` and the rest of the arrivals give the same as all of them. */
  ghost predicate Upto<P>(output: seq<Output<P>>, last: nat, arrivals: seq<Arrival<P>>, i: nat)
    requires i <= |arrivals|
  {
    output + Live(last, arrivals[i..]) == Live(last, arrivals)
  }

  /** Both sequences name what they stand for, so that only the grouping is left to show. */
  lemma UptoNext<P>(output: seq<Output<P>>, last: nat, arrivals: seq<Arrival<P>>, i: nat, yielded: seq<Output<P>>)
    requires i < |arrivals| && Upto(output, last, arrivals, i) && Reaction(last, arrivals[i]).0 == yielded
    ensures if Reaction(last, arrivals[i]).1 then Live(last, arrivals) == output + yielded
            else Upto(output + yielded, last, arrivals, i + 1)
  {
    LiveStep(last, arrivals, i);
    var rest := if Reaction(last, arrivals[i]).1 then [] else Live(last, arrivals[i + 1..]);
    assert Live(last, arrivals[i..]) == yielded + rest;
    Associate(output, yielded, rest);
    assert yielded + [] == yielded;
  }

  method FollowLive<P>(last: nat, arrivals: seq<Arrival<P>>) returns (output: seq<Output<P>>)
    ensures output == Live(last, arrivals)
  {
    output := [];
    for i := 0 to |arrivals|
      invariant Upto(output, last, arrivals, i)
    {
      UptoNext(output, last, arrivals, i, Reaction(last, arrivals[i]).0);
      var arrival := arrivals[i];
      if arrival.Lagged? {
        return output + [Notice];
      }
      if arrival.event.Source? && arrival.event.frame.sequence <= last {
        assert output + [] == output;
        continue;
      }
      output := output + [Delivered(arrival.event)];
      if arrival.event.Ended? {
        return;
      }
    }
  }

  ghost predicate Enabled<P>(s: System<P>, a: Action<P>) {
    match a
    case Publishes(publish) => PublishEnabled(s.publisher, publish)
    case Subscribe => s.stream.Detached?
    case ReadHistory => s.stream.Subscribed?
    case Receive => s.stream.Following? && s.stream.next <= |s.publisher.sent|
                    && (s.stream.next < |s.publisher.sent| || s.publisher.closed)
  }

  function Received<P>(s: System<P>): Stream<P>
    requires Enabled(s, Receive)
  {
    var Following(next, last, output) := s.stream;
    var sent := s.publisher.sent;
    if next == |sent| then Done(output)
    else
      var (yielded, ended) := Reaction(last, if |sent| - next > s.capacity then Lagged else Arrived(sent[next]));
      if ended then Done(output + yielded) else Following(next + 1, last, output + yielded)
  }

  function Step<P>(s: System<P>, a: Action<P>): System<P>
    requires Enabled(s, a)
  {
    match a
    case Publishes(publish) => s.(publisher := PublishStep(s.publisher, publish))
    case Subscribe => s.(stream := Subscribed(|s.publisher.sent|))
    case ReadHistory =>
      var h := Snapshot(s.publisher.log);
      s.(stream := Following(s.stream.next, LastSequence(h.events), Opening(h)))
    case Receive => s.(stream := Received(s))
  }

  /** A publisher with an empty log, or any later one: the stream may attach at any time. */
  ghost predicate Initial<P>(s: System<P>) {
    PublisherOk(s.publisher) && s.stream.Detached?
  }

  ghost predicate Execution<P>(trace: seq<System<P>>, actions: seq<Action<P>>) {
    && |trace| == |actions| + 1
    && Initial(trace[0])
    && forall i :: 0 <= i < |actions| ==> Enabled(trace[i], actions[i]) && trace[i + 1] == Step(trace[i], actions[i])
  }

  // ---------------------------------------------------------------- what the output accounts for

  predicate IsSource<P>(o: Output<P>) { o.Delivered? && o.event.Source? }

  /** Frame `k` was yielded, or the gap that stands for it because it was too large to keep. */
  ghost predicate Covered<P>(output: seq<Output<P>>, p: Publisher<P>, k: nat)
    requires 1 <= k <= |p.published|
  {
    Delivered(p.published[k - 1]) in output || Delivered(Gap(p.generation, k)) in output
  }

  /** Every frame after the first `m` and up to `n` was. */
  ghost predicate CoveredSince<P>(output: seq<Output<P>>, p: Publisher<P>, m: nat, n: nat) {
    n <= |p.published| && forall k :: m < k <= n ==> Covered(output, p, k)
  }

  /** Source frames appear in strictly increasing sequence, none above `bound`. */
  predicate Rising<P>(output: seq<Output<P>>, bound: nat) {
    && (forall i :: 0 <= i < |output| && IsSource(output[i]) ==> output[i].event.frame.sequence <= bound)
    && (forall i, j :: 0 <= i < j < |output| && IsSource(output[i]) && IsSource(output[j]) ==>
          output[i].event.frame.sequence < output[j].event.frame.sequence)
  }

  ghost predicate StreamOk<P>(p: Publisher<P>, stream: Stream<P>) {
    match stream
    case Detached => true
    case Subscribed(next) => next <= |p.sent|
    case Following(next, last, output) =>
      next <= |p.sent| && last <= |p.published| && Rising(output, Max(last, FrameCount(p.sent, next)))
    case Done(output) => Rising(output, |p.published|)
  }

  ghost predicate Inv<P>(s: System<P>) {
    PublisherOk(s.publisher) && StreamOk(s.publisher, s.stream)
  }

  // ---------------------------------------------------------------- preservation

  lemma {:induction false} LastSequenceIsLast<P>(events: seq<Event<P>>, published: seq<Event<P>>)
    requires Ordered(events, published)
    ensures LastSequence(events) == (if events == [] then 0 else events[|events| - 1].frame.sequence)
    ensures LastSequence(events) <= |published|
  {
    if events != [] {
      assert Ordered(events[1..], published);
      LastSequenceIsLast(events[1..], published);
    }
  }

  lemma {:induction false} AtMostLast<P>(events: seq<Event<P>>, published: seq<Event<P>>)
    requires Ordered(events, published)
    ensures forall i :: 0 <= i < |events| ==> events[i].frame.sequence <= LastSequence(events)
  {
    LastSequenceIsLast(events, published);
  }

  lemma {:induction false} OpeningRises<P>(h: History<P>, published: seq<Event<P>>)
    requires Ordered(h.events, published)
    ensures Rising(Opening(h), LastSequence(h.events))
  {
    AtMostLast(h.events, published);
    var offset := if h.truncated then 2 else 1;
    assert forall i :: 0 <= i < |Opening(h)| && IsSource(Opening(h)[i]) ==>
        offset <= i && Opening(h)[i].event == h.events[i - offset];
  }

  lemma RisingAppend<P>(output: seq<Output<P>>, bound: nat, e: Event<P>, bound': nat)
    requires Rising(output, bound) && bound <= bound'
    requires e.Source? ==> bound < e.frame.sequence <= bound'
    ensures Rising(output + [Delivered(e)], bound')
  {
  }

  /** The next frame in the channel is the one after all frames consumed so far. */
  lemma NextFrame<P>(s: System<P>)
    requires Inv(s) && s.stream.Following? && s.stream.next < |s.publisher.sent|
    ensures var p, next := s.publisher, s.stream.next;
      && FrameCount(p.sent, next + 1) == FrameCount(p.sent, next) + (if IsFrame(p.sent[next]) then 1 else 0)
      && FrameCount(p.sent, next + 1) <= |p.published|
      && (IsFrame(p.sent[next]) ==> StandsFor(p.sent[next], p.published, p.generation, FrameCount(p.sent, next) + 1))
  {
    FrameCountGrows(s.publisher.sent, s.stream.next + 1, |s.publisher.sent|);
  }

  lemma ReceivedOk<P>(s: System<P>)
    requires Inv(s) && Enabled(s, Receive)
    ensures StreamOk(s.publisher, Received(s))
  {
    var p := s.publisher;
    var Following(next, last, output) := s.stream;
    FrameCountGrows(p.sent, next, |p.sent|);
    if next < |p.sent| {
      NextFrame(s);
      var e := p.sent[next];
      if e.Source? && e.frame.sequence <= last {
        assert output + [] == output;
      } else {
        RisingAppend(output, Max(last, FrameCount(p.sent, next)), e, Max(last, FrameCount(p.sent, next + 1)));
      }
    }
  }

  lemma PublishKeepsStream<P>(p: Publisher<P>, a: Publish<P>, stream: Stream<P>)
    requires PublisherOk(p) && StreamOk(p, stream) && PublishEnabled(p, a)
    ensures StreamOk(PublishStep(p, a), stream)
  {
    if stream.Following? {
      SentGrows(p, a, stream.next);
    }
  }

  lemma SentGrows<P>(p: Publisher<P>, a: Publish<P>, next: nat)
    requires PublishEnabled(p, a) && next <= |p.sent|
    ensures p.sent <= PublishStep(p, a).sent && FrameCount(PublishStep(p, a).sent, next) == FrameCount(p.sent, next)
  {
    var more := PublishStep(p, a).sent[|p.sent|..];
    assert PublishStep(p, a).sent == p.sent + more;
    FrameCountPrefix(p.sent, more, next);
  }

  lemma StepKeepsInv<P>(s: System<P>, a: Action<P>)
    requires Inv(s) && Enabled(s, a)
    ensures Inv(Step(s, a))
  {
    match a
    case Publishes(publish) =>
      PublishKeepsOk(s.publisher, publish);
      PublishKeepsStream(s.publisher, publish, s.stream);
    case Subscribe =>
    case ReadHistory =>
      var h := Snapshot(s.publisher.log);
      LastSequenceIsLast(h.events, s.publisher.published);
      OpeningRises(h, s.publisher.published);
    case Receive => ReceivedOk(s);
  }

  lemma {:induction false} EveryStateOk<P>(trace: seq<System<P>>, actions: seq<Action<P>>, i: nat)
    requires Execution(trace, actions) && i < |trace|
    ensures Inv(trace[i])
  {
    if i > 0 {
      EveryStateOk(trace, actions, i - 1);
      StepKeepsInv(trace[i - 1], actions[i - 1]);
    }
  }

  function OutputOf<P>(stream: Stream<P>): seq<Output<P>> {
    if stream.Following? || stream.Done? then stream.output else []
  }

  /** At every moment of every run source frames have been yielded in strictly increasing sequence. */
  lemma NeverRepeats<P>(trace: seq<System<P>>, actions: seq<Action<P>>, t: nat)
    requires Execution(trace, actions) && t < |trace|
    ensures var output := OutputOf(trace[t].stream);
      forall i, j :: 0 <= i < j < |output| && IsSource(output[i]) && IsSource(output[j]) ==>
        output[i].event.frame.sequence < output[j].event.frame.sequence
  {
    EveryStateOk(trace, actions, t);
  }

  // ---------------------------------------------------------------- since the history was read

  /** The last output says that the subscriber lagged; the opening's own notice does not count. */
  predicate EndsWithLag<P>(opening: seq<Output<P>>, output: seq<Output<P>>) {
    |opening| < |output| && output[|output| - 1] == Notice
  }

  /** No frame after the first `m` is missing before a later one that was yielded. */
  ghost predicate NoHoles<P>(output: seq<Output<P>>, p: Publisher<P>, m: nat) {
    forall i :: 0 <= i < |output| && IsSource(output[i]) ==> CoveredSince(output, p, m, output[i].event.frame.sequence)
  }

  /** What holds of a stream that read the history, as `opening`, when `m` frames were published. */
  ghost predicate Since<P>(p: Publisher<P>, stream: Stream<P>, m: nat, opening: seq<Output<P>>) {
    && m <= |p.published|
    && opening <= OutputOf(stream)
    && match stream
       case Following(next, last, output) =>
         next <= |p.sent| && last <= m && CoveredSince(output, p, m, FrameCount(p.sent, next))
       case Done(output) =>
         NoHoles(output, p, m) &&
         (EndsWithLag(opening, output) || (p.closed && CoveredSince(output, p, m, |p.published|)))
       case _ => false
  }

  lemma FollowingHasNoHoles<P>(s: System<P>, m: nat, opening: seq<Output<P>>)
    requires Inv(s) && s.stream.Following? && Since(s.publisher, s.stream, m, opening)
    ensures NoHoles(s.stream.output, s.publisher, m)
  {
    FrameCountGrows(s.publisher.sent, s.stream.next, |s.publisher.sent|);
  }

  lemma StillCovered<P>(output: seq<Output<P>>, more: seq<Output<P>>, p: Publisher<P>, m: nat, n: nat)
    requires CoveredSince(output, p, m, n)
    ensures CoveredSince(output + more, p, m, n)
  {
    forall k | m < k <= n ensures Covered(output + more, p, k) {
      assert Covered(output, p, k);
    }
  }

  lemma NoHolesAppend<P>(output: seq<Output<P>>, o: Output<P>, p: Publisher<P>, m: nat)
    requires NoHoles(output, p, m)
    requires IsSource(o) ==> CoveredSince(output + [o], p, m, o.event.frame.sequence)
    ensures NoHoles(output + [o], p, m)
  {
    forall i | 0 <= i < |output + [o]| && IsSource((output + [o])[i])
      ensures CoveredSince(output + [o], p, m, (output + [o])[i].event.frame.sequence)
    {
      if i < |output| {
        StillCovered(output, [o], p, m, output[i].event.frame.sequence);
      }
    }
  }

  /** Yielding the next frame, or skipping one that the history already held, covers one more frame. */
  lemma NextCovered<P>(s: System<P>, m: nat, opening: seq<Output<P>>)
    requires Inv(s) && s.stream.Following? && Since(s.publisher, s.stream, m, opening)
    requires s.stream.next < |s.publisher.sent|
    ensures var p, next, output := s.publisher, s.stream.next, s.stream.output;
      var (yielded, _) := Reaction(s.stream.last, Arrived(p.sent[next]));
      CoveredSince(output + yielded, p, m, FrameCount(p.sent, next + 1))
  {
    var p, next, output := s.publisher, s.stream.next, s.stream.output;
    var e := p.sent[next];
    var yielded := Reaction(s.stream.last, Arrived(e)).0;
    NextFrame(s);
    StillCovered(output, yielded, p, m, FrameCount(p.sent, next));
    if yielded != [] {
      assert (output + yielded)[|output|] == Delivered(e);
    }
  }

  lemma ReceivedSince<P>(s: System<P>, m: nat, opening: seq<Output<P>>)
    requires Inv(s) && Enabled(s, Receive) && Since(s.publisher, s.stream, m, opening)
    ensures Since(s.publisher, Received(s), m, opening)
  {
    var p := s.publisher;
    var Following(next, last, output) := s.stream;
    FollowingHasNoHoles(s, m, opening);
    if next < |p.sent| {
      if |p.sent| - next > s.capacity {
        NoHolesAppend(output, Notice, p, m);
      } else {
        NextCovered(s, m, opening);
        if p.sent[next].Ended? {
          NoHolesAppend(output, Delivered(p.sent[next]), p, m);
        }
      }
    }
  }

  lemma PublishKeepsSince<P>(p: Publisher<P>, a: Publish<P>, stream: Stream<P>, m: nat, opening: seq<Output<P>>)
    requires PublisherOk(p) && PublishEnabled(p, a) && Since(p, stream, m, opening)
    ensures Since(PublishStep(p, a), stream, m, opening)
  {
    var p' := PublishStep(p, a);
    assert p.published <= p'.published;
    assert forall k :: 1 <= k <= |p.published| && Covered(stream.output, p, k) ==> Covered(stream.output, p', k);
    if stream.Following? {
      SentGrows(p, a, stream.next);
    }
  }

  ghost predicate ReadAt<P>(trace: seq<System<P>>, actions: seq<Action<P>>, r: nat) {
    Execution(trace, actions) && r < |actions| && actions[r] == ReadHistory
  }

  /** The history as the stream yielded it, and how many frames were published when it was read. */
  function OpeningAt<P>(s: System<P>): seq<Output<P>> { Opening(Snapshot(s.publisher.log)) }

  function PublishedAt<P>(s: System<P>): nat { |s.publisher.published| }

  lemma ReadSince<P>(s: System<P>)
    requires Inv(s) && Enabled(s, ReadHistory)
    ensures Since(s.publisher, Step(s, ReadHistory).stream, PublishedAt(s), OpeningAt(s))
  {
    LastSequenceIsLast(Snapshot(s.publisher.log).events, s.publisher.published);
    FrameCountGrows(s.publisher.sent, s.stream.next, |s.publisher.sent|);
  }

  lemma StepSince<P>(s: System<P>, a: Action<P>, m: nat, opening: seq<Output<P>>)
    requires Inv(s) && Enabled(s, a) && Since(s.publisher, s.stream, m, opening)
    ensures Since(Step(s, a).publisher, Step(s, a).stream, m, opening)
  {
    match a
    case Publishes(publish) => PublishKeepsSince(s.publisher, publish, s.stream, m, opening);
    case Receive => ReceivedSince(s, m, opening);
  }

  lemma {:induction false} EveryStateSince<P>(trace: seq<System<P>>, actions: seq<Action<P>>, r: nat, t: nat)
    requires ReadAt(trace, actions, r) && r < t < |trace|
    ensures Since(trace[t].publisher, trace[t].stream, PublishedAt(trace[r]), OpeningAt(trace[r]))
  {
    EveryStateOk(trace, actions, t - 1);
    if t == r + 1 {
      ReadSince(trace[r]);
    } else {
      EveryStateSince(trace, actions, r, t - 1);
      StepSince(trace[t - 1], actions[t - 1], PublishedAt(trace[r]), OpeningAt(trace[r]));
    }
  }

  /** The opening holds every frame published so far, or it announces that some are lost. */
  lemma OpeningAccounts<P>(p: Publisher<P>, k: nat)
    requires PublisherOk(p) && 1 <= k <= |p.published|
    ensures var opening := Opening(Snapshot(p.log));
      && (Notice in opening <==> p.log.truncated)
      && (!p.log.truncated ==> Delivered(p.published[k - 1]) in opening)
  {
    var h := Snapshot(p.log);
    if h.truncated {
      assert Opening(h)[1] == Notice;
    } else {
      assert Kept(h.events, p.published, k);
      var i :| 0 <= i < |h.events| && h.events[i] == p.published[k - 1];
      assert Opening(h)[i + 1] == Delivered(h.events[i]);
    }
  }

  /**
   When the stream ends, every frame is accounted for. One published before the history was read is in the opening,
   or the opening announced a loss. A later one was yielded, or a gap in its place, or the stream's last word is
   that the subscriber lagged: a truncated history excuses no frame that came after it.
   */
  lemma NoSilentLoss<P>(trace: seq<System<P>>, actions: seq<Action<P>>, r: nat, t: nat, k: nat)
    requires ReadAt(trace, actions, r) && r < t < |trace| && trace[t].stream.Done?
    requires 1 <= k <= |trace[t].publisher.published|
    ensures var p, output, opening := trace[t].publisher, trace[t].stream.output, OpeningAt(trace[r]);
      && opening <= output
      && if k <= PublishedAt(trace[r])
         then Delivered(trace[r].publisher.published[k - 1]) in opening
              || (Notice in opening && trace[r].publisher.log.truncated)
         else Covered(output, p, k) || EndsWithLag(opening, output)
  {
    EveryStateSince(trace, actions, r, t);
    EveryStateOk(trace, actions, r);
    if k <= PublishedAt(trace[r]) {
      OpeningAccounts(trace[r].publisher, k);
    }
  }

  /** At every moment, lag or not, no frame published since the read is missing before one that was yielded. */
  lemma NoHoleBeforeYielded<P>(trace: seq<System<P>>, actions: seq<Action<P>>, r: nat, t: nat, i: nat, k: nat)
    requires ReadAt(trace, actions, r) && r < t < |trace|
    requires i < |OutputOf(trace[t].stream)| && IsSource(OutputOf(trace[t].stream)[i])
    requires PublishedAt(trace[r]) < k <= OutputOf(trace[t].stream)[i].event.frame.sequence
    ensures k <= |trace[t].publisher.published| && Covered(OutputOf(trace[t].stream), trace[t].publisher, k)
  {
    EveryStateSince(trace, actions, r, t);
    EveryStateOk(trace, actions, t);
    if trace[t].stream.Following? {
      FollowingHasNoHoles(trace[t], PublishedAt(trace[r]), OpeningAt(trace[r]));
    }
  }

  // ---------------------------------------------------------------- nothing but what it has to yield

  /** The snapshot comes first, then the notice of a loss if there was one, then the history, each event once. */
  lemma OpeningExactly<P>(h: History<P>)
    ensures var opening, head := Opening(h), if h.truncated then 2 else 1;
      && |opening| == head + |h.events| && opening[0] == Snapshotted
      && (h.truncated ==> opening[1] == Notice)
      && forall i :: 0 <= i < |h.events| ==> opening[head + i] == Delivered(h.events[i])
  {
  }

  predicate Passes<P>(a: Arrival<P>) { a.Arrived? && !a.event.Ended? }

  predicate InHistory<P>(last: nat, a: Arrival<P>) { a.Arrived? && a.event.Source? && a.event.frame.sequence <= last }

  /** Every event but the frames that the history held already. */
  function Shown<P>(last: nat, arrivals: seq<Arrival<P>>): seq<Output<P>>
  {
    if arrivals == [] then []
    else
      var a := arrivals[0];
      (if a.Arrived? && !InHistory(last, a) then [Delivered(a.event)] else []) + Shown(last, arrivals[1..])
  }

  /** What stops the stream: it passes on the end of the session, and says that it fell behind. */
  function LastWord<P>(a: Arrival<P>): seq<Output<P>> { if a.Lagged? then [Notice] else [Delivered(a.event)] }

  /** The live part: all that arrives and is new, state changes included, up to the first end or lag, which is told. */
  lemma {:induction false} LiveExactly<P>(last: nat, arrivals: seq<Arrival<P>>) returns (n: nat)
    ensures n <= |arrivals| && (forall i :: 0 <= i < n ==> Passes(arrivals[i]))
    ensures n < |arrivals| ==> !Passes(arrivals[n])
    ensures Live(last, arrivals) == Shown(last, arrivals[..n]) + (if n < |arrivals| then LastWord(arrivals[n]) else [])
    decreases |arrivals|
  {
    if arrivals == [] || !Passes(arrivals[0]) {
      n := 0;
      assert arrivals[..0] == [];
    } else {
      var m := LiveExactly(last, arrivals[1..]);
      n := m + 1;
      assert arrivals[..n] == [arrivals[0]] + arrivals[1..][..m];
      var word := if m < |arrivals[1..]| then LastWord(arrivals[1..][m]) else [];
      assert arrivals[..n][1..] == arrivals[1..][..m];
      Associate(Reaction(last, arrivals[0]).0, Shown(last, arrivals[1..][..m]), word);
    }
  }

  /** More than the channel holds is waiting, so the oldest of it is gone. */
  predicate Behind<P>(s: System<P>) {
    s.stream.Following? && |s.publisher.sent| - s.stream.next > s.capacity
  }

  /** Whatever a following stream has yielded after its opening is an event that arrived. */
  ghost predicate OnlyEvents<P>(opening: seq<Output<P>>, output: seq<Output<P>>) {
    opening <= output && forall k :: |opening| <= k < |output| ==> output[k].Delivered?
  }


  /** What the stream has said so far: events only, or it is over and its last word is that it fell behind. */
  ghost predicate Told<P>(opening: seq<Output<P>>, stream: Stream<P>) {
    && (stream.Following? || stream.Done?)
    && if EndsWithLag(opening, OutputOf(stream)) then stream.Done? else OnlyEvents(opening, OutputOf(stream))
  }

  lemma ReceivedTold<P>(s: System<P>, opening: seq<Output<P>>)
    requires Enabled(s, Receive) && Told(opening, s.stream)
    ensures Told(opening, Received(s)) && (EndsWithLag(opening, OutputOf(Received(s))) <==> Behind(s))
  {
  }

  lemma StepTold<P>(s: System<P>, a: Action<P>, opening: seq<Output<P>>)
    requires Enabled(s, a) && Told(opening, s.stream)
    ensures Told(opening, Step(s, a).stream)
    ensures EndsWithLag(opening, OutputOf(Step(s, a).stream)) <==>
            EndsWithLag(opening, OutputOf(s.stream)) || (Behind(s) && a == Receive)
  {
    match a
    case Publishes(_) =>
    case Receive => ReceivedTold(s, opening);
  }

  /** Between two moments the stream tried to receive while it was behind. */
  ghost predicate FellBehind<P>(trace: seq<System<P>>, actions: seq<Action<P>>, r: nat, t: nat)
    requires t <= |trace| && t <= |actions|
  {
    exists u :: r < u < t && Behind(trace[u]) && actions[u] == Receive
  }

  /** The stream says that it fell behind exactly when it did: at one earlier moment more was waiting than is kept. */
  lemma {:induction false} LagExactly<P>(trace: seq<System<P>>, actions: seq<Action<P>>, r: nat, t: nat)
    requires ReadAt(trace, actions, r) && r < t < |trace|
    ensures Told(OpeningAt(trace[r]), trace[t].stream)
    ensures EndsWithLag(OpeningAt(trace[r]), OutputOf(trace[t].stream)) <==> FellBehind(trace, actions, r, t)
  {
    if t > r + 1 {
      LagExactly(trace, actions, r, t - 1);
      StepTold(trace[t - 1], actions[t - 1], OpeningAt(trace[r]));
    }
  }
}
