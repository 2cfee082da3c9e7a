/** The bounded log of source frames: what it keeps, and when it still covers everything after a cursor. */
module SourceLog {
  import opened Prelude

  const U64_MAX: nat := 0xFFFF_FFFF_FFFF_FFFF
  const USIZE_MAX: nat := 0xFFFF_FFFF_FFFF_FFFF

  /** The launch check admits no larger source budget than this. */
  const MAX_QUEUED_BYTES: nat := 64 * 1024 * 1024

  type Cursor = (nat, nat)

  datatype Direction = Incoming | Outgoing | Other

  datatype Frame<+P> = Frame(sequence: nat, direction: Direction, payload: P)

  datatype Event<+P> =
    | Source(generation: nat, runId: string, replay: bool, frame: Frame<P>)
    | State
    | Gap(generation: nat, sequence: nat)
    | Ended(cleanupReady: bool)

  datatype Entry<+P> = Entry(event: Event<P>, bytes: nat)

  datatype Log<+P> = Log(
    entries: seq<Entry<P>>,
    bytes: nat,
    maxBytes: nat,
    maxFrames: nat,
    truncated: bool,
    latest: Option<Cursor>)

  datatype History<+P> = History(events: seq<Event<P>>, truncated: bool, latest: Option<Cursor>)

  function Sum<P>(entries: seq<Entry<P>>): nat {
    if entries == [] then 0 else entries[0].bytes + Sum(entries[1..])
  }

  lemma {:induction false} SumAppend<P>(entries: seq<Entry<P>>, e: Entry<P>)
    ensures Sum(entries + [e]) == Sum(entries) + e.bytes
  {
    if entries == [] {
      assert entries + [e] == [e];
    } else {
      assert (entries + [e])[1..] == entries[1..] + [e];
      SumAppend(entries[1..], e);
    }
  }

  function SaturatingAdd(a: nat, b: nat): nat { Min(a + b, USIZE_MAX) }

  predicate WithinBudget<P>(log: Log<P>) {
    && 1 <= log.maxFrames && log.maxBytes <= MAX_QUEUED_BYTES
    && log.bytes == Sum(log.entries) <= log.maxBytes
    && |log.entries| <= log.maxFrames
  }

  /** Drop from the front until one more entry of `size` bytes fits. */
  function Evicted<P>(log: Log<P>, size: nat): Log<P>
    requires log.bytes == Sum(log.entries)
    decreases |log.entries|
  {
    if log.entries != [] && (|log.entries| >= log.maxFrames || SaturatingAdd(log.bytes, size) > log.maxBytes)
    then Evicted(log.(entries := log.entries[1..], bytes := log.bytes - log.entries[0].bytes, truncated := true), size)
    else log
  }

  function CursorOf<P>(event: Event<P>, otherwise: Option<Cursor>): Option<Cursor> {
    if event.Source? then Some((event.generation, event.frame.sequence)) else otherwise
  }

  /** The log after one event of `size` encoded bytes, and whether it was admitted. */
  function Retained<P>(log: Log<P>, event: Event<P>, size: nat): (Log<P>, bool)
    requires log.bytes == Sum(log.entries)
  {
    var seen := log.(latest := CursorOf(event, log.latest));
    if size > log.maxBytes then (seen.(truncated := true), false)
    else
      var room := Evicted(seen, size);
      (room.(entries := room.entries + [Entry(event, size)], bytes := room.bytes + size), true)
  }

  /** One more entry of `size` bytes fits behind these, in frames and in bytes. */
  predicate RoomFor<P>(entries: seq<Entry<P>>, size: nat, maxFrames: nat, maxBytes: nat) {
    |entries| < maxFrames && Sum(entries) + size <= maxBytes
  }

  /** Dropping the first `n` entries makes room, and dropping one less does not. */
  predicate DropsJust<P>(entries: seq<Entry<P>>, n: nat, size: nat, maxFrames: nat, maxBytes: nat) {
    && n <= |entries| && RoomFor(entries[n..], size, maxFrames, maxBytes)
    && (n > 0 ==> !RoomFor(entries[n - 1..], size, maxFrames, maxBytes))
  }

  /** As few entries as possible are gone, the oldest ones, and any that went left the mark. */
  ghost predicate DropsOldest<P>(was: seq<Entry<P>>, now: seq<Entry<P>>, size: nat, maxFrames: nat, maxBytes: nat,
                                 marked: bool, marks: bool)
  {
    exists n: nat ::
      DropsJust(was, n, size, maxFrames, maxBytes) && now == was[n..] && marks == (marked || n > 0)
  }

  lemma DropsOneMore<P>(entries: seq<Entry<P>>, n: nat, size: nat, maxFrames: nat, maxBytes: nat)
    requires entries != [] && !RoomFor(entries, size, maxFrames, maxBytes)
    requires DropsJust(entries[1..], n, size, maxFrames, maxBytes)
    ensures DropsJust(entries, n + 1, size, maxFrames, maxBytes) && entries[1..][n..] == entries[n + 1..]
  {
    assert entries[1..][n..] == entries[n + 1..];
    if n > 0 {
      assert entries[1..][n - 1..] == entries[n..];
    } else {
      assert entries[0..] == entries;
    }
  }

  /**
   What eviction leaves, in the log's own terms: as few entries as possible go, from the front, and leave the mark.
   */
  lemma {:induction false} EvictedExactly<P>(log: Log<P>, size: nat) returns (n: nat)
    requires WithinBudget(log) && size <= log.maxBytes
    ensures DropsJust(log.entries, n, size, log.maxFrames, log.maxBytes)
    ensures Evicted(log, size).entries == log.entries[n..] && Evicted(log, size).truncated == (log.truncated || n > 0)
    decreases |log.entries|
  {
    if RoomFor(log.entries, size, log.maxFrames, log.maxBytes) || log.entries == [] {
      n := 0;
      assert log.entries[0..] == log.entries;
    } else {
      var next := log.(entries := log.entries[1..], bytes := log.bytes - log.entries[0].bytes, truncated := true);
      var m := EvictedExactly(next, size);
      DropsOneMore(log.entries, m, size, log.maxFrames, log.maxBytes);
      n := m + 1;
    }
  }

  class EventHistory<P> {
    var entries: seq<Entry<P>>
    var bytes: nat
    const maxBytes: nat
    const maxFrames: nat
    var truncated: bool
    var latest: Option<Cursor>

    ghost function Value(): Log<P>
      reads this
    {
      Log(entries, bytes, maxBytes, maxFrames, truncated, latest)
    }

    constructor (maxBytes: nat, maxFrames: nat)
      ensures Value() == Log([], 0, maxBytes, maxFrames, false, None)
    {
      this.maxBytes := maxBytes;
      this.maxFrames := maxFrames;
      entries, bytes, truncated, latest := [], 0, false, None;
    }

    method MakeRoom(size: nat)
      requires WithinBudget(Value()) && size <= maxBytes
      modifies this`entries, this`bytes, this`truncated
      ensures Value() == Evicted(old(Value()), size)
      ensures WithinBudget(Value()) && |entries| < maxFrames && bytes + size <= maxBytes
      ensures DropsOldest(old(entries), entries, size, maxFrames, maxBytes, old(truncated), truncated)
    {
      ghost var n := EvictedExactly(Value(), size);
      while |entries| >= maxFrames || SaturatingAdd(bytes, size) > maxBytes
        invariant WithinBudget(Value())
        invariant Evicted(Value(), size) == Evicted(old(Value()), size)
        decreases |entries|
      {
        if entries == [] {
          break;
        }
        bytes := bytes - entries[0].bytes;
        entries := entries[1..];
        truncated := true;
      }
    }

    method Retain(event: Event<P>, size: nat) returns (admitted: bool)
      requires WithinBudget(Value())
      modifies this
      ensures (Value(), admitted) == Retained(old(Value()), event, size)
      ensures WithinBudget(Value())
      ensures admitted == (size <= maxBytes)
      ensures latest == if event.Source? then Some((event.generation, event.frame.sequence)) else old(latest)
      ensures !admitted ==> entries == old(entries) && truncated
      ensures admitted ==>
                && entries != [] && entries[|entries| - 1] == Entry(event, size)
                && DropsOldest(old(entries), entries[..|entries| - 1], size, maxFrames, maxBytes,
                               old(truncated), truncated)
    {
      if event.Source? {
        latest := Some((event.generation, event.frame.sequence));
      }
      if size > maxBytes {
        truncated := true;
        return false;
      }
      MakeRoom(size);
      Push(Entry(event, size));
      return true;
    }

    method Push(entry: Entry<P>)
      requires WithinBudget(Value()) && |entries| < maxFrames && bytes + entry.bytes <= maxBytes
      modifies this`entries, this`bytes
      ensures WithinBudget(Value()) && bytes == old(bytes) + entry.bytes && entries == old(entries) + [entry]
      ensures entries[..|entries| - 1] == old(entries)
    {
      SumAppend(entries, entry);
      bytes := bytes + entry.bytes;
      entries := entries + [entry];
    }
  }

  // ---------------------------------------------------------------- coverage

  function Scan<P>(events: seq<Event<P>>, generation: nat, expected: nat, latest: nat): bool {
    if events == [] then false
    else
      var e := events[0];
      if e.Source? && e.generation == generation && e.frame.sequence >= expected then
        if e.frame.sequence != expected then false
        else if expected == latest then true
        else if expected == U64_MAX then false
        else Scan(events[1..], generation, expected + 1, latest)
      else Scan(events[1..], generation, expected, latest)
  }

  function Covers<P>(h: History<P>, cursor: Cursor): bool {
    if h.latest.None? then true
    else if h.latest.value.0 != cursor.0 then false
    else if h.latest.value.1 <= cursor.1 then true
    else if cursor.1 == U64_MAX then false
    else Scan(h.events, cursor.0, cursor.1 + 1, h.latest.value.1)
  }

  method CoversSince<P>(h: History<P>, cursor: Cursor) returns (covered: bool)
    ensures covered == Covers(h, cursor)
  {
    if h.latest.None? {
      return true;
    }
    var latest := h.latest.value;
    if latest.0 != cursor.0 {
      return false;
    }
    if latest.1 <= cursor.1 {
      return true;
    }
    if cursor.1 == U64_MAX {
      return false;
    }
    var expected: nat := cursor.1 + 1;
    for i := 0 to |h.events|
      invariant Covers(h, cursor) == Scan(h.events[i..], cursor.0, expected, latest.1)
    {
      var event := h.events[i];
      if event.Source? && event.generation == cursor.0 && event.frame.sequence >= expected {
        if event.frame.sequence != expected {
          return false;
        }
        if expected == latest.1 {
          return true;
        }
        if expected == U64_MAX {
          return false;
        }
        expected := expected + 1;
      }
    }
    return false;
  }

  // ---------------------------------------------------------------- the log against the full stream

  /** The frames of one connection: one generation, numbered from one without holes. */
  predicate Numbered<P>(published: seq<Event<P>>, generation: nat) {
    && |published| <= U64_MAX
    && forall i :: 0 <= i < |published| ==>
         published[i].Source? && published[i].generation == generation && published[i].frame.sequence == i + 1
  }

  function Events<P>(entries: seq<Entry<P>>): seq<Event<P>> {
    seq(|entries|, i requires 0 <= i < |entries| => entries[i].event)
  }

  function Snapshot<P>(log: Log<P>): History<P> {
    History(Events(log.entries), log.truncated, log.latest)
  }

  /** The kept events are published frames in publication order. */
  ghost predicate Ordered<P>(events: seq<Event<P>>, published: seq<Event<P>>) {
    && (forall i :: 0 <= i < |events| ==>
          && events[i].Source? && 1 <= events[i].frame.sequence <= |published|
          && events[i] == published[events[i].frame.sequence - 1])
    && (forall i, j :: 0 <= i < j < |events| ==> events[i].frame.sequence < events[j].frame.sequence)
  }

  ghost predicate Kept<P>(events: seq<Event<P>>, published: seq<Event<P>>, sequence: nat)
    requires 1 <= sequence <= |published|
  {
    published[sequence - 1] in events
  }

  /** A log that `Retain` built from the published frames. Anything it lost left the sticky mark. */
  ghost predicate Built<P>(log: Log<P>, published: seq<Event<P>>, generation: nat) {
    && WithinBudget(log)
    && Numbered(published, generation)
    && Ordered(Events(log.entries), published)
    && log.latest == (if published == [] then None else Some((generation, |published|)))
    && (!log.truncated ==> forall k :: 1 <= k <= |published| ==> Kept(Events(log.entries), published, k))
  }

  lemma {:induction false} EvictionKeepsOrder<P>(log: Log<P>, size: nat, published: seq<Event<P>>)
    requires log.bytes == Sum(log.entries) && Ordered(Events(log.entries), published)
    ensures var after := Evicted(log, size);
      && after.bytes == Sum(after.entries) && Ordered(Events(after.entries), published)
      && after.latest == log.latest && after.maxBytes == log.maxBytes && after.maxFrames == log.maxFrames
      && (!after.truncated ==> after == log)
      && (log.bytes <= log.maxBytes ==> after.bytes <= log.maxBytes)
      && (after.entries == [] || (|after.entries| < log.maxFrames && SaturatingAdd(after.bytes, size) <= log.maxBytes))
    decreases |log.entries|
  {
    if log.entries != [] && (|log.entries| >= log.maxFrames || SaturatingAdd(log.bytes, size) > log.maxBytes) {
      var next := log.(entries := log.entries[1..], bytes := log.bytes - log.entries[0].bytes, truncated := true);
      assert Events(next.entries) == Events(log.entries)[1..];
      EvictionKeepsOrder(next, size, published);
    }
  }

  lemma OrderedAppend<P>(events: seq<Event<P>>, published: seq<Event<P>>, event: Event<P>)
    requires Ordered(events, published)
    requires event.Source? && event.frame.sequence == |published| + 1
    ensures Ordered(events + [event], published + [event]) && Ordered(events, published + [event])
    ensures forall k :: 1 <= k <= |published| && Kept(events, published, k) ==>
        Kept(events + [event], published + [event], k)
    ensures Kept(events + [event], published + [event], |published| + 1)
  {
    var all, longer := published + [event], events + [event];
    assert all[|published|] == event && longer[|events|] == event;
    forall k | 1 <= k <= |published| && Kept(events, published, k) ensures Kept(longer, all, k) {
      var i :| 0 <= i < |events| && events[i] == published[k - 1];
      assert longer[i] == all[k - 1];
    }
  }

  lemma AppendBuilds<P>(room: Log<P>, published: seq<Event<P>>, generation: nat, event: Event<P>, size: nat)
    requires Ordered(Events(room.entries), published) && Numbered(published + [event], generation)
    requires room.bytes == Sum(room.entries) && room.bytes + size <= room.maxBytes <= MAX_QUEUED_BYTES
    requires |room.entries| < room.maxFrames && room.latest == Some((generation, |published| + 1))
    requires !room.truncated ==> forall k :: 1 <= k <= |published| ==> Kept(Events(room.entries), published, k)
    ensures Built(room.(entries := room.entries + [Entry(event, size)], bytes := room.bytes + size),
                  published + [event], generation)
  {
    assert (published + [event])[|published|] == event;
    SumAppend(room.entries, Entry(event, size));
    OrderedAppend(Events(room.entries), published, event);
    assert Events(room.entries + [Entry(event, size)]) == Events(room.entries) + [event];
  }

  /** One more published frame keeps the log built, whether it fits, evicts, or is too large to keep. */
  lemma RetainBuilds<P>(log: Log<P>, published: seq<Event<P>>, generation: nat, event: Event<P>, size: nat)
    requires Built(log, published, generation) && Numbered(published + [event], generation)
    ensures Built(Retained(log, event, size).0, published + [event], generation)
  {
    assert (published + [event])[|published|] == event;
    if size <= log.maxBytes {
      var seen := log.(latest := CursorOf(event, log.latest));
      EvictionKeepsOrder(seen, size, published);
      AppendBuilds(Evicted(seen, size), published, generation, event, size);
    } else {
      OrderedAppend(Events(log.entries), published, event);
    }
  }

  /** Scanning an ordered log from `expected` succeeds exactly when no frame from there on is missing. */
  lemma {:induction false} ScanExactly<P>(events: seq<Event<P>>, published: seq<Event<P>>, generation: nat,
                                          expected: nat)
    requires Numbered(published, generation) && Ordered(events, published) && 1 <= expected <= |published|
    ensures Scan(events, generation, expected, |published|)
            <==> forall k :: expected <= k <= |published| ==> Kept(events, published, k)
  {
    if events == [] {
      assert !Kept(events, published, expected);
    } else {
      var e, rest := events[0], events[1..];
      var n := e.frame.sequence;
      assert Ordered(rest, published);
      assert forall k :: 1 <= k <= |published| ==> (Kept(events, published, k) <==> k == n || Kept(rest, published, k));
      if n > expected {
        assert !Kept(rest, published, expected);
      } else if n < expected {
        ScanExactly(rest, published, generation, expected);
      } else if expected < |published| {
        ScanExactly(rest, published, generation, expected + 1);
      }
    }
  }

  /**
   For a log built from one connection's frames, a cursor of its generation is covered exactly when every
   later frame is still kept. With nothing published any cursor is; another generation never is.
   */
  lemma CoversExactly<P>(log: Log<P>, published: seq<Event<P>>, generation: nat, cursor: Cursor)
    requires Built(log, published, generation)
    ensures Covers(Snapshot(log), cursor) <==>
              || published == []
              || (cursor.0 == generation
                  && forall k :: cursor.1 < k <= |published| ==> Kept(Events(log.entries), published, k))
  {
    if published != [] && cursor.0 == generation && cursor.1 < |published| {
      ScanExactly(Events(log.entries), published, generation, cursor.1 + 1);
    }
  }
}
