/** The in-memory event bus: partitions trimmed to a cap, with cursors that stay valid. */
module EventBus {
  import opened Wrappers

  /** An envelope is identified by its event id here. */
  type Event = string

  datatype Entry = Entry(sequence: nat, event: Event)

  /** The last `cap` events of a history, numbered by their position in it. */
  function Window(history: seq<Event>, cap: Option<nat>): seq<Entry>
  {
    var kept := if cap.Some? && cap.value < |history| then cap.value else |history|;
    var first := |history| - kept;
    seq(kept, i requires 0 <= i < kept => Entry(first + i, history[first + i]))
  }

  /** Keeps the newest entries within the cap. */
  function Trim(entries: seq<Entry>, cap: Option<nat>): seq<Entry>
  {
    if cap.Some? && |entries| > cap.value then entries[|entries| - cap.value..] else entries
  }

  /** A partition holds the window of what was published to it. */
  predicate InStep(entries: seq<Entry>, next: nat, history: seq<Event>, cap: Option<nat>)
  {
    next == |history| && entries == Window(history, cap)
  }

  function After(entries: seq<Entry>, start: int): seq<Entry>
  {
    if entries == [] then []
    else (if entries[0].sequence >= start then [entries[0]] else []) + After(entries[1..], start)
  }

  class InMemoryEventBus {
    const cap: Option<nat>
    var partitions: map<string, seq<Entry>>
    var nextSequence: map<string, nat>
    /** Everything ever published, per partition. */
    ghost var history: map<string, seq<Event>>

    ghost predicate Valid()
      reads this
    {
      && partitions.Keys == nextSequence.Keys == history.Keys
      && forall k | k in history :: InStep(partitions[k], nextSequence[k], history[k], cap)
    }

    constructor (cap: Option<nat>)
      ensures Valid() && history == map[] && this.cap == cap
    {
      this.cap := cap;
      partitions, nextSequence, history := map[], map[], map[];
    }

    ghost function Published(k: string): seq<Event>
      reads this
    {
      if k in history then history[k] else []
    }

    /** Appends to the partition and trims the oldest entries over the cap. */
    method Publish(k: string, e: Event)
      requires Valid()
      modifies this
      ensures Valid() && history == old(history)[k := old(Published(k)) + [e]]
    {
      var sequence := if k in nextSequence then nextSequence[k] else 0;
      var partition := if k in partitions then partitions[k] else [];
      ghost var past := Published(k);
      assert InStep(partition, sequence, past, cap);
      WindowSlides(partition, sequence, past, e, cap);
      nextSequence := nextSequence[k := sequence + 1];
      partitions := partitions[k := Trim(partition + [Entry(sequence, e)], cap)];
      history := history[k := past + [e]];
    }

    /** The entries strictly after a cursor; reading never creates a partition. */
    method ReplayFrom(k: string, cursor: Option<int>) returns (entries: seq<Entry>)
      requires Valid()
      ensures entries == After(Window(Published(k), cap), if cursor.Some? then cursor.value + 1 else 0)
    {
      var start := if cursor.Some? then cursor.value + 1 else 0;
      if k !in partitions {
        return [];
      }
      entries := After(partitions[k], start);
    }
  }

  lemma WindowSlides(entries: seq<Entry>, next: nat, history: seq<Event>, e: Event, cap: Option<nat>)
    requires InStep(entries, next, history, cap)
    ensures InStep(Trim(entries + [Entry(next, e)], cap), next + 1, history + [e], cap)
  {
  }

  /** Numbers as the history does, from `first`. */
  function Numbered(events: seq<Event>, first: nat): seq<Entry>
  {
    seq(|events|, i requires 0 <= i < |events| => Entry(first + i, events[i]))
  }

  lemma NumberedTail(events: seq<Event>, first: nat)
    requires events != []
    ensures Numbered(events, first)[0] == Entry(first, events[0])
    ensures Numbered(events, first)[1..] == Numbered(events[1..], first + 1)
  {
  }

  lemma AfterStep(events: seq<Event>, first: nat, start: int)
    requires events != []
    ensures After(Numbered(events, first), start) ==
            (if first >= start then [Entry(first, events[0])] else []) +
            After(Numbered(events[1..], first + 1), start)
  {
    NumberedTail(events, first);
  }

  /** A cursor at or before the first entry sees them all. */
  lemma {:induction false} AfterKeepsAll(events: seq<Event>, first: nat, start: int)
    requires start <= first
    ensures After(Numbered(events, first), start) == Numbered(events, first)
    decreases |events|
  {
    if events != [] {
      AfterStep(events, first, start);
      AfterKeepsAll(events[1..], first + 1, start);
      NumberedTail(events, first);
      assert Numbered(events, first) == [Numbered(events, first)[0]] + Numbered(events, first)[1..];
    }
  }

  /** One past the last sees none, and one in between sees the rest. */
  lemma {:induction false} AfterDrops(events: seq<Event>, first: nat, start: int)
    requires first <= start
    ensures After(Numbered(events, first), start) ==
            if start - first >= |events| then [] else Numbered(events[start - first..], start)
    decreases |events|
  {
    if start == first {
      AfterKeepsAll(events, first, start);
      assert events[0..] == events;
    } else if events != [] {
      AfterStep(events, first, start);
      AfterDrops(events[1..], first + 1, start);
      if start - first < |events| {
        assert events[1..][start - first - 1..] == events[start - first..];
      }
    }
  }

  lemma AfterNumbered(events: seq<Event>, first: nat, start: int)
    ensures After(Numbered(events, first), start) ==
            if start <= first then Numbered(events, first)
            else if start - first >= |events| then []
            else Numbered(events[start - first..], start)
  {
    if start <= first {
      AfterKeepsAll(events, first, start);
    } else {
      AfterDrops(events, first, start);
    }
  }

  /** What a consumer that has read the first `read` events gets: all it has not read, or,
      if it fell more than the cap behind, only what the window still holds. */
  lemma ResumedReplay(history: seq<Event>, cap: Option<nat>, read: nat)
    requires read <= |history|
    ensures
      var behind := |history| - read;
      var from := if cap.Some? && cap.value < behind then |history| - cap.value else read;
      After(Window(history, cap), read) == Numbered(history[from..], from)
  {
    var kept := if cap.Some? && cap.value < |history| then cap.value else |history|;
    var first := |history| - kept;
    assert Window(history, cap) == Numbered(history[first..], first);
    AfterNumbered(history[first..], first, read);
    if first < read && read < |history| {
      assert history[first..][read - first..] == history[read..];
    }
    if read == |history| {
      assert history[read..] == [];
    }
  }

  // ------------------------------------------------------------ consumers

  datatype Op = Publish(e: Event) | Poll

  /** One partition and a consumer that polls from the last cursor it saw. `missed` records
      whether some poll came after the consumer fell more than the cap behind. */
  datatype Feed = Feed(history: seq<Event>, cursor: int, received: seq<Event>, missed: bool)

  function EventsOf(entries: seq<Entry>): seq<Event>
  {
    seq(|entries|, i requires 0 <= i < |entries| => entries[i].event)
  }

  function Next(f: Feed, cap: Option<nat>, op: Op): Feed
  {
    match op
    case Publish(e) => f.(history := f.history + [e])
    case Poll =>
      var got := After(Window(f.history, cap), f.cursor + 1);
      Feed(f.history, if got == [] then f.cursor else got[|got| - 1].sequence,
           f.received + EventsOf(got),
           f.missed || (cap.Some? && cap.value < |f.history| - (f.cursor + 1)))
  }

  function Run(cap: Option<nat>, ops: seq<Op>): Feed
  {
    if ops == [] then Feed([], -1, [], false)
    else Next(Run(cap, ops[..|ops| - 1]), cap, ops[|ops| - 1])
  }

  /** The cursor is a position in the full history. A consumer that never fell more than the
      cap behind has received exactly the events up to it, each once, in order; one that did
      has received strictly fewer, unless the cap is zero and it received nothing at all. */
  predicate Follows(f: Feed, cap: Option<nat>)
  {
    && -1 <= f.cursor < |f.history|
    && (!f.missed ==> f.received == f.history[..f.cursor + 1])
    && |f.received| <= f.cursor + 1
    && (f.missed && cap != Some(0) ==> |f.received| < f.cursor + 1)
  }

  /** Where the poll of a feed starts reading. */
  function ReadsFrom(f: Feed, cap: Option<nat>): nat
    requires -1 <= f.cursor < |f.history|
  {
    if cap.Some? && cap.value < |f.history| - (f.cursor + 1) then |f.history| - cap.value else f.cursor + 1
  }

  lemma PollReads(f: Feed, cap: Option<nat>)
    requires -1 <= f.cursor < |f.history|
    ensures
      var from := ReadsFrom(f, cap);
      var next := Next(f, cap, Poll);
      && next.history == f.history
      && next.received == f.received + f.history[from..]
      && next.cursor == if from < |f.history| then |f.history| - 1 else f.cursor
  {
    ResumedReplay(f.history, cap, f.cursor + 1);
    var from := ReadsFrom(f, cap);
    assert EventsOf(Numbered(f.history[from..], from)) == f.history[from..];
  }

  lemma ReadingFollows(f: Feed, g: Feed, cap: Option<nat>)
    requires Follows(f, cap)
    requires
      var from := ReadsFrom(f, cap);
      && g.history == f.history
      && g.received == f.received + f.history[from..]
      && g.cursor == (if from < |f.history| then |f.history| - 1 else f.cursor)
      && g.missed == (f.missed || from > f.cursor + 1)
    ensures Follows(g, cap)
  {
    var from := ReadsFrom(f, cap);
    if !g.missed {
      assert f.history[..from] + f.history[from..] == f.history;
      assert f.history[..|f.history|] == f.history;
    }
  }

  lemma PollFollows(f: Feed, cap: Option<nat>)
    requires Follows(f, cap)
    ensures Follows(Next(f, cap, Poll), cap)
  {
    PollReads(f, cap);
    ReadingFollows(f, Next(f, cap, Poll), cap);
  }

  /** Over every schedule of publishes and polls. */
  lemma {:induction false} EveryScheduleFollows(cap: Option<nat>, ops: seq<Op>)
    ensures Follows(Run(cap, ops), cap)
  {
    if ops != [] {
      var f := Run(cap, ops[..|ops| - 1]);
      EveryScheduleFollows(cap, ops[..|ops| - 1]);
      match ops[|ops| - 1]
      case Publish(e) =>
        assert (f.history + [e])[..f.cursor + 1] == f.history[..f.cursor + 1];
      case Poll =>
        PollFollows(f, cap);
    }
  }
}
