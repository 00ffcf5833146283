/**
 One producer and one consumer of a ring, interleaved at every access to the shared memory.

 Each side keeps its own index, looks at the peer's index when it likes and goes on with that
 snapshot for as long as it likes.  A record may be written field by field before it is published,
 and read field by field before its slot is released.
 */
module RingRuns {
  import opened Ring

  datatype Option<T> = None | Some(value: T)

  datatype State<T> = State(
    slots: seq<T>,
    readWord: nat,        // shared: the consumer's index
    writeWord: nat,       // shared: the producer's index
    putAt: nat,           // the producer's own copy of its index
    readSeen: nat,        // what the producer knows of the consumer's index
    written: Option<T>,   // what the producer put into its current slot
    takeAt: nat,          // the consumer's own copy of its index
    writeSeen: nat)       // what the consumer knows of the producer's index

  datatype Event<T> =
    | ProducerLooks
    | Write(x: T)
    | Publish
    | ConsumerLooks
    | Release

  predicate Enabled<T>(s: State<T>, e: Event<T>) {
    match e
    case ProducerLooks => s.written.None?
    case Write(_) => !Full(s.readSeen, s.putAt) && |s.slots| == LENGTH
    case Publish => s.written.Some?
    case ConsumerLooks => true
    case Release => !Empty(s.takeAt, s.writeSeen)
  }

  function Next<T>(s: State<T>, e: Event<T>): State<T>
    requires Enabled(s, e)
  {
    match e
    case ProducerLooks => s.(putAt := s.writeWord, readSeen := s.readWord)
    case Write(x) => s.(slots := s.slots[Slot(s.putAt) := x], written := Some(x))
    case Publish => s.(putAt := Advance(s.putAt), writeWord := Advance(s.putAt), written := None)
    case ConsumerLooks => s.(takeAt := s.readWord, writeSeen := s.writeWord)
    case Release => s.(takeAt := Advance(s.takeAt), readWord := Advance(s.takeAt))
  }

  // --------------------------------------------------------------- invariant

  /** What happened so far: all that was published, how much of it was released, and the counters
      behind the two snapshots. */
  datatype History<T> = History(sent: seq<T>, released: nat, readKnown: nat, writeKnown: nat)

  function Record<T>(s: State<T>, h: History<T>, e: Event<T>): History<T>
    requires Enabled(s, e)
  {
    match e
    case ProducerLooks => h.(readKnown := h.released)
    case Write(_) => h
    case Publish => h.(sent := h.sent + [s.written.value])
    case ConsumerLooks => h.(writeKnown := |h.sent|)
    case Release => h.(released := h.released + 1)
  }

  ghost predicate Counters<T>(s: State<T>, h: History<T>) {
    && h.readKnown <= h.released <= h.writeKnown <= |h.sent| <= h.readKnown + LENGTH
    && s.readWord == s.takeAt == Encode(h.released)
    && s.writeWord == s.putAt == Encode(|h.sent|)
    && s.readSeen == Encode(h.readKnown)
    && s.writeSeen == Encode(h.writeKnown)
  }

  ghost predicate Stored<T>(slots: seq<T>, sent: seq<T>, released: nat) {
    && |slots| == LENGTH
    && (forall i {:trigger sent[i]} :: released <= i < |sent| ==> slots[i % LENGTH] == sent[i])
  }

  ghost predicate Inv<T>(s: State<T>, h: History<T>) {
    && Counters(s, h)
    && Stored(s.slots, h.sent, h.released)
    && (s.written.Some? ==> |h.sent| < h.readKnown + LENGTH && s.slots[|h.sent| % LENGTH] == s.written.value)
  }

  /** The abstract state: a FIFO of at most LENGTH records. */
  function Queue<T>(h: History<T>): seq<T>
    requires h.released <= |h.sent|
  {
    h.sent[h.released..]
  }

  lemma DifferentSlots(i: nat, j: nat)
    requires i < j < i + LENGTH
    ensures i % LENGTH != j % LENGTH
  {
  }

  lemma WriteKeeps<T>(s: State<T>, h: History<T>, x: T)
    requires Inv(s, h) && Enabled(s, Write(x))
    ensures Inv(Next(s, Write(x)), h)
  {
    var w := |h.sent|;
    FullExactly(h.readKnown, w);
    SlotEncodes(w);
    forall i | h.released <= i < w ensures s.slots[w % LENGTH := x][i % LENGTH] == h.sent[i] {
      DifferentSlots(i, w);
    }
  }

  lemma PublishKeeps<T>(s: State<T>, h: History<T>)
    requires Inv(s, h) && Enabled(s, Publish)
    ensures Inv(Next(s, Publish), Record(s, h, Publish))
  {
    AdvanceEncodes(|h.sent|);
    hide Encode, Advance;
  }

  lemma ReleaseKeeps<T>(s: State<T>, h: History<T>)
    requires Inv(s, h) && Enabled(s, Release)
    ensures Inv(Next(s, Release), Record(s, h, Release))
  {
    EmptyExactly(h.released, h.writeKnown);
    AdvanceEncodes(h.released);
    hide Encode, Advance;
  }

  lemma StepKeeps<T>(s: State<T>, h: History<T>, e: Event<T>)
    requires Inv(s, h) && Enabled(s, e)
    ensures Inv(Next(s, e), Record(s, h, e))
  {
    hide Encode, Advance, Slot;
    match e
    case Write(x) =>
      WriteKeeps(s, h, x);
    case Publish =>
      PublishKeeps(s, h);
    case Release =>
      ReleaseKeeps(s, h);
    case _ =>
  }

  /** Whatever the consumer reads between its look at the index and the release of the slot is
      the oldest published record, however stale its snapshot is. */
  lemma ReadsOldest<T>(s: State<T>, h: History<T>)
    requires Inv(s, h) && !Empty(s.takeAt, s.writeSeen)
    ensures Queue(h) != [] && s.slots[Slot(s.takeAt)] == Queue(h)[0]
  {
    EmptyExactly(h.released, h.writeKnown);
    SlotEncodes(h.released);
  }

  /** The slot the producer writes holds no record that is still to be read, however stale its
      snapshot is. */
  lemma WritesUnused<T>(s: State<T>, h: History<T>, i: nat)
    requires Inv(s, h) && !Full(s.readSeen, s.putAt) && h.released <= i < |h.sent|
    ensures Slot(s.putAt) != i % LENGTH && |Queue(h)| < LENGTH
  {
    FullExactly(h.readKnown, |h.sent|);
    SlotEncodes(|h.sent|);
    DifferentSlots(i, |h.sent|);
  }

  /** The ring refines a bounded FIFO: publishing enqueues, releasing dequeues what was read,
      nothing else changes the queue. */
  lemma RefinesFifo<T>(s: State<T>, h: History<T>, e: Event<T>)
    requires Inv(s, h) && Enabled(s, e)
    ensures var h' := Record(s, h, e);
            && Inv(Next(s, e), h') && |Queue(h')| <= LENGTH
            && (e == Publish ==> Queue(h') == Queue(h) + [s.written.value])
            && (e == Release ==> Queue(h) == [s.slots[Slot(s.takeAt)]] + Queue(h'))
            && (e != Publish && e != Release ==> Queue(h') == Queue(h))
  {
    StepKeeps(s, h, e);
    if e == Release {
      ReadsOldest(s, h);
    }
  }

  /** With a fresh snapshot the tests are exact. */
  lemma TestsExact<T>(s: State<T>, h: History<T>)
    requires Inv(s, h)
    ensures Full(s.readWord, s.writeWord) <==> |Queue(h)| == LENGTH
    ensures Empty(s.readWord, s.writeWord) <==> Queue(h) == []
  {
    FullExactly(h.released, |h.sent|);
    EmptyExactly(h.released, |h.sent|);
  }

  // -------------------------------------------------------------------- runs

  predicate Allowed<T>(s: State<T>, events: seq<Event<T>>)
    decreases |events|
  {
    events == [] || (Enabled(s, events[0]) && Allowed(Next(s, events[0]), events[1..]))
  }

  /** What one event publishes, and what it releases. */
  function Published<T>(s: State<T>, e: Event<T>): seq<T>
    requires Enabled(s, e)
  {
    if e.Publish? then [s.written.value] else []
  }

  function Released<T>(s: State<T>, e: Event<T>): seq<T>
    requires Enabled(s, e) && |s.slots| == LENGTH
  {
    if e.Release? then [s.slots[Slot(s.takeAt)]] else []
  }

  /** The records the producer published, in order. */
  function Sent<T>(s: State<T>, events: seq<Event<T>>): seq<T>
    requires Allowed(s, events)
    decreases |events|
  {
    if events == [] then []
    else Published(s, events[0]) + Sent(Next(s, events[0]), events[1..])
  }

  /** The slots' contents the consumer released, in order. */
  function Received<T>(s: State<T>, events: seq<Event<T>>): seq<T>
    requires Allowed(s, events) && |s.slots| == LENGTH
    decreases |events|
  {
    if events == [] then []
    else Released(s, events[0]) + Received(Next(s, events[0]), events[1..])
  }

  lemma {:induction false} RunDelivers<T>(s: State<T>, h: History<T>, events: seq<Event<T>>)
    requires Inv(s, h) && Allowed(s, events)
    ensures Received(s, events) <= Queue(h) + Sent(s, events)
    ensures |Queue(h)| + |Sent(s, events)| <= |Received(s, events)| + LENGTH
    decreases |events|
  {
    Sizes(s, h);
    if events != [] {
      hide Queue, Next, Record, Enabled, Inv, Slot, Published, Released;
      var e := events[0];
      var s', h' := Next(s, e), Record(s, h, e);
      FifoStep(s, h, e);
      RunDelivers(s', h', events[1..]);
      Delivers(Queue(h), Queue(h'), Published(s, e), Released(s, e), Sent(s', events[1..]), Received(s', events[1..]));
    }
  }

  lemma Sizes<T>(s: State<T>, h: History<T>)
    requires Inv(s, h)
    ensures |s.slots| == LENGTH && |Queue(h)| <= LENGTH
  {
  }

  /** What is published joins the queue, what is released leaves it. */
  lemma FifoStep<T>(s: State<T>, h: History<T>, e: Event<T>)
    requires Inv(s, h) && Enabled(s, e)
    ensures |s.slots| == LENGTH && Inv(Next(s, e), Record(s, h, e))
    ensures Queue(h) + Published(s, e) == Released(s, e) + Queue(Record(s, h, e))
  {
    Sizes(s, h);
    RefinesFifo(s, h, e);
    hide Queue, Next, Record, Inv, Slot;
  }

  lemma Delivers<T>(q: seq<T>, q': seq<T>, published: seq<T>, released: seq<T>, sent: seq<T>, received: seq<T>)
    requires q + published == released + q' && received <= q' + sent
    requires |q'| + |sent| <= |received| + LENGTH
    ensures released + received <= q + (published + sent)
    ensures |q| + |published + sent| <= |released + received| + LENGTH
  {
    assert q + (published + sent) == (q + published) + sent == released + (q' + sent);
    assert |q + published| == |released + q'|;
  }

  /** A fresh ring, whatever its slots hold. */
  function Fresh<T>(slots: seq<T>): State<T> { State(slots, 0, 0, 0, 0, None, 0, 0) }

  /** In every interleaving the consumer receives exactly the records that were sent, in order,
      and the producer is never more than the length of the ring ahead. */
  lemma RingIsFifo<T>(slots: seq<T>, events: seq<Event<T>>)
    requires |slots| == LENGTH && Allowed(Fresh(slots), events)
    ensures Received(Fresh(slots), events) <= Sent(Fresh(slots), events)
    ensures |Sent(Fresh(slots), events)| <= |Received(Fresh(slots), events)| + LENGTH
  {
    var h: History<T> := History([], 0, 0, 0);
    assert Inv(Fresh(slots), h);
    RunDelivers(Fresh(slots), h, events);
    assert Queue(h) + Sent(Fresh(slots), events) == Sent(Fresh(slots), events);
  }
}
