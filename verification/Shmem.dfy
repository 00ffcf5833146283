/**
 The shared memory interface of the core: commands come in through one ring, responses go out
 through another, and every message of the pool is in exactly one place.
 */
module Shmem {
  import opened Messages
  import opened Ring

  // ------------------------------------------------------------------- rings

  /** The records of a ring between two counters. */
  function Unread(slots: seq<Record>, from: nat, to: nat): (s: seq<Record>)
    requires |slots| == LENGTH && from <= to
    ensures |s| == to - from
  {
    seq(to - from, i requires 0 <= i < to - from => slots[(from + i) % LENGTH])
  }

  lemma UnreadAppend(slots: seq<Record>, from: nat, to: nat, x: Record)
    requires |slots| == LENGTH && from <= to < from + LENGTH
    ensures Unread(slots[to % LENGTH := x], from, to + 1) == Unread(slots, from, to) + [x]
  {
    var s, t := Unread(slots[to % LENGTH := x], from, to + 1), Unread(slots, from, to);
    forall i: nat | i < to - from ensures s[i] == t[i] {
      assert (from + i) % LENGTH != to % LENGTH;
    }
  }

  lemma UnreadHead(slots: seq<Record>, from: nat, to: nat)
    requires |slots| == LENGTH && from < to
    ensures Unread(slots, from, to) == [slots[from % LENGTH]] + Unread(slots, from + 1, to)
  {
    var s := Unread(slots, from + 1, to);
    forall i: nat | i < |s| ensures s[i] == Unread(slots, from, to)[i + 1] {
      assert from + 1 + i == from + (i + 1);
    }
  }

  /** A ring in shared memory: its slots and the two packed index words, which the ghost counters
      give without wrap-around. */
  class RingBuffer {
    var slots: seq<Record>
    var readWord: nat
    var writeWord: nat
    ghost var taken: nat
    ghost var given: nat

    ghost predicate Valid()
      reads this
    {
      && |slots| == LENGTH && taken <= given <= taken + LENGTH
      && readWord == Encode(taken) && writeWord == Encode(given)
    }

    constructor (memory: seq<Record>)
      requires |memory| == LENGTH
      ensures Valid() && Contents() == []
    {
      slots := memory;
      readWord, writeWord, taken, given := 0, 0, 0, 0;
    }

    /** The records that were published and are not released. */
    ghost function Contents(): (s: seq<Record>)
      reads this
      requires Valid()
      ensures |s| <= LENGTH
    {
      Unread(slots, taken, given)
    }

    predicate IsEmpty()
      reads this
      requires Valid()
      ensures IsEmpty() <==> Contents() == []
    {
      EmptyExactly(taken, given);
      Empty(readWord, writeWord)
    }

    predicate IsFull()
      reads this
      requires Valid()
      ensures IsFull() <==> |Contents()| == LENGTH
    {
      FullExactly(taken, given);
      Full(readWord, writeWord)
    }

    /** Writes a record into the free slot and publishes it. */
    method Put(x: Record)
      requires Valid() && !IsFull()
      modifies this
      ensures Valid() && Contents() == old(Contents()) + [x]
    {
      UnreadAppend(slots, taken, given, x);
      SlotEncodes(given);
      AdvanceEncodes(given);
      hide Encode, Advance, Slot, Unread;
      slots := slots[Slot(writeWord) := x];
      writeWord, given := Advance(writeWord), given + 1;
    }

    /** Reads the oldest record and releases its slot. */
    method Take() returns (x: Record)
      requires Valid() && !IsEmpty()
      modifies this
      ensures Valid() && old(Contents()) == [x] + Contents()
    {
      UnreadHead(slots, taken, given);
      SlotEncodes(taken);
      AdvanceEncodes(taken);
      hide Encode, Advance, Slot, Unread;
      x := slots[Slot(readWord)];
      readWord, taken := Advance(readWord), taken + 1;
    }
  }

  // ----------------------------------------------------------- message places

  ghost predicate Apart(a: seq<Message>, b: seq<Message>) { forall m :: m in a ==> m !in b }

  /** Each message of the pool is free, in the core queue, in the response queue, or in the hands
      of a component or of the core itself, and in one of these places only. */
  ghost predicate Partition(items: seq<Message>, free: seq<Message>, local: seq<Message>, out: seq<Message>,
                            held: set<Message>) {
    && Apart(free, local) && Apart(free, out) && Apart(local, out)
    && (forall m :: m in held ==> m !in free && m !in local && m !in out)
    && (forall m :: m in items ==> m in free || m in local || m in out || m in held)
    && (forall m :: m in out ==> m in items)
  }

  lemma TakenFromOut(items: seq<Message>, free: seq<Message>, local: seq<Message>, m: Message, out: seq<Message>,
                     held: set<Message>)
    requires Partition(items, free, local, [m] + out, held) && m !in out
    ensures Partition(items, free, local, out, held + {m}) && m in items && m !in held
  {
    assert forall x :: x in [m] + out <==> x == m || x in out;
  }

  lemma TakenFromFree(items: seq<Message>, m: Message, free: seq<Message>, local: seq<Message>, out: seq<Message>,
                      held: set<Message>)
    requires Partition(items, [m] + free, local, out, held) && m !in free
    ensures Partition(items, free, local, out, held + {m}) && m !in held
  {
    assert forall x :: x in [m] + free <==> x == m || x in free;
  }

  lemma TakenFromLocal(items: seq<Message>, free: seq<Message>, m: Message, local: seq<Message>, out: seq<Message>,
                       held: set<Message>)
    requires Partition(items, free, [m] + local, out, held) && m !in local
    ensures Partition(items, free, local, out, held + {m}) && m !in held
  {
    assert forall x :: x in [m] + local <==> x == m || x in local;
  }

  lemma GivenToFree(items: seq<Message>, free: seq<Message>, local: seq<Message>, out: seq<Message>,
                    held: set<Message>, m: Message)
    requires Partition(items, free, local, out, held) && m in held
    ensures Partition(items, [m] + free, local, out, held - {m}) && m !in free
  {
    assert forall x :: x in [m] + free <==> x == m || x in free;
  }

  lemma GivenToLocal(items: seq<Message>, free: seq<Message>, local: seq<Message>, out: seq<Message>,
                     held: set<Message>, m: Message)
    requires Partition(items, free, local, out, held) && m in held
    ensures Partition(items, free, local + [m], out, held - {m}) && m !in local
  {
    assert forall x :: x in local + [m] <==> x == m || x in local;
  }

  lemma GivenToOut(items: seq<Message>, free: seq<Message>, local: seq<Message>, out: seq<Message>,
                   held: set<Message>, m: Message)
    requires Partition(items, free, local, out, held) && m in held && m in items
    ensures Partition(items, free, local, out + [m], held - {m}) && m !in out
  {
    assert forall x :: x in out + [m] <==> x == m || x in out;
  }

  function RecordsOf(list: seq<Message>): (s: seq<Record>)
    reads list`body
    ensures |s| == |list| && forall i :: 0 <= i < |s| ==> s[i] == list[i].body
  {
    if list == [] then [] else RecordsOf(list[..|list| - 1]) + [list[|list| - 1].body]
  }

  function Reversed(list: seq<Message>): (r: seq<Message>) {
    if list == [] then [] else Reversed(list[1..]) + [list[0]]
  }

  lemma {:induction false} ReversedMore(list: seq<Message>, m: Message)
    ensures Reversed(list + [m]) == [m] + Reversed(list)
  {
    if list == [] {
      assert [m][1..] == [];
    } else {
      assert (list + [m])[1..] == list[1..] + [m];
      ReversedMore(list[1..], m);
    }
  }

  lemma RecordsMore(list: seq<Message>, m: Message)
    ensures RecordsOf(list + [m]) == RecordsOf(list) + [m.body]
  {
    assert (list + [m])[..|list|] == list;
  }

  /** The pool and the two message queues of the core. */
  class Places {
    const pool: Pool
    const queue: Queue           // the core's own queue
    const remote: Queue          // responses to the remote proxy
    ghost var held: set<Message> // messages in the hands of the core or of components

    ghost predicate Valid()
      reads this, pool, pool.items, queue, remote, pool.list, queue.list, remote.list, held
      ensures Valid() ==> queue != remote
    {
      && queue != remote
      && pool.Valid() && queue.Valid() && remote.Valid()
      && Partition(pool.items[..], pool.list, queue.list, remote.list, held)
      && (forall m :: m in held ==> m.next == null)
    }

    constructor (memory: array<Message>)
      requires 0 < memory.Length && Distinct(memory[..])
      modifies memory[..]`next
      ensures Valid() && fresh(pool) && fresh(queue) && fresh(remote)
      ensures pool.items == memory && pool.list == memory[..]
      ensures queue.list == [] && remote.list == [] && held == {}
    {
      queue := new Queue();
      remote := new Queue();
      pool := new Pool(memory);
      held := {};
    }

    lemma Separate()
      requires Partition(pool.items[..], pool.list, queue.list, remote.list, held)
      ensures forall i :: 0 <= i < |pool.list| ==>
        pool.list[i] !in queue.list && pool.list[i] !in remote.list && pool.list[i] !in held
      ensures forall i :: 0 <= i < |queue.list| ==>
        queue.list[i] !in pool.list && queue.list[i] !in remote.list && queue.list[i] !in held
      ensures forall i :: 0 <= i < |remote.list| ==>
        remote.list[i] !in pool.list && remote.list[i] !in queue.list && remote.list[i] !in held
      ensures forall x :: x in held ==> x !in pool.list && x !in queue.list && x !in remote.list
    {
    }

    /** Takes the first response. */
    method NextResponse() returns (m: Message?)
      requires Valid()
      modifies this`held, remote, remote.list`next
      ensures Valid() && m == First(old(remote.list))
      ensures m == null ==> remote.list == old(remote.list) == [] && held == old(held)
      ensures m != null ==> old(remote.list) == [m] + remote.list && held == old(held) + {m} && m in pool.items[..]
      ensures m != null ==> m !in old(held)
    {
      hide Linked;
      Separate();
      m := remote.Dequeue();
      assert pool.Valid();
      assert queue.Valid();
      assert forall x :: x in held ==> x.next == null;
      if m != null {
        TakenFromOut(pool.items[..], pool.list, queue.list, m, remote.list, held);
        hide Partition;
        held := held + {m};
      }
    }

    /** Takes the first message of the core's queue. */
    method NextMessage() returns (m: Message?)
      requires Valid()
      modifies this`held, queue, queue.list`next
      ensures Valid() && m == First(old(queue.list))
      ensures m == null ==> queue.list == old(queue.list) == [] && held == old(held)
      ensures m != null ==> old(queue.list) == [m] + queue.list && held == old(held) + {m}
      ensures m != null ==> m !in old(held)
    {
      hide Linked;
      Separate();
      m := queue.Dequeue();
      assert pool.Valid();
      assert remote.Valid();
      assert forall x :: x in held ==> x.next == null;
      if m != null {
        TakenFromLocal(pool.items[..], pool.list, m, queue.list, remote.list, held);
        hide Partition;
        held := held + {m};
      }
    }

    /** Takes a free message. */
    method Fetch() returns (m: Message?)
      requires Valid()
      modifies this`held, pool, pool.list`next
      ensures Valid() && m == First(old(pool.list))
      ensures m == null ==> pool.list == old(pool.list) == [] && held == old(held)
      ensures m != null ==> old(pool.list) == [m] + pool.list && held == old(held) + {m} && m in pool.items[..]
      ensures m != null ==> m !in old(held) && m !in pool.list
    {
      hide Linked;
      Separate();
      m := pool.Get();
      assert queue.Valid();
      assert remote.Valid();
      assert forall x :: x in held ==> x.next == null;
      if m != null {
        TakenFromFree(pool.items[..], m, pool.list, queue.list, remote.list, held);
        hide Partition;
        held := held + {m};
      }
    }

    /** Fills in the parameters of a message. */
    method Fill(m: Message, x: Record)
      requires Valid() && m in held
      modifies m`body
      ensures Valid() && m.body == x
    {
      hide Linked;
      Separate();
      hide Partition;
      m.body := x;
      assert pool.Valid();
      assert queue.Valid();
      assert remote.Valid();
    }

    /** Returns a message to the pool. */
    method Recycle(m: Message)
      requires Valid() && m in held && m in pool.items[..]
      modifies this`held, pool, m`next
      ensures Valid() && pool.list == [m] + old(pool.list) && held == old(held) - {m}
    {
      hide Linked;
      GivenToFree(pool.items[..], pool.list, queue.list, remote.list, held, m);
      Separate();
      hide Partition;
      pool.Put(m);
      held := held - {m};
      assert queue.Valid();
      assert remote.Valid();
    }

    /** Puts a message into the core's queue. */
    method Submit(m: Message)
      requires Valid() && m in held
      modifies this`held, queue, queue.list`next, m`next
      ensures Valid() && queue.list == old(queue.list) + [m] && held == old(held) - {m}
    {
      hide Linked;
      GivenToLocal(pool.items[..], pool.list, queue.list, remote.list, held, m);
      Separate();
      hide Partition;
      var first := queue.Enqueue(m);
      held := held - {m};
      assert pool.Valid();
      assert remote.Valid();
    }

    /** Puts a message into the response queue. */
    method Respond(m: Message)
      requires Valid() && m in held && m in pool.items[..]
      modifies this`held, remote, remote.list`next, m`next
      ensures Valid() && remote.list == old(remote.list) + [m] && held == old(held) - {m}
    {
      hide Linked;
      GivenToOut(pool.items[..], pool.list, queue.list, remote.list, held, m);
      Separate();
      hide Partition;
      var first := remote.Enqueue(m);
      held := held - {m};
      assert pool.Valid();
      assert queue.Valid();
    }
  }

  function Count(list: seq<Message>, m: Message): nat { multiset(list)[m] }

  lemma {:induction false} CountDistinct(list: seq<Message>, m: Message)
    requires Distinct(list)
    ensures Count(list, m) == if m in list then 1 else 0
  {
    if list != [] {
      var k := |list| - 1;
      assert list == list[..k] + [list[k]];
      CountDistinct(list[..k], m);
    }
  }

  /** Conservation: a message of the pool is in exactly one place, once. */
  lemma InOnePlace(p: Places, m: Message)
    requires p.Valid() && m in p.pool.items[..]
    ensures Count(p.pool.list, m) + Count(p.queue.list, m) + Count(p.remote.list, m)
            + (if m in p.held then 1 else 0) == 1
  {
    CountDistinct(p.pool.list, m);
    CountDistinct(p.queue.list, m);
    CountDistinct(p.remote.list, m);
  }

  /** A sequence in two parts. */
  ghost predicate Split<T>(all: seq<T>, front: seq<T>, back: seq<T>) { all == front + back }

  lemma SplitStart<T>(all: seq<T>)
    ensures Split(all, [], all) && Split(all, all, [])
  {
  }

  lemma SplitMore<T>(all: seq<T>, front: seq<T>, back: seq<T>, x: T, rest: seq<T>)
    requires Split(all, front, back) && back == [x] + rest
    ensures Split(all, front + [x], rest)
  {
  }

  lemma SplitAppend<T>(all: seq<T>, front: seq<T>, back: seq<T>, x: T, longer: seq<T>)
    requires Split(all, front, back) && longer == all + [x]
    ensures Split(longer, front, back + [x])
  {
  }

  /** One more response: it goes from the queue to the ring and to the pool. */
  lemma OutputMore(out: seq<Message>, gone: seq<Message>, rest0: seq<Message>, m: Message, rest: seq<Message>,
                   pool0: seq<Message>, free: seq<Message>, ring0: seq<Record>, before: seq<Record>, ring: seq<Record>)
    requires Split(out, gone, rest0) && rest0 == [m] + rest
    requires Split(pool0, Reversed(gone), free)
    requires Split(ring0, before, RecordsOf(gone)) && ring == ring0 + [m.body]
    ensures Split(out, gone + [m], rest) && Split([m] + pool0, Reversed(gone + [m]), free)
    ensures Split(ring, before, RecordsOf(gone + [m]))
  {
    SplitMore(out, gone, rest0, m, rest);
    ReversedMore(gone, m);
    RecordsMore(gone, m);
    SplitAppend(ring0, before, RecordsOf(gone), m.body, ring);
  }

  lemma BackIn<T>(all: seq<T>, front: seq<T>, back: seq<T>)
    requires Split(all, front, back)
    ensures |front| + |back| == |all| && forall i :: 0 <= i < |back| ==> back[i] == all[|front| + i]
  {
  }

  lemma QueueIn(queue: seq<Message>, local: seq<Message>, got: seq<Message>, free: seq<Message>, pool: seq<Message>)
    requires Split(queue, local, got) && Split(free, got, pool)
    ensures forall i :: 0 <= i < |pool| ==> pool[i] in free
    ensures forall i :: 0 <= i < |queue| ==> queue[i] in local || queue[i] in free
  {
  }

  ghost predicate Outside(a: seq<Message>, b: seq<Message>) { forall x :: x in a ==> x !in b }

  lemma OutsideMeans(a: seq<Message>, b: seq<Message>)
    requires Outside(a, b)
    ensures forall i :: 0 <= i < |a| ==> a[i] !in b
  {
  }

  // What there was before commands are received, and what has been received so far.
  datatype Receipt = Receipt(
    free: seq<Message>, local: seq<Message>, before: seq<Record>, got: seq<Message>, read: seq<Record>)

  /** Pool, queue and ring after these commands have been received. */
  ghost predicate Received(h: Receipt, pool: seq<Message>, queue: seq<Message>, ring: seq<Record>)
  {
    && Split(h.free, h.got, pool) && Outside(h.got, pool) && Split(queue, h.local, h.got)
    && Split(h.before, h.read, ring) && |h.read| == |h.got|
  }

  lemma NothingReceived(h: Receipt)
    requires h.got == [] && h.read == []
    ensures Received(h, h.free, h.local, h.before)
  {
  }

  lemma ReceivedFacts(h: Receipt, pool: seq<Message>, queue: seq<Message>, ring: seq<Record>)
    requires Received(h, pool, queue, ring)
    ensures |h.got| + |ring| == |h.before| && forall i :: 0 <= i < |h.got| ==> h.got[i] !in pool
    ensures forall i :: 0 <= i < |pool| ==> pool[i] in h.free
    ensures forall i :: 0 <= i < |queue| ==> queue[i] in h.local || queue[i] in h.free
  {
    QueueIn(queue, h.local, h.got, h.free, pool);
    BackIn(h.before, h.read, ring);
    OutsideMeans(h.got, pool);
  }

  lemma ReceivedMeans(h: Receipt, pool: seq<Message>, queue: seq<Message>, ring: seq<Record>)
    requires Received(h, pool, queue, ring)
    ensures Split(h.free, h.got, pool) && Split(queue, h.local, h.got)
    ensures Split(h.before, h.read, ring)
  {
  }

  /** One more command: it goes from the ring into a free message, and that into the queue. */
  lemma ReceivedMore(h: Receipt, m: Message, pool0: seq<Message>, pool: seq<Message>, queue0: seq<Message>,
                     queue: seq<Message>, ring0: seq<Record>, ring: seq<Record>)
    requires Received(h, pool0, queue0, ring0) && RecordsOf(h.got) == h.read
    requires pool0 == [m] + pool && m !in pool && queue == queue0 + [m] && ring0 == [m.body] + ring
    ensures Received(h.(got := h.got + [m], read := h.read + [m.body]), pool, queue, ring)
    ensures RecordsOf(h.got + [m]) == h.read + [m.body]
  {
    SplitMore(h.free, h.got, pool0, m, pool);
    SplitAppend(queue0, h.local, h.got, m, queue);
    SplitMore(h.before, h.read, ring0, m.body, ring);
    RecordsMore(h.got, m);
    hide Split;
    forall x | x in h.got + [m] ensures x !in pool {
      assert x in h.got ==> x !in pool0;
    }
  }

  class Shmem {
    const places: Places
    const commands: RingBuffer
    const responses: RingBuffer

    ghost predicate Valid()
      reads this, commands, responses, places, places.pool, places.pool.items, places.queue, places.remote
      reads places.pool.list, places.queue.list, places.remote.list, places.held
    {
      commands != responses && commands.Valid() && responses.Valid() && places.Valid()
    }

    constructor (memory: array<Message>, commandSlots: seq<Record>, responseSlots: seq<Record>)
      requires 0 < memory.Length && Distinct(memory[..]) && |commandSlots| == |responseSlots| == LENGTH
      modifies memory[..]`next
      ensures Valid() && places.pool.items == memory && places.pool.list == memory[..]
      ensures places.queue.list == [] && places.remote.list == [] && places.held == {}
      ensures commands.Contents() == [] && responses.Contents() == []
    {
      places := new Places(memory);
      commands := new RingBuffer(commandSlots);
      responses := new RingBuffer(responseSlots);
    }

    /** One turn of the loop below. */
    method SendOne() returns (m: Message?)
      requires Valid() && !responses.IsFull()
      modifies responses, places`held, places.pool, places.remote, places.remote.list`next
      ensures Valid() && places.held == old(places.held) && m == First(old(places.remote.list))
      ensures m == null ==> places.remote.list == old(places.remote.list) == []
      ensures m == null ==>
        places.pool.list == old(places.pool.list) && responses.Contents() == old(responses.Contents())
      ensures m != null ==> old(places.remote.list) == [m] + places.remote.list
      ensures m != null ==> places.pool.list == [m] + old(places.pool.list)
      ensures m != null ==> responses.Contents() == old(responses.Contents()) + [m.body]
    {
      hide Linked, Partition, Places.Valid, RingBuffer.Valid, RingBuffer.Contents;
      m := places.NextResponse();
      if m != null {
        responses.Put(m.body);
        places.Recycle(m);
      }
    }

    /** Sends responses, `gone`, until there are none or there is no room. */
    method ProcessOutput() returns (status: bool, ghost gone: seq<Message>)
      requires Valid()
      modifies responses, places`held, places.pool, places.remote, places.remote.list`next
      ensures Valid() && places.held == old(places.held)
      ensures Split(old(places.remote.list), gone, places.remote.list)
      ensures Split(responses.Contents(), old(responses.Contents()), RecordsOf(gone))
      ensures Split(places.pool.list, Reversed(gone), old(places.pool.list))
      ensures places.remote.list == [] || responses.IsFull()
      ensures status == (gone != [])
    {
      hide Encode, Unread, Linked, Partition, Places.Valid, RingBuffer.Contents;
      ghost var out, free, before := places.remote.list, places.pool.list, responses.Contents();
      status, gone := false, [];
      SplitStart(out);
      SplitStart(free);
      SplitStart(before);
      assert RecordsOf(gone) == [];
      hide RingBuffer.Valid, RingBuffer.IsFull, Reversed, Split;
      while !responses.IsFull()
        invariant commands.Valid() && responses.Valid() && places.Valid() && places.held == old(places.held)
        invariant Split(out, gone, places.remote.list) && Split(places.pool.list, Reversed(gone), free)
        invariant Split(responses.Contents(), before, RecordsOf(gone))
        invariant status == (gone != [])
        decreases |places.remote.list|
      {
        ghost var rest, pool, ring := places.remote.list, places.pool.list, responses.Contents();
        BackIn(out, gone, rest);
        var m := SendOne();
        if m == null {
          break;
        }
        status := true;
        OutputMore(out, gone, rest, m, places.remote.list, pool, free, ring, before, responses.Contents());
        ghost var x: Message := m;
        gone := gone + [x];
      }
    }

    /** One turn of the loop below: fills a free message with the oldest command. */
    method ReceiveOne() returns (m: Message?)
      requires Valid() && !commands.IsEmpty()
      modifies commands, places`held, places.pool, places.pool.list`next, places.pool.list`body
      modifies places.queue, places.queue.list`next
      ensures Valid() && places.held == old(places.held) && m == First(old(places.pool.list))
      ensures m == null ==> places.pool.list == old(places.pool.list) == []
      ensures m == null ==>
        places.queue.list == old(places.queue.list) && commands.Contents() == old(commands.Contents())
      ensures m != null ==> old(places.pool.list) == [m] + places.pool.list
      ensures m != null ==> places.queue.list == old(places.queue.list) + [m]
      ensures m != null ==> old(commands.Contents()) == [m.body] + commands.Contents()
      ensures m != null ==> m !in places.pool.list
    {
      hide Linked, Partition, RingBuffer.Valid, RingBuffer.Contents;
      m := places.Fetch();
      if m != null {
        var command := commands.Take();
        places.Fill(m, command);
        places.Submit(m);
      }
    }

    /** One turn of the loop below, with what has been received until then; `full`: the ring was. */
    method ReceiveNext(ghost h: Receipt) returns (more: bool, full: bool, ghost h': Receipt)
      requires Valid() && !commands.IsEmpty() && |h.before| <= LENGTH
      requires Received(h, places.pool.list, places.queue.list, commands.Contents()) && RecordsOf(h.got) == h.read
      modifies commands, places`held, places.pool, places.pool.list`next, places.pool.list`body
      modifies places.queue, places.queue.list`next
      ensures Valid() && places.held == old(places.held)
      ensures Received(h', places.pool.list, places.queue.list, commands.Contents()) && RecordsOf(h'.got) == h'.read
      ensures h'.free == h.free && h'.local == h.local && h'.before == h.before
      ensures more ==> |h'.got| == |h.got| + 1 && |places.pool.list| < |old(places.pool.list)|
      ensures more ==> (full <==> h.got == [] && |h.before| == LENGTH)
      ensures !more ==> h' == h && places.pool.list == []
    {
      hide Encode, Unread, Linked, Partition, RingBuffer.Contents, Places.Valid, RingBuffer.IsEmpty, First, Split;
      ghost var pool, queue, ring := places.pool.list, places.queue.list, commands.Contents();
      ReceivedFacts(h, pool, queue, ring);
      hide Received;
      full := commands.IsFull();
      assert full <==> |ring| == LENGTH;
      assert |ring| <= LENGTH;
      hide RingBuffer.Valid, RingBuffer.IsFull;
      var m := ReceiveOne();
      assert RecordsOf(h.got) == h.read;
      hide RecordsOf;
      if m == null {
        return false, full, h;
      }
      ReceivedMore(h, m, pool, places.pool.list, queue, places.queue.list, ring, commands.Contents());
      ghost var x: Message := m;
      return true, full, h.(got := h.got + [x], read := h.read + [x.body]);
    }

    /** Receives commands, `read`, into free messages, `got`, until there are no commands or no free
        messages; notifies the peer if its ring was full. */
    method ProcessInput() returns (status: bool, notify: bool, ghost got: seq<Message>, ghost read: seq<Record>)
      requires Valid()
      modifies commands, places`held, places.pool, places.pool.list`next, places.pool.list`body
      modifies places.queue, places.queue.list`next
      ensures Valid() && places.held == old(places.held)
      ensures Split(old(places.pool.list), got, places.pool.list)
      ensures Split(places.queue.list, old(places.queue.list), got)
      ensures Split(old(commands.Contents()), read, commands.Contents()) && RecordsOf(got) == read
      ensures commands.Contents() == [] || places.pool.list == []
      ensures status == (got != []) && notify == (got != [] && |old(commands.Contents())| == LENGTH)
    {
      hide Encode, Unread, Linked, Partition, RingBuffer.Contents, Places.Valid;
      ghost var h := Receipt(places.pool.list, places.queue.list, commands.Contents(), [], []);
      NothingReceived(h);
      assert RecordsOf(h.got) == h.read && |h.before| <= LENGTH;
      status, notify := false, false;
      hide RingBuffer.Valid, RingBuffer.IsEmpty, RingBuffer.IsFull, Split, RecordsOf, First, Received;
      while !commands.IsEmpty()
        invariant commands.Valid() && responses.Valid() && places.Valid() && places.held == old(places.held)
        invariant h.free == old(places.pool.list) && h.local == old(places.queue.list)
        invariant h.before == old(commands.Contents())
        invariant Received(h, places.pool.list, places.queue.list, commands.Contents()) && RecordsOf(h.got) == h.read
        invariant status == (|h.got| > 0) && notify == (|h.got| > 0 && |h.before| == LENGTH)
        decreases |places.pool.list|
      {
        ReceivedFacts(h, places.pool.list, places.queue.list, commands.Contents());
        var more, full;
        more, full, h := ReceiveNext(h);
        if !more {
          break;
        }
        status, notify := true, notify || full;
      }
      got, read := h.got, h.read;
      ReceivedMeans(h, places.pool.list, places.queue.list, commands.Contents());
    }

    /** One round: responses out first, as that frees messages, then commands in. */
    method Round()
      returns (status: bool, notify: bool, ghost gone: seq<Message>, ghost sent: seq<Record>,
               ghost got: seq<Message>, ghost read: seq<Record>)
      requires Valid()
      modifies commands, responses, places`held, places.pool, places.pool.list`next, places.pool.list`body,
        places.queue, places.queue.list`next, places.remote, places.remote.list`next, places.remote.list`body
      ensures Valid() && places.held == old(places.held)
      ensures Split(old(places.remote.list), gone, places.remote.list)
      ensures sent <= old(RecordsOf(places.remote.list)) && |sent| == |gone|
      ensures Split(responses.Contents(), old(responses.Contents()), sent)
      ensures Split(Reversed(gone) + old(places.pool.list), got, places.pool.list)
      ensures Split(places.queue.list, old(places.queue.list), got) && RecordsOf(got) == read
      ensures Split(old(commands.Contents()), read, commands.Contents())
      ensures places.remote.list == [] || responses.IsFull()
      ensures commands.Contents() == [] || places.pool.list == []
      ensures status == (gone != [] || got != [])
      ensures notify == (gone != [] || (got != [] && |old(commands.Contents())| == LENGTH))
    {
      hide Encode, Unread, Linked, Partition, RingBuffer.Contents, RingBuffer.Valid;
      hide RingBuffer.IsFull, Places.Valid, RecordsOf, Reversed;
      ghost var out, free := places.remote.list, places.pool.list;
      ghost var records := RecordsOf(out);
      var outStatus, inStatus, inNotify;
      outStatus, gone := ProcessOutput();
      sent := RecordsOf(gone);
      RecordsPrefix(out, gone, places.remote.list);
      assert sent <= records && |sent| == |gone|;
      FreedIn(places.pool.list, gone, free, out, places.remote.list);
      inStatus, inNotify, got, read := ProcessInput();
      status, notify := outStatus || inStatus, outStatus || inNotify;
    }

    lemma QueueApart(a: seq<Message>)
      requires places.Valid() && exists local :: Split(places.queue.list, local, a)
      ensures forall i :: 0 <= i < |a| ==> a[i] !in places.pool.list && a[i] !in places.remote.list
    {
    }

    /** Rounds until nothing changes.  Against a quiet peer this ends, after one round that does all
        there is to do: responses are used up or fill their ring, commands are used up or fill the
        pool's messages. */
    method ProcessQueues()
      returns (notified: bool, ghost gone: seq<Message>, ghost sent: seq<Record>,
               ghost got: seq<Message>, ghost read: seq<Record>)
      requires Valid()
      modifies commands, responses, places`held, places.pool, places.pool.list`next, places.pool.list`body,
        places.queue, places.queue.list`next, places.remote, places.remote.list`next, places.remote.list`body
      ensures Valid() && places.held == old(places.held)
      ensures Split(old(places.remote.list), gone, places.remote.list)
      ensures sent <= old(RecordsOf(places.remote.list)) && |sent| == |gone|
      ensures Split(responses.Contents(), old(responses.Contents()), sent)
      ensures Split(Reversed(gone) + old(places.pool.list), got, places.pool.list)
      ensures Split(places.queue.list, old(places.queue.list), got) && RecordsOf(got) == read
      ensures Split(old(commands.Contents()), read, commands.Contents())
      ensures places.remote.list == [] || responses.IsFull()
      ensures commands.Contents() == [] || places.pool.list == []
      ensures notified == (gone != [] || (got != [] && |old(commands.Contents())| == LENGTH))
    {
      hide Encode, Unread, Linked, Partition, RingBuffer.Contents, RingBuffer.Valid, Places.Valid;
      hide RecordsOf, Reversed, Split;
      ghost var out, free, local := places.remote.list, places.pool.list, places.queue.list;
      var status;
      status, notified, gone, sent, got, read := Round();
      while status
        invariant Valid() && places.held == old(places.held)
        invariant Split(old(places.remote.list), gone, places.remote.list)
        invariant Split(responses.Contents(), old(responses.Contents()), sent)
        invariant Split(Reversed(gone) + old(places.pool.list), got, places.pool.list)
        invariant Split(places.queue.list, old(places.queue.list), got) && RecordsOf(got) == read
        invariant Split(old(commands.Contents()), read, commands.Contents())
        invariant places.remote.list == [] || responses.IsFull()
        invariant commands.Contents() == [] || places.pool.list == []
        invariant notified == (gone != [] || (got != [] && |old(commands.Contents())| == LENGTH))
        decreases if status then 1 else 0
      {
        ghost var remote0, ring0, pool0, queue0, cmd0 :=
          places.remote.list, responses.Contents(), places.pool.list, places.queue.list, commands.Contents();
        var notify;
        ghost var gone1, sent1, got1, read1;
        QueueApart(got);
        Footprint(out, gone, remote0, free, got, pool0, queue0, local);
        status, notify, gone1, sent1, got1, read1 := Round();
        NothingMore(remote0, gone1, places.remote.list, ring0, sent1, responses.Contents(),
                    pool0, got1, places.pool.list, queue0, places.queue.list, cmd0, read1, commands.Contents());
        notified := notified || notify;
      }
    }
  }

  lemma {:induction false} RecordsPrefix(out: seq<Message>, gone: seq<Message>, rest: seq<Message>)
    requires Split(out, gone, rest)
    ensures RecordsOf(gone) <= RecordsOf(out)
  {
    hide RecordsOf;
  }

  lemma Footprint(out: seq<Message>, gone: seq<Message>, out1: seq<Message>, free: seq<Message>, got: seq<Message>,
                  free1: seq<Message>, local1: seq<Message>, local: seq<Message>)
    requires Split(out, gone, out1) && Split(Reversed(gone) + free, got, free1) && Split(local1, local, got)
    ensures forall i :: 0 <= i < |out1| ==> out1[i] in out
    ensures forall i :: 0 <= i < |free1| ==> free1[i] in out || free1[i] in free
    ensures forall i :: 0 <= i < |local1| ==> local1[i] in local || local1[i] in out || local1[i] in free
  {
    ReversedSame(gone);
    hide Reversed;
    assert forall x :: x in got + free1 ==> x in out || x in free;
    assert forall x :: x in got || x in free1 ==> x in got + free1;
    assert forall i :: 0 <= i < |local1| ==> local1[i] in local || local1[i] in got;
  }

  /** A second round finds nothing to do: it is out of responses or of room, and out of commands or
      of messages. */
  lemma NothingMore(remote0: seq<Message>, gone: seq<Message>, remote1: seq<Message>,
                    ring0: seq<Record>, sent: seq<Record>, ring1: seq<Record>,
                    pool0: seq<Message>, got: seq<Message>, pool1: seq<Message>,
                    queue0: seq<Message>, queue1: seq<Message>,
                    cmd0: seq<Record>, read: seq<Record>, cmd1: seq<Record>)
    requires Split(remote0, gone, remote1) && Split(ring1, ring0, sent) && |sent| == |gone| && |ring1| <= LENGTH
    requires remote0 == [] || |ring0| == LENGTH
    requires Split(Reversed(gone) + pool0, got, pool1) && Split(queue1, queue0, got)
    requires Split(cmd0, read, cmd1) && |read| == |got| && (cmd0 == [] || pool0 == [])
    ensures gone == [] && got == []
    ensures remote1 == remote0 && ring1 == ring0 && pool1 == pool0 && queue1 == queue0 && cmd1 == cmd0
  {
    assert gone == [] && Reversed(gone) == [];
    assert Reversed(gone) + pool0 == pool0;
    assert got == [];
  }

  /** The free messages come from the pool and from the responses sent. */
  lemma FreedIn(pool: seq<Message>, gone: seq<Message>, free: seq<Message>, out: seq<Message>, rest: seq<Message>)
    requires Split(pool, Reversed(gone), free) && Split(out, gone, rest)
    ensures pool == Reversed(gone) + free
    ensures forall i :: 0 <= i < |pool| ==> pool[i] in out || pool[i] in free
  {
    ReversedSame(gone);
    hide Reversed;
    forall i | 0 <= i < |pool| ensures pool[i] in out || pool[i] in free {
      assert pool[i] in Reversed(gone) || pool[i] in free;
    }
  }

  lemma {:induction false} ReversedSame(list: seq<Message>)
    ensures forall x :: x in Reversed(list) <==> x in list
  {
    if list != [] {
      ReversedSame(list[1..]);
      assert list == [list[0]] + list[1..];
    }
  }
}
