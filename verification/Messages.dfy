/**
 Messages, the intrusive FIFO queue and the message pool, an intrusive free list.
 */
module Messages {
  // The parameters of a message, and the record of a ring.
  datatype Record = Record(id: nat, opcode: nat, length: nat, buffer: nat)

  class Message {
    var next: Message?
    var body: Record

    constructor (b: Record)
      ensures next == null && body == b
    {
      next, body := null, b;
    }
  }

  // ------------------------------------------------------------ linked lists

  function First(list: seq<Message>): Message? { if list == [] then null else list[0] }

  function Last(list: seq<Message>): Message? { if list == [] then null else list[|list| - 1] }

  /** The message after the i-th one. */
  function After(list: seq<Message>, i: nat): Message? { if i + 1 < |list| then list[i + 1] else null }

  ghost predicate Distinct(list: seq<Message>) {
    forall i, j :: 0 <= i < j < |list| ==> list[i] != list[j]
  }

  /** The messages are linked in this order through their own fields. */
  ghost predicate Linked(list: seq<Message>)
    reads list
  {
    && Distinct(list)
    && (forall i :: 0 <= i < |list| ==> list[i].next == After(list, i))
  }

  /** The queue: head and tail pointers over linked messages. */
  class Queue {
    var head: Message?
    var tail: Message?
    ghost var list: seq<Message>

    ghost predicate Valid()
      reads this, list
    {
      head == First(list) && tail == Last(list) && Linked(list)
    }

    constructor ()
      ensures Valid() && list == []
    {
      head, tail, list := null, null, [];
    }

    /** Puts a message at the end; tells whether the queue was empty. */
    method Enqueue(m: Message) returns (first: bool)
      requires Valid() && m !in list && m.next == null
      modifies this, list`next, m`next
      ensures Valid() && list == old(list) + [m] && first == (old(list) == [])
    {
      first := head == null;
      m.next := null;
      if first {
        head := m;
      } else {
        tail.next := m;
      }
      tail := m;
      list := list + [m];
    }

    /** Takes the message at the front, if there is one, and wipes its link. */
    method Dequeue() returns (m: Message?)
      requires Valid()
      modifies this, list`next
      ensures Valid() && m == First(old(list))
      ensures m == null ==> list == old(list) == []
      ensures m != null ==> old(list) == [m] + list && m.next == null && m !in list
    {
      m := head;
      if m != null {
        head := m.next;
        if head == null {
          tail := null;
        }
        m.next := null;
        list := list[1..];
      }
    }
  }

  /** The pool: an array of messages, the free ones linked from the head. */
  class Pool {
    const items: array<Message>
    var head: Message?
    ghost var list: seq<Message>

    ghost predicate Valid()
      reads this, items, list
    {
      head == First(list) && Linked(list) && (forall m :: m in list ==> m in items[..])
    }

    /** Builds the free list of all n messages, in their order in memory. */
    constructor (memory: array<Message>)
      requires 0 < memory.Length && Distinct(memory[..])
      modifies memory[..]`next
      ensures items == memory && Valid() && list == memory[..]
    {
      items := memory;
      head := memory[0];
      list := memory[..];
      new;
      var i := 0;
      while i < items.Length - 1
        invariant 0 <= i < items.Length && items == memory && head == memory[0] && list == memory[..]
        invariant forall k :: 0 <= k < i ==> items[k].next == items[k + 1]
      {
        items[i].next := items[i + 1];
        i := i + 1;
      }
      items[i].next := null;
    }

    /** Pops a free message, if there is one. */
    method Get() returns (m: Message?)
      requires Valid()
      modifies this, list`next
      ensures Valid() && m == First(old(list))
      ensures m == null ==> list == old(list) == []
      ensures m != null ==> old(list) == [m] + list && m.next == null && m !in list && m in items[..]
    {
      if head == null {
        return null;
      }
      m := head;
      head := m.next;
      m.next := null;
      list := list[1..];
    }

    /** Pushes a message of this pool. */
    method Put(m: Message)
      requires Valid() && m !in list && m in items[..]
      modifies this, m`next
      ensures Valid() && list == [m] + old(list)
    {
      m.next := head;
      head := m;
      list := [m] + list;
    }
  }
}
