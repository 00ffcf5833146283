/**
 The input port: it re-blocks a stream of messages into a contiguous buffer (or hands the
 messages' own buffers out, in bypass mode), and follows the stream to its end.
 */
module InputPort {
  import opened FlagWords

  type byte = x: int | 0 <= x < 256 witness 0

  // A data message; only a message without data has no buffer.
  datatype Message = Message(id: nat, data: seq<byte>)

  // What is returned to the originator of a message.
  datatype Response = Response(id: nat, length: nat)

  // A pointer into a message buffer.
  datatype Access = NullPtr | At(data: seq<byte>, offset: nat)

  datatype Flag = CREATED | ENABLED | EOS | DONE | PURGING | Custom(bit: nat)

  /** All data of a list of messages. */
  function Concat(q: seq<Message>): seq<byte> {
    if q == [] then [] else q[0].data + Concat(q[1..])
  }

  /** The data not read yet, when `remaining` bytes of the first message are left. */
  function Pending(q: seq<Message>, remaining: nat): seq<byte> {
    if q == [] then [] else Unread(q[0], remaining) + Concat(q[1..])
  }

  /** The last `remaining` bytes of a message. */
  function Unread(m: Message, remaining: nat): seq<byte> {
    if remaining <= |m.data| then m.data[|m.data| - remaining..] else []
  }

  function Ids(q: seq<Message>): seq<nat> { seq(|q|, i requires 0 <= i < |q| => q[i].id) }

  function ResponseIds(a: seq<Response>): seq<nat> { seq(|a|, i requires 0 <= i < |a| => a[i].id) }

  /** Responses to completely read messages keep the length, all others are zero-length. */
  function Completed(q: seq<Message>): seq<Response> {
    seq(|q|, i requires 0 <= i < |q| => Response(q[i].id, |q[i].data|))
  }

  function Okay(q: seq<Message>): seq<Response> {
    seq(|q|, i requires 0 <= i < |q| => Response(q[i].id, 0))
  }

  // ------------------------------------------------------------------- state

  ghost predicate NoEnd(q: seq<Message>) {
    forall i :: 0 <= i < |q| ==> q[i].data != []
  }

  /** Exactly one of the three stream states, and what the queue looks like in each. */
  ghost predicate StreamState(flags: set<Flag>, q: seq<Message>) {
    && CREATED in flags
    && (if ENABLED in flags then EOS !in flags && DONE !in flags && NoEnd(q)
        else if EOS in flags then
          DONE !in flags && q != [] && NoEnd(q[..|q| - 1]) && q[|q| - 1].data == []
        else DONE in flags && |q| == 1 && q[0].data == [])
  }

  /** The access pointer and the remaining length belong to the first message of the queue. */
  ghost predicate HeadState(q: seq<Message>, access: Access, remaining: nat) {
    if q == [] then access == NullPtr
    else if q[0].data == [] then access == NullPtr && remaining == 0
    else 0 < remaining <= |q[0].data| && access == At(q[0].data, |q[0].data| - remaining)
  }

  lemma ConcatAppend(q: seq<Message>, m: Message)
    ensures Concat(q + [m]) == Concat(q) + m.data
  {
    if q == [] {
      assert [] + [m] == [m];
    } else {
      assert (q + [m])[1..] == q[1..] + [m];
      ConcatAppend(q[1..], m);
    }
  }

  /** Every message ever put is either answered or queued, once. */
  ghost predicate Accounted(received: seq<nat>, answered: seq<Response>, q: seq<Message>) {
    multiset(received) == multiset(ResponseIds(answered)) + multiset(Ids(q))
  }

  lemma AccountedQueued(received: seq<nat>, answered: seq<Response>, q: seq<Message>, m: Message)
    requires Accounted(received, answered, q)
    ensures Accounted(received + [m.id], answered, q + [m])
  {
    assert Ids(q + [m]) == Ids(q) + [m.id];
  }

  lemma AccountedRefused(received: seq<nat>, answered: seq<Response>, q: seq<Message>, r: Response)
    requires Accounted(received, answered, q)
    ensures Accounted(received + [r.id], answered + [r], q)
  {
    assert ResponseIds(answered + [r]) == ResponseIds(answered) + [r.id];
  }

  lemma AccountedAnswered(received: seq<nat>, answered: seq<Response>, q: seq<Message>, r: Response)
    requires Accounted(received, answered, q) && q != [] && r.id == q[0].id
    ensures Accounted(received, answered + [r], q[1..])
  {
    assert ResponseIds(answered + [r]) == ResponseIds(answered) + [r.id];
    assert Ids(q) == [r.id] + Ids(q[1..]);
  }

  /** The stream flags after a message has been put into a port that is enabled. */
  function FlagsAfterPut(flags: set<Flag>, q: seq<Message>, m: Message): set<Flag> {
    if m.data != [] then flags else flags - {ENABLED} + {if q == [] then DONE else EOS}
  }

  lemma PutState(flags: set<Flag>, q: seq<Message>, m: Message)
    requires StreamState(flags, q) && ENABLED in flags
    ensures StreamState(FlagsAfterPut(flags, q, m), q + [m])
    ensures m.data == [] ==>
      var f := Xor(flags, {ENABLED, EOS});
      FlagsAfterPut(flags, q, m) == if q == [] then Xor(f, {EOS, DONE}) else f
    ensures m.data != [] ==> FlagsAfterPut(flags, q, m) == flags
    ensures PURGING in FlagsAfterPut(flags, q, m) <==> PURGING in flags
  {
    if m.data == [] {
      assert (q + [m])[..|q|] == q;
    }
  }

  lemma PutBehind(q: seq<Message>, access: Access, remaining: nat, m: Message)
    requires HeadState(q, access, remaining) && q != []
    ensures HeadState(q + [m], access, remaining)
    ensures Pending(q + [m], remaining) == Pending(q, remaining) + m.data
  {
    PendingBehind(q, remaining, m);
    assert (q + [m])[0] == q[0];
    hide Pending;
  }

  lemma PendingBehind(q: seq<Message>, remaining: nat, m: Message)
    requires q != []
    ensures Pending(q + [m], remaining) == Pending(q, remaining) + m.data
  {
    hide Unread, Concat;
    var rest := Unread(q[0], remaining);
    ConcatAppend(q[1..], m);
    assert (q + [m])[1..] == q[1..] + [m];
    assert rest + (Concat(q[1..]) + m.data) == rest + Concat(q[1..]) + m.data;
  }

  lemma PendingEmpty(q: seq<Message>, remaining: nat)
    requires q == []
    ensures Pending(q, remaining) == []
  {
  }

  lemma Assoc(a: seq<byte>, b: seq<byte>, c: seq<byte>, d: seq<byte>)
    ensures a + b + c + d == a + b + (c + d)
  {
  }

  lemma PutFirst(m: Message)
    ensures HeadState([m], if m.data == [] then NullPtr else At(m.data, 0), |m.data|)
    ensures Pending([m], |m.data|) == m.data && Pending([], 0) == []
  {
    assert [m][1..] == [];
  }

  // ------------------------------------------------------- reading the queue

  /** The access pointer at the start of the first message. */
  function Start(q: seq<Message>): Access {
    if q == [] || q[0].data == [] then NullPtr else At(q[0].data, 0)
  }

  function StartLength(q: seq<Message>): nat { if q == [] then 0 else |q[0].data| }

  lemma StartHead(q: seq<Message>)
    requires q != []
    ensures HeadState(q, Start(q), StartLength(q)) && Pending(q, StartLength(q)) == Concat(q)
  {
  }

  /** Reading a part of the first message. */
  lemma ReadPart(q: seq<Message>, access: Access, remaining: nat, k: nat)
    requires HeadState(q, access, remaining) && q != [] && 0 < k < remaining
    ensures access.At? && access.offset + k <= |access.data|
    ensures HeadState(q, At(access.data, access.offset + k), remaining - k)
    ensures k <= |Pending(q, remaining)|
    ensures Pending(q, remaining)[..k] == access.data[access.offset..access.offset + k]
    ensures Pending(q, remaining)[k..] == Pending(q, remaining - k)
  {
  }

  /** Reading the rest of the first message. */
  lemma ReadRest(q: seq<Message>, access: Access, remaining: nat)
    requires HeadState(q, access, remaining) && q != [] && 0 < remaining
    ensures q[0].data != [] && access.At? && access.offset + remaining == |access.data|
    ensures remaining <= |Pending(q, remaining)|
    ensures Pending(q, remaining)[..remaining] == access.data[access.offset..]
    ensures Pending(q, remaining)[remaining..] == Concat(q[1..])
  {
  }

  /** Completing a message that carries data keeps the stream state. */
  lemma CompleteKeeps(flags: set<Flag>, q: seq<Message>)
    requires StreamState(flags, q) && q != [] && q[0].data != []
    ensures StreamState(flags, q[1..])
  {
    var r := q[1..];
    if EOS in flags {
      assert r[..|r| - 1] == q[..|q| - 1][1..];
    }
  }

  lemma AllButLast(q: seq<Message>)
    requires |q| > 1
    ensures q[..|q| - 1][0] == q[0]
  {
  }

  lemma EndIsAlone(flags: set<Flag>, q: seq<Message>)
    requires StreamState(flags, q) && DONE !in flags && q != [] && q[0].data == []
    ensures EOS in flags && ENABLED !in flags && CREATED in flags && |q| == 1
  {
    if |q| > 1 {
      AllButLast(q);
    }
  }

  /** The empty message is reached: the stream is done. */
  lemma EndReached(flags: set<Flag>, q: seq<Message>)
    requires StreamState(flags, q) && DONE !in flags && q != [] && q[0].data == []
    ensures PURGING in Xor(flags, {EOS, DONE}) <==> PURGING in flags
    ensures EOS in flags && q == [q[0]]
    ensures Xor(flags, {EOS, DONE}) == flags - {EOS} + {DONE} && StreamState(Xor(flags, {EOS, DONE}), q)
  {
    EndIsAlone(flags, q);
  }

  /** The head of the queue is empty exactly when nothing of it remains. */
  lemma HeadRemaining(q: seq<Message>, access: Access, remaining: nat)
    requires HeadState(q, access, remaining) && q != []
    ensures remaining == 0 <==> q[0].data == []
    ensures 0 < remaining ==> access.At? && access.offset + remaining == |access.data|
  {
  }

  /** One chunk of the pending data, cut off the first message. */
  lemma ReadChunk(q: seq<Message>, access: Access, remaining: nat, k: nat)
    requires HeadState(q, access, remaining) && q != [] && 0 < k <= remaining
    ensures access.At? && access.offset + k <= |access.data|
    ensures k <= |Pending(q, remaining)|
    ensures Pending(q, remaining)[..k] == access.data[access.offset..access.offset + k]
    ensures k < remaining ==> HeadState(q, At(access.data, access.offset + k), remaining - k)
    ensures k < remaining ==> Pending(q, remaining - k) == Pending(q, remaining)[k..]
    ensures k == remaining ==> q[0].data != [] && Pending(q, remaining)[k..] == Concat(q[1..])
  {
    if k < remaining {
      ReadPart(q, access, remaining, k);
    } else {
      ReadRest(q, access, remaining);
    }
  }

  lemma CompletedNone(q: seq<Message>)
    ensures Completed(q[..0]) == [] && q == q[0..]
  {
  }

  lemma EndPending(q: seq<Message>, remaining: nat)
    requires |q| == 1 && q[0].data == [] && remaining == 0
    ensures Pending(q, remaining) == []
  {
    assert q[1..] == [];
  }

  lemma NothingLeft(q: seq<Message>, access: Access, remaining: nat)
    requires q == [] && access == Start(q)
    ensures Concat(q) == [] && Pending(q, remaining) == [] && HeadState(q, access, remaining)
  {
  }

  /** Chunks taken one after the other are one prefix of the data. */
  lemma TakeMore(content: seq<byte>, data: seq<byte>, taken: nat, k: nat)
    requires taken <= |data| && k <= |data[taken..]|
    ensures taken + k <= |data|
    ensures (content + data[..taken]) + data[taken..][..k] == content + data[..taken + k]
    ensures data[taken..][k..] == data[taken + k..]
  {
    assert data[..taken] + data[taken..][..k] == data[..taken + k];
  }

  lemma CompletedMore(all: seq<Message>, j: nat)
    requires j < |all|
    ensures all[j..][1..] == all[j + 1..] && all[j..][0] == all[j]
    ensures Completed(all[..j]) + Completed(all[j..][..1]) == Completed(all[..j + 1])
    ensures Completed(all[j..][..1]) == [Response(all[j].id, |all[j].data|)]
  {
  }

  /** Copies bytes between buffers that do not overlap. */
  method MemCpy(to: array<byte>, at: nat, from: seq<byte>)
    requires at + |from| <= to.Length
    modifies to
    ensures to[..at + |from|] == old(to[..at]) + from
    ensures to[at + |from|..] == old(to[at + |from|..])
  {
    forall i | 0 <= i < |from| {
      to[at + i] := from[i];
    }
  }

  class Port {
    var queue: seq<Message>
    var buffer: array?<byte>       // null in bypass mode
    var length: nat                // size of the internal buffer
    var filled: nat                // writing position in the buffer
    var access: Access
    var remaining: nat
    var flags: set<Flag>
    var answered: seq<Response>    // everything returned to originators so far
    ghost var received: seq<nat>   // ids of all messages ever put
    ghost var accepted: seq<byte>  // stream data accepted
    ghost var consumed: seq<byte>  // stream data consumed

    predicate Purging() reads this { PURGING in flags }

    /** Bytes that wait in the internal buffer. */
    ghost function Buffered(): seq<byte>
      reads this, buffer
      requires BufferShape()
    {
      if buffer == null then [] else buffer[..filled]
    }

    ghost predicate BufferShape()
      reads this, buffer
    {
      if buffer == null then length == 0 && filled == 0
      else 0 < length == buffer.Length < 0x8000_0000 && filled <= length
    }

    ghost predicate Valid()
      reads this, buffer
    {
      && BufferShape() && Accounted(received, answered, queue)
      && !Purging()
      && StreamState(flags, queue) && HeadState(queue, access, remaining)
      && accepted == consumed + Buffered() + Pending(queue, remaining)
    }

    /** A purging port holds one saved flow-control message and no data. */
    ghost predicate ValidPurging()
      reads this, buffer
    {
      && BufferShape() && Accounted(received, answered, queue)
      && Purging() && StreamState(Xor(flags, {PURGING}), []) && ENABLED in flags
      && |queue| == 1 && access == NullPtr && filled == 0 && accepted == consumed
    }

    constructor (buffer: array?<byte>, size: nat)
      requires if size == 0 then buffer == null else buffer != null && buffer.Length == size < 0x8000_0000
      ensures Valid() && this.buffer == buffer && queue == [] && answered == [] && received == []
      ensures flags == {ENABLED, CREATED} && filled == 0 && accepted == [] && consumed == []
    {
      this.buffer := buffer;
      queue, answered := [], [];
      length := size;
      flags := {ENABLED, CREATED};
      filled, access, remaining := 0, NullPtr, 0;
      received, accepted, consumed := [], [], [];
    }

    /** Puts a message into the queue; true when it is the first one. */
    method Put(m: Message) returns (first: bool)
      requires Valid()
      modifies this
      ensures Valid() && buffer == old(buffer) && filled == old(filled) && length == old(length)
      ensures consumed == old(consumed)
      ensures received == old(received) + [m.id]
      // a disabled port answers at once and takes nothing
      ensures !(ENABLED in old(flags)) ==>
        && !first && queue == old(queue) && flags == old(flags) && accepted == old(accepted)
        && answered == old(answered) + [Response(m.id, 0)]
      // an enabled one queues the message; an empty message ends the stream
      ensures (ENABLED in old(flags)) ==>
        && queue == old(queue) + [m] && answered == old(answered) && accepted == old(accepted) + m.data
        && (first <==> old(queue) == [])
        && flags == FlagsAfterPut(old(flags), old(queue), m)
    {
      hide Accounted, StreamState, HeadState, Pending, Concat, Xor, FlagsAfterPut;
      received := received + [m.id];
      if ENABLED !in flags {
        AccountedRefused(old(received), answered, queue, Response(m.id, 0));
        answered := answered + [Response(m.id, 0)];
        return false;
      }
      Assoc(consumed, Buffered(), Pending(queue, remaining), m.data);
      AccountedQueued(old(received), answered, queue, m);
      accepted := accepted + m.data;
      first := Accept(m);
    }

    /** The part of Put for an enabled port: the message joins the queue. */
    method Accept(m: Message) returns (first: bool)
      requires ENABLED in flags && StreamState(flags, queue) && HeadState(queue, access, remaining)
      modifies `queue, `access, `remaining, `flags
      ensures queue == old(queue) + [m] && (first <==> old(queue) == [])
      ensures flags == FlagsAfterPut(old(flags), old(queue), m) && (PURGING in flags <==> PURGING in old(flags))
      ensures StreamState(flags, queue) && HeadState(queue, access, remaining)
      ensures Pending(queue, remaining) == Pending(old(queue), old(remaining)) + m.data
    {
      hide StreamState, HeadState, Pending, Concat, Xor, FlagsAfterPut;
      PutState(flags, queue, m);
      if queue != [] {
        PutBehind(queue, access, remaining, m);
      } else {
        PutFirst(m);
        PendingEmpty(queue, remaining);
        assert queue + [m] == [m];
      }
      if m.data == [] {
        flags := Xor(flags, {ENABLED, EOS});
      }
      first := queue == [];
      queue := queue + [m];
      if first {
        access, remaining := if m.data == [] then NullPtr else At(m.data, 0), |m.data|;
        if access == NullPtr {
          flags := Xor(flags, {EOS, DONE});
        }
      }
    }

    /** Returns the first message to its originator and moves on; true when there is a next one. */
    method Complete() returns (more: bool)
      requires queue != []
      modifies `queue, `answered, `access, `remaining
      ensures queue == old(queue)[1..] && answered == old(answered) + Completed(old(queue)[..1])
      ensures access == Start(queue) && (more <==> queue != [])
      ensures remaining == if more then StartLength(queue) else old(remaining)
    {
      var m := queue[0];
      queue := queue[1..];
      answered := answered + [Response(m.id, |m.data|)];
      if queue != [] {
        access, remaining := if queue[0].data == [] then NullPtr else At(queue[0].data, 0), |queue[0].data|;
        return true;
      } else {
        access := NullPtr;
        return false;
      }
    }

    /** Completes a message that has been read to its end. */
    method Advance() returns (more: bool)
      requires queue != [] && queue[0].data != [] && StreamState(flags, queue) && Accounted(received, answered, queue)
      modifies `queue, `answered, `access, `remaining
      ensures queue == old(queue)[1..] && answered == old(answered) + Completed(old(queue)[..1])
      ensures StreamState(flags, queue) && Accounted(received, answered, queue)
      ensures access == Start(queue) && (more <==> queue != [])
      ensures more ==> HeadState(queue, access, remaining) && Pending(queue, remaining) == Concat(old(queue)[1..])
      ensures !more ==> remaining == old(remaining) && Concat(old(queue)[1..]) == []
      ensures !more ==> forall r: nat :: HeadState(queue, access, r) && Pending(queue, r) == []
    {
      hide StreamState, HeadState, Pending, Concat, Accounted, Start, Completed;
      CompleteKeeps(flags, queue);
      CompletedOne(queue);
      AccountedAnswered(received, answered, queue, Response(queue[0].id, |queue[0].data|));
      more := Complete();
      if more {
        StartHead(queue);
      } else {
        NothingLeft(queue, access, remaining);
        forall r: nat ensures HeadState(queue, access, r) && Pending(queue, r) == [] {
          NothingLeft(queue, access, r);
        }
      }
    }

    /** Copies k bytes of the first message into the buffer. */
    method CopyChunk(filled: nat, remaining: nat, k: nat)
      requires queue != [] && HeadState(queue, access, remaining) && 0 < k <= remaining
      requires buffer != null && filled + k <= buffer.Length
      modifies `access, buffer
      ensures k <= |Pending(queue, remaining)|
      ensures buffer[..filled + k] == old(buffer[..filled]) + Pending(queue, remaining)[..k]
      ensures k < remaining ==>
        HeadState(queue, access, remaining - k) && Pending(queue, remaining - k) == Pending(queue, remaining)[k..]
      ensures k == remaining ==> queue[0].data != [] && Concat(queue[1..]) == Pending(queue, remaining)[k..]
    {
      hide HeadState, Pending, Concat;
      ReadChunk(queue, access, remaining, k);
      MemCpy(buffer, filled, access.data[access.offset..access.offset + k]);
      access := At(access.data, access.offset + k);
    }

    /** The copying loop of Fill: it stops with the buffer full (n == 0), the queue empty, or the
        empty message at the head, which marks the stream done (and n == 0). */
    method CopyIn(filled0: nat, remaining0: nat)
      returns (filled: nat, remaining: nat, n: int, ghost taken: nat, ghost j: nat)
      requires BufferShape() && buffer != null && filled0 <= length && queue != []
      requires DONE !in flags && StreamState(flags, queue) && HeadState(queue, access, remaining0)
      requires Accounted(received, answered, queue)
      modifies `queue, `answered, `access, `remaining, `flags, buffer
      ensures n >= 0 && filled == filled0 + taken <= length
      ensures var data := Pending(old(queue), remaining0);
              && taken <= |data| && buffer[..filled] == old(buffer[..filled0]) + data[..taken]
              && Pending(queue, remaining) == data[taken..]
              && (EOS in old(flags) && |data| < length - filled0 ==>
                    n == 0 && taken == |data| && flags == old(flags) - {EOS} + {DONE})
              && (!(EOS in old(flags) && |data| < length - filled0) ==>
                    flags == old(flags) && (n == 0 <==> length - filled0 <= |data|)
                    && taken == (if length - filled0 <= |data| then length - filled0 else |data|))
      ensures StreamState(flags, queue) && HeadState(queue, access, remaining)
      ensures PURGING in flags <==> PURGING in old(flags)
      ensures Accounted(received, answered, queue)
      ensures j <= |old(queue)| && queue == old(queue)[j..] && answered == old(answered) + Completed(old(queue)[..j])
    {
      hide StreamState, HeadState, Pending, Concat, Accounted, Completed, Xor, Start;
      filled, remaining := filled0, remaining0;
      n := length - filled;
      ghost var all, data := queue, Pending(queue, remaining);
      ghost var content := buffer[..filled];
      taken, j := 0, 0;
      CompletedNone(all);
      while n > 0
        invariant n == length - filled >= 0 && taken <= |data| && filled == filled0 + taken
        invariant buffer[..filled] == content + data[..taken]
        invariant j < |all| && queue == all[j..] && queue != []
        invariant answered == old(answered) + Completed(all[..j]) && Accounted(received, answered, queue)
        invariant flags == old(flags) && StreamState(flags, queue) && HeadState(queue, access, remaining)
        invariant Pending(queue, remaining) == data[taken..]
      {
        var k: nat := if remaining > n then n else remaining;
        HeadRemaining(queue, access, remaining);
        if k == 0 {
          EndReached(flags, queue);
          EndPending(queue, remaining);
          flags := Xor(flags, {EOS, DONE});
          n := 0;
          break;
        }
        CopyChunk(filled, remaining, k);
        TakeMore(content, data, taken, k);
        filled, n, remaining, taken := filled + k, n - k, remaining - k, taken + k;
        if remaining == 0 {
          CompletedMore(all, j);
          var more := Advance();
          j := j + 1;
          if !more {
            EmptyIsOpen(flags, queue);
            break;
          }
          remaining := this.remaining;
        }
      }
    }

    /** Moves data from the queued messages into the internal buffer until it is full, the queue
        is empty or the stream ends. */
    method Fill() returns (full: bool)
      requires Valid() && buffer != null && DONE !in flags
      modifies this, buffer
      ensures Valid() && buffer == old(buffer) && length == old(length)
      ensures accepted == old(accepted) && consumed == old(consumed) && received == old(received)
      ensures var room, data := length - old(filled), Pending(old(queue), old(remaining));
              var k := if room <= |data| then room else |data|;
              && filled == old(filled) + k
              && buffer != null && filled <= buffer.Length && buffer[..filled] == old(buffer[..filled]) + data[..k]
              && flags == (if EOS in old(flags) && |data| < room then old(flags) - {EOS} + {DONE} else old(flags))
              && (full <==> old(queue) != [] && (room <= |data| || EOS in old(flags)))
      ensures exists j: nat :: j <= |old(queue)| && queue == old(queue)[j..]
                            && answered == old(answered) + Completed(old(queue)[..j])
    {
      hide StreamState, HeadState, Pending, Concat, Accounted, Completed, Xor, Start;
      if queue == [] {
        PendingEmpty(queue, remaining);
        EmptyIsOpen(flags, queue);
        CompletedNone(queue);
        assert queue == old(queue)[0..] && answered == old(answered) + Completed(old(queue)[..0]);
        assert buffer[..filled] == old(buffer[..filled]) + [][..0];
        return false;
      }
      ghost var data := Pending(queue, remaining);
      var n;
      ghost var taken, j;
      filled, remaining, n, taken, j := CopyIn(filled, remaining);
      Assoc3(old(consumed), old(buffer[..filled]), data, taken);
      return n == 0;
    }

    /** Pads the internal buffer with a pattern, which then counts as stream data. */
    method Pad(pad: byte)
      requires Valid()
      modifies this, buffer
      ensures Valid() && buffer == old(buffer) && length == old(length) && filled == length
      ensures queue == old(queue) && answered == old(answered) && flags == old(flags) && received == old(received)
      ensures consumed == old(consumed)
      ensures Buffered() == old(Buffered()) + seq(length - old(filled), _ => pad)
      ensures accepted == consumed + Buffered() + Pending(queue, remaining)
    {
      hide StreamState, HeadState, Pending, Concat, Accounted;
      var k := length - filled;
      if k > 0 {
        MemCpy(buffer, filled, seq(k, _ => pad));
        filled := length;
        accepted := consumed + buffer[..filled] + Pending(queue, remaining);
      } else {
        assert Buffered() == Buffered() + seq(k, _ => pad);
      }
    }

    /** Consumes n bytes: of the internal buffer, whose tail moves to the front, or, in bypass
        mode, of the first message. */
    method Consume(n: nat)
      requires Valid()
      requires buffer == null ==> queue != [] && queue[0].data != [] && n <= remaining
      modifies this, buffer
      ensures Valid() && buffer == old(buffer) && length == old(length)
      ensures accepted == old(accepted) && received == old(received)
      ensures buffer != null ==> queue == old(queue) && answered == old(answered) && flags == old(flags)
      ensures buffer != null ==>
        var k := if n < old(filled) then n else old(filled);
        consumed == old(consumed) + old(Buffered())[..k] && Buffered() == old(Buffered())[k..]
      ensures buffer == null ==>
        && n <= |Pending(old(queue), old(remaining))|
        && consumed == old(consumed) + Pending(old(queue), old(remaining))[..n]
        && (n < old(remaining) ==> queue == old(queue) && answered == old(answered) && flags == old(flags))
        && (n == old(remaining) ==>
              && queue == old(queue)[1..] && answered == old(answered) + Completed(old(queue)[..1])
              && flags == if queue != [] && queue[0].data == [] then old(flags) - {EOS} + {DONE} else old(flags))
    {
      hide StreamState, HeadState, Pending, Concat, Accounted, Completed;
      if buffer == null {
        ConsumeHead(n);
      } else {
        ConsumeBuffer(n);
      }
    }

    /** The buffered part of Consume. */
    method ConsumeBuffer(n: nat)
      requires Valid() && buffer != null
      modifies this, buffer
      ensures Valid() && buffer == old(buffer) && length == old(length)
      ensures accepted == old(accepted) && received == old(received)
      ensures queue == old(queue) && answered == old(answered) && flags == old(flags)
      ensures var k := if n < old(filled) then n else old(filled);
              consumed == old(consumed) + old(Buffered())[..k] && Buffered() == old(Buffered())[k..]
    {
      hide StreamState, HeadState, Pending, Concat, Accounted;
      ghost var content, rest := buffer[..filled], Pending(queue, remaining);
      ghost var k: nat := if n < filled then n else filled;
      Shift(consumed, content, rest, k);
      if filled > n {
        MoveDown(buffer, n, filled - n);
        filled := filled - n;
      } else {
        filled := 0;
      }
      consumed := consumed + content[..k];
      assert buffer[..filled] == content[k..];
    }

    /** The bypass part of Consume. */
    method ConsumeHead(n: nat)
      requires Valid() && buffer == null && queue != [] && queue[0].data != [] && n <= remaining
      modifies this
      ensures Valid() && buffer == null && length == old(length)
      ensures accepted == old(accepted) && received == old(received)
      ensures n <= |Pending(old(queue), old(remaining))|
      ensures consumed == old(consumed) + Pending(old(queue), old(remaining))[..n]
      ensures n < old(remaining) ==> queue == old(queue) && answered == old(answered) && flags == old(flags)
      ensures n == old(remaining) ==>
        && queue == old(queue)[1..] && answered == old(answered) + Completed(old(queue)[..1])
        && flags == if queue != [] && queue[0].data == [] then old(flags) - {EOS} + {DONE} else old(flags)
    {
      hide StreamState, HeadState, Pending, Concat, Accounted, Completed;
      ghost var data := Pending(queue, remaining);
      ReadHead(n);
      Assoc3(consumed, [], data, n);
      consumed := consumed + data[..n];
    }

    /** Reads n bytes of the first message where they are. */
    method ReadHead(n: nat)
      requires queue != [] && queue[0].data != [] && n <= remaining
      requires StreamState(flags, queue) && HeadState(queue, access, remaining) && Accounted(received, answered, queue)
      modifies `queue, `answered, `access, `remaining, `flags
      ensures StreamState(flags, queue) && HeadState(queue, access, remaining) && Accounted(received, answered, queue)
      ensures n <= |Pending(old(queue), old(remaining))|
      ensures Pending(queue, remaining) == Pending(old(queue), old(remaining))[n..]
      ensures PURGING in flags <==> PURGING in old(flags)
      ensures n < old(remaining) ==> queue == old(queue) && answered == old(answered) && flags == old(flags)
      ensures n == old(remaining) ==>
        && queue == old(queue)[1..] && answered == old(answered) + Completed(old(queue)[..1])
        && flags == if queue != [] && queue[0].data == [] then old(flags) - {EOS} + {DONE} else old(flags)
    {
      hide StreamState, HeadState, Pending, Concat, Accounted, Completed, Xor, Start;
      HeadRemaining(queue, access, remaining);
      HeadOpen(flags, queue);
      if n == 0 {
        ReadNothing(queue, access, remaining);
      } else {
        ReadChunk(queue, access, remaining, n);
      }
      remaining := remaining - n;
      if remaining == 0 {
        var more := Advance();
        if more {
          StartNull(queue);
        }
        if more && access == NullPtr {
          EndReached(flags, queue);
          flags := Xor(flags, {EOS, DONE});
        }
      } else {
        access := At(access.data, access.offset + n);
      }
    }

    /** Empties the port; every queued message is answered with zero length. */
    method Purge()
      requires CREATED in flags ==> BufferShape() && Accounted(received, answered, queue)
      modifies this
      ensures CREATED !in old(flags) ==> unchanged(this)
      ensures CREATED in old(flags) ==>
        && Valid() && queue == [] && filled == 0 && answered == old(answered) + Okay(old(queue))
        && flags == old(flags) - {CREATED, ENABLED, EOS, DONE, PURGING} + {ENABLED, CREATED}
        && buffer == old(buffer) && length == old(length) && received == old(received)
        && consumed == old(consumed) && accepted == consumed
        && multiset(received) == multiset(ResponseIds(answered))
    {
      hide StreamState, HeadState, Pending, Concat, Accounted, Okay, Xor, ResponseIds, Ids;
      if CREATED !in flags {
        return;
      }
      AnswerAll();
      filled, access := 0, NullPtr;
      flags := flags - {CREATED, ENABLED, EOS, DONE, PURGING} + {ENABLED, CREATED};
      accepted := consumed;
      EmptyPort(flags, remaining, received, answered, queue);
    }

    /** The loop of Purge: answers the queue from its head. */
    method AnswerAll()
      requires Accounted(received, answered, queue)
      modifies `queue, `answered
      ensures queue == [] && answered == old(answered) + Okay(old(queue))
      ensures Accounted(received, answered, queue)
    {
      hide *;
      ghost var all, j: nat := queue, 0;
      OkayNone(all);
      while queue != []
        invariant j <= |all| && queue == all[j..] && answered == old(answered) + Okay(all[..j])
        invariant Accounted(received, answered, queue)
        decreases |queue|
      {
        AccountedAnswered(received, answered, queue, Response(queue[0].id, 0));
        OkayMore(all, j);
        var m := queue[0];
        queue := queue[1..];
        answered := answered + [Response(m.id, 0)];
        j := j + 1;
      }
      assert all[..j] == all;
    }

    /** Saves a flow-control message until the purge that it asked for has propagated. */
    method ControlSave(m: Message)
      requires Valid() && queue == [] && filled == 0
      modifies this
      ensures ValidPurging() && queue == [m] && buffer == old(buffer) && length == old(length)
      ensures flags == old(flags) + {PURGING} && answered == old(answered) && received == old(received) + [m.id]
    {
      AccountedQueued(received, answered, queue, m);
      queue := queue + [m];
      received := received + [m.id];
      assert Xor(Xor(flags, {PURGING}), {PURGING}) == flags;
      flags := Xor(flags, {PURGING});
      accepted := consumed;
    }

    /** The purge has propagated: the saved message is answered. */
    method PurgeDone()
      requires ValidPurging()
      modifies this
      ensures Valid() && queue == [] && buffer == old(buffer) && length == old(length)
      ensures flags == old(flags) - {PURGING} && received == old(received)
      ensures answered == old(answered) + [Response(old(queue)[0].id, 0)]
    {
      AccountedAnswered(received, answered, queue, Response(queue[0].id, 0));
      answered := answered + [Response(queue[0].id, 0)];
      queue := queue[1..];
      flags := Xor(flags, {PURGING});
    }

    /** Destroys the port; tells whether an internal buffer is to be released. */
    method Destroy() returns (release: bool)
      modifies this
      ensures flags == {} || flags == old(flags)
      ensures CREATED in old(flags) ==> flags == {} && buffer == null && (release <==> old(buffer) != null)
      ensures CREATED !in old(flags) ==> unchanged(this) && !release
    {
      if CREATED !in flags {
        return false;
      }
      release := buffer != null;
      buffer := null;
      flags := {};
    }
  }

  /** Moves the k bytes at n to the front of a buffer, in ascending order, so that source and
      target may overlap. */
  method MoveDown(buffer: array<byte>, n: nat, k: nat)
    requires n + k <= buffer.Length
    modifies buffer
    ensures buffer[..k] == old(buffer[n..n + k])
  {
    var i := 0;
    while i < k
      invariant 0 <= i <= k
      invariant forall x :: 0 <= x < i ==> buffer[x] == old(buffer[n + x])
      invariant forall x :: i <= x < buffer.Length ==> buffer[x] == old(buffer[x])
    {
      buffer[i] := buffer[n + i];
      i := i + 1;
    }
  }

  lemma EmptyPort(flags: set<Flag>, remaining: nat, received: seq<nat>, answered: seq<Response>, q: seq<Message>)
    requires q == [] && Accounted(received, answered, q)
    requires CREATED in flags && ENABLED in flags && EOS !in flags && DONE !in flags
    ensures StreamState(flags, q) && HeadState(q, NullPtr, remaining) && Pending(q, remaining) == []
    ensures multiset(received) == multiset(ResponseIds(answered))
  {
  }

  /** If no id is put twice, none is answered twice, nor both answered and queued. */
  lemma AnsweredOnce(received: seq<nat>, answered: seq<Response>, q: seq<Message>, id: nat)
    requires Accounted(received, answered, q) && multiset(received)[id] <= 1
    ensures multiset(ResponseIds(answered))[id] + multiset(Ids(q))[id] == multiset(received)[id] <= 1
  {
  }

  lemma OkayNone(q: seq<Message>)
    ensures Okay(q[..0]) == [] && q == q[0..]
  {
  }

  lemma OkayMore(all: seq<Message>, j: nat)
    requires j < |all|
    ensures all[j..][1..] == all[j + 1..] && all[j..][0] == all[j]
    ensures Okay(all[..j]) + [Response(all[j].id, 0)] == Okay(all[..j + 1])
  {
  }

  lemma CompletedOne(q: seq<Message>)
    requires q != []
    ensures Completed(q[..1]) == [Response(q[0].id, |q[0].data|)]
  {
  }

  lemma ReadNothing(q: seq<Message>, access: Access, remaining: nat)
    requires HeadState(q, access, remaining) && access.At?
    ensures Pending(q, remaining)[0..] == Pending(q, remaining)
    ensures HeadState(q, At(access.data, access.offset + 0), remaining - 0)
  {
  }

  lemma HeadOpen(flags: set<Flag>, q: seq<Message>)
    requires StreamState(flags, q) && q != [] && q[0].data != []
    ensures DONE !in flags
  {
  }

  lemma StartNull(q: seq<Message>)
    requires q != []
    ensures Start(q) == NullPtr <==> q[0].data == []
  {
  }

  lemma Shift(a: seq<byte>, b: seq<byte>, c: seq<byte>, k: nat)
    requires k <= |b|
    ensures a + b + c == (a + b[..k]) + b[k..] + c
  {
    assert b == b[..k] + b[k..];
  }

  lemma Assoc3(a: seq<byte>, b: seq<byte>, data: seq<byte>, k: nat)
    requires k <= |data|
    ensures a + b + data == a + (b + data[..k]) + data[k..]
  {
    assert data == data[..k] + data[k..];
  }

  lemma EmptyIsOpen(flags: set<Flag>, q: seq<Message>)
    requires StreamState(flags, q) && q == []
    ensures EOS !in flags && DONE !in flags
  {
  }
}
