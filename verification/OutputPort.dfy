/**
 The output port: it owns a pool of messages and their buffers while it is routed, sends
 filled buffers to the sink, and keeps the flags of the flush and unroute handshake.
 */
module OutputPort {
  import opened Blocks
  import opened FlagWords
  import opened MemPool
  import opened MemRuns
  import opened Pointers

  datatype Opcode = Unregister | EmptyThisBuffer | FillThisBuffer | Flush

  datatype Flag = CREATED | ROUTED | ENABLED | DONE | FLUSHING | IDLE | UNROUTING | Custom(bit: nat)

  // Index of the flow-control message in the pool of a routed port.
  const CONTROL: nat := 0

  // Size of one message of a pool: a cache line.
  const MESSAGE: nat := 64

  // Size of a pool of k messages, rounded up to the allocation unit.
  function PoolBytes(k: nat): nat { (MESSAGE * k + UNIT - 1) / UNIT * UNIT }

  // ------------------------------------------------- state of the handshake

  /** The queue of the port (pool indices while it is routed), the saved unroute message and
      the flags. */
  datatype PortState = PortState(queue: seq<nat>, unroute: nat, flags: set<Flag>)

  // A message handed to completion: pool index, opcode and length.
  datatype Sent = Sent(item: nat, opcode: Opcode, length: nat)

  /** The messages 1..n in order. */
  function Items(n: nat): (s: seq<nat>)
    ensures |s| == n && forall i :: 0 <= i < n ==> s[i] == i + 1
  {
    seq(n, i requires 0 <= i < n => i + 1)
  }

  function AfterRoute(p: PortState, n: nat): PortState {
    p.(queue := p.queue + Items(n), flags := p.flags + {ROUTED, IDLE})
  }

  function AfterUnroute(p: PortState): PortState {
    p.(queue := [], flags := {CREATED})
  }

  function AfterProduce(p: PortState): PortState
    requires p.queue != []
  {
    p.(queue := p.queue[1..], flags := p.flags - {IDLE})
  }

  /** Whether a flush is satisfied at once. */
  predicate FlushedAtOnce(p: PortState) { ROUTED !in p.flags || IDLE in p.flags }

  /** Whether a flush has to send the control message. */
  predicate FlushSends(p: PortState) { !FlushedAtOnce(p) && FLUSHING !in p.flags }

  function AfterFlush(p: PortState): PortState {
    if ROUTED !in p.flags then p.(queue := [])
    else if FlushSends(p) then p.(flags := Xor(p.flags, {FLUSHING}))
    else p
  }

  function AfterFlushDone(p: PortState): PortState {
    p.(flags := Xor(p.flags, {IDLE, FLUSHING}))
  }

  function AfterUnrouteStart(p: PortState, m: nat): PortState {
    p.(unroute := m, flags := p.flags + {UNROUTING})
  }

  // ------------------------------------------------------------------ memory

  ghost predicate Consistent(mm: Pool, live: map<nat, nat>)
    reads mm
  {
    mm.Valid() && Inv(Heap(mm.blocks, live), mm.addr, mm.addr + mm.size)
  }

  /** Allocation, with the set of live blocks. */
  method Reserve(mm: Pool, size: nat, ghost live: map<nat, nat>) returns (p: nat, ghost live': map<nat, nat>)
    requires Consistent(mm, live) && Aligned(size) && 0 < size
    modifies mm
    ensures Consistent(mm, live') && mm.addr == old(mm.addr) && mm.size == old(mm.size)
    ensures p == NIL ==> live' == live
    ensures p != NIL ==> p !in live && live' == live[p := size]
  {
    hide AllocSpec, Inv, WellFormed, Indexed, Aligned;
    ghost var lo, hi := mm.addr, mm.addr + mm.size;
    ghost var h := Heap(mm.blocks, live);
    p := mm.Alloc(size);
    live' := if p == NIL then live else live[p := size];
    PoolWellFormed(mm);
    AllocKeeps(h, size, p, Heap(mm.blocks, live'), lo, hi);
    if p != NIL {
      AllocatedRange(h, size, p, Heap(mm.blocks, live'), lo, hi);
    }
  }

  lemma PoolWellFormed(mm: Pool)
    requires mm.Valid()
    ensures WellFormed(mm.blocks, mm.addr, mm.addr + mm.size)
  {
  }

  /** Release of a live block. */
  method Release(mm: Pool, p: nat, size: nat, ghost live: map<nat, nat>) returns (ghost live': map<nat, nat>)
    requires Consistent(mm, live) && p in live && live[p] == size
    modifies mm
    ensures Consistent(mm, live') && mm.addr == old(mm.addr) && mm.size == old(mm.size)
    ensures live' == live - {p}
  {
    ghost var lo, hi := mm.addr, mm.addr + mm.size;
    ghost var h := Heap(mm.blocks, live);
    LiveIsReleasable(h, p, lo, hi);
    hide FreeSpec, Inv, WellFormed, Indexed, Apart;
    mm.Free(p, size);
    PoolWellFormed(mm);
    live' := live - {p};
    FreeKeeps(h, p, Heap(mm.blocks, live'), lo, hi);
  }

  /** The live blocks after a pool and some buffers have been obtained. */
  ghost function With(live: map<nat, nat>, pool: nat, poolSize: nat, bufs: seq<nat>, len: nat): map<nat, nat> {
    live[pool := poolSize] + map b | b in bufs :: len
  }

  /** The blocks obtained are new and different. */
  ghost predicate NewBlocks(live: map<nat, nat>, pool: nat, bufs: seq<nat>) {
    && pool !in live && pool !in bufs
    && (forall i :: 0 <= i < |bufs| ==> bufs[i] !in live)
    && (forall i, j :: 0 <= i < j < |bufs| ==> bufs[i] != bufs[j])
  }

  lemma OneMore(live: map<nat, nat>, pool: nat, poolSize: nat, bufs: seq<nat>, len: nat, b: nat)
    requires NewBlocks(live, pool, bufs) && b !in With(live, pool, poolSize, bufs, len)
    ensures NewBlocks(live, pool, bufs + [b])
    ensures With(live, pool, poolSize, bufs, len)[b := len] == With(live, pool, poolSize, bufs + [b], len)
  {
    assert forall x :: x in bufs + [b] <==> x in bufs || x == b;
    WithMore(live, pool, poolSize, bufs, bufs + [b], len, b);
    hide With;
  }

  /** One more buffer in the set of live blocks. */
  lemma WithMore(live: map<nat, nat>, pool: nat, poolSize: nat, bufs: seq<nat>, more: seq<nat>, len: nat, b: nat)
    requires forall x :: x in more <==> x in bufs || x == b
    ensures With(live, pool, poolSize, more, len) == With(live, pool, poolSize, bufs, len)[b := len]
    ensures b !in live && b !in bufs && b != pool ==>
      With(live, pool, poolSize, more, len) - {b} == With(live, pool, poolSize, bufs, len)
  {
    hide NewBlocks;
  }

  lemma OneLess(live: map<nat, nat>, pool: nat, poolSize: nat, bufs: seq<nat>, len: nat)
    requires NewBlocks(live, pool, bufs) && bufs != []
    ensures var k := |bufs| - 1;
            && NewBlocks(live, pool, bufs[..k])
            && bufs[k] in With(live, pool, poolSize, bufs, len) && With(live, pool, poolSize, bufs, len)[bufs[k]] == len
            && With(live, pool, poolSize, bufs, len) - {bufs[k]} == With(live, pool, poolSize, bufs[..k], len)
  {
    var k := |bufs| - 1;
    assert bufs == bufs[..k] + [bufs[k]];
    assert forall x :: x in bufs <==> x in bufs[..k] || x == bufs[k];
    WithMore(live, pool, poolSize, bufs[..k], bufs, len, bufs[k]);
    hide With;
  }

  lemma PoolOnly(live: map<nat, nat>, pool: nat, poolSize: nat, len: nat)
    requires pool !in live
    ensures With(live, pool, poolSize, [], len) == live[pool := poolSize]
    ensures With(live, pool, poolSize, [], len) - {pool} == live
    ensures NewBlocks(live, pool, [])
  {
  }

  /** Frees the buffers of a pool, last first, and then the pool. */
  method Cleanup(mm: Pool, poolAddr: nat, poolSize: nat, bufs: seq<nat>, len: nat,
                 ghost live: map<nat, nat>, ghost now: map<nat, nat>)
    returns (ghost live': map<nat, nat>)
    requires NewBlocks(live, poolAddr, bufs) && now == With(live, poolAddr, poolSize, bufs, len)
    requires Consistent(mm, now)
    modifies mm
    ensures Consistent(mm, live') && mm.addr == old(mm.addr) && mm.size == old(mm.size)
    ensures live' == live
  {
    hide *;
    var i := |bufs|;
    live' := now;
    assert bufs[..|bufs|] == bufs;
    while i > 0
      invariant 0 <= i <= |bufs| && NewBlocks(live, poolAddr, bufs[..i])
      invariant live' == With(live, poolAddr, poolSize, bufs[..i], len)
      invariant Consistent(mm, live') && mm.addr == old(mm.addr) && mm.size == old(mm.size)
    {
      OneLess(live, poolAddr, poolSize, bufs[..i], len);
      i := i - 1;
      assert bufs[..i + 1][..i] == bufs[..i] && bufs[..i + 1][i] == bufs[i];
      live' := Release(mm, bufs[i], len, live');
    }
    assert bufs[..0] == [];
    PoolIsNew(live, poolAddr, bufs[..0]);
    PoolOnly(live, poolAddr, poolSize, len);
    assert live'[poolAddr] == poolSize;
    live' := Release(mm, poolAddr, poolSize, live');
  }

  lemma PoolIsNew(live: map<nat, nat>, pool: nat, bufs: seq<nat>)
    requires NewBlocks(live, pool, bufs)
    ensures pool !in live
  {
  }

  // ----------------------------------------------------------------- the port

  datatype Item = Item(buffer: nat, opcode: Opcode, length: nat)

  class Port {
    var queue: seq<nat>
    var items: seq<Item>      // the message pool of a routed port
    var poolAddr: nat
    var unroute: nat
    var length: nat
    var flags: set<Flag>
    var sent: seq<Sent>       // messages completed so far

    function State(): PortState
      reads this
    {
      PortState(queue, unroute, flags)
    }

    constructor (size: nat)
      ensures State() == PortState([], NIL, {CREATED}) && length == size && sent == []
    {
      queue, items, poolAddr, unroute, sent := [], [], NIL, NIL, [];
      length := size;
      flags := {CREATED};
    }

    /** Routes the port: allocates a pool of n + 1 messages and n buffers and queues the n data
        messages.  When any allocation fails, everything obtained is released again, but the first
        messages of the released pool, as many as there were buffers, stay in the queue. */
    method Route(mm: Pool, n: nat, length: nat, ghost live: map<nat, nat>)
      returns (ok: bool, ghost live': map<nat, nat>, ghost queued: nat)
      requires Consistent(mm, live) && Aligned(length) && 0 < length
      modifies this, mm
      ensures Consistent(mm, live') && mm.addr == old(mm.addr) && mm.size == old(mm.size)
      ensures !ok ==> live' == live && mm.blocks == old(mm.blocks)
      ensures !ok ==> flags == old(flags) && unroute == old(unroute) && this.length == old(this.length)
      ensures !ok ==> queued <= n && (queued < n || n == 0) && queue == old(queue) + Items(queued)
      ensures ok ==> State() == AfterRoute(old(State()), n) && this.length == length
      ensures ok ==> |items| == n + 1 && NewBlocks(live, poolAddr, Buffers(items))
      ensures ok ==> live' == With(live, poolAddr, PoolBytes(n + 1), Buffers(items), length)
      ensures ok ==> Queued(items, length)
      ensures sent == old(sent)
    {
      hide Consistent, With, NewBlocks, PoolBytes, Inv, Items, Buffers, Aligned, Queued;
      ConsistentInv(mm, live);
      ghost var q0, blocks0 := queue, mm.blocks;
      PoolBytesAligned(n + 1);
      ItemsNone(q0);
      var addr;
      addr, live' := Reserve(mm, PoolBytes(n + 1), live);
      if addr == NIL {
        SameFreeSet(mm, blocks0, live);
        return false, live', 0;
      }
      poolAddr := addr;
      items := [Item(NIL, FillThisBuffer, 0)];
      NoBuffers(items[0], length);
      PoolOnly(live, addr, PoolBytes(n + 1), length);
      var i := 1;
      while i <= n
        invariant 1 <= i <= n + 1 && |items| == i && poolAddr == addr
        invariant NewBlocks(live, addr, Buffers(items))
        invariant live' == With(live, addr, PoolBytes(n + 1), Buffers(items), length)
        invariant Consistent(mm, live') && mm.addr == old(mm.addr) && mm.size == old(mm.size)
        invariant queue == q0 + Items(i - 1) && flags == old(flags) && unroute == old(unroute) && sent == old(sent)
        invariant this.length == old(this.length)
        invariant Queued(items, length)
      {
        var b;
        ghost var before := live';
        b, live' := Reserve(mm, length, live');
        if b == NIL {
          live' := Cleanup(mm, addr, PoolBytes(n + 1), Buffers(items), length, live, live');
          SameFreeSet(mm, blocks0, live);
          return false, live', i - 1;
        }
        OneMore(live, addr, PoolBytes(n + 1), Buffers(items), length, b);
        BuffersMore(items, Item(b, FillThisBuffer, length));
        QueuedMore(items, b, length);
        ItemsMore(q0, i);
        items := items + [Item(b, FillThisBuffer, length)];
        queue := queue + [i];
        i := i + 1;
      }
      this.length := length;
      flags := flags + {ROUTED, IDLE};
      return true, live', n;
    }

    /** Unroutes the port: releases all buffers and the message pool. */
    method Unroute(mm: Pool, ghost base: map<nat, nat>) returns (ghost live': map<nat, nat>)
      requires items != [] && NewBlocks(base, poolAddr, Buffers(items))
      requires Consistent(mm, With(base, poolAddr, PoolBytes(|items|), Buffers(items), length))
      modifies this, mm
      ensures Consistent(mm, live') && live' == base && mm.addr == old(mm.addr) && mm.size == old(mm.size)
      ensures State() == AfterUnroute(old(State())) && length == old(length) && sent == old(sent)
      ensures items == old(items) && poolAddr == old(poolAddr)
    {
      hide Consistent, With, NewBlocks, PoolBytes, Inv;
      var i := 1;
      var bufs := Buffers(items);
      live' := With(base, poolAddr, PoolBytes(|items|), bufs, length);
      assert bufs[0..] == bufs;
      while i < |items|
        invariant 1 <= i <= |items| && NewBlocks(base, poolAddr, bufs[i - 1..])
        invariant live' == With(base, poolAddr, PoolBytes(|items|), bufs[i - 1..], length)
        invariant Consistent(mm, live') && mm.addr == old(mm.addr) && mm.size == old(mm.size)
        modifies mm
      {
        FirstLess(base, poolAddr, PoolBytes(|items|), bufs[i - 1..], length);
        assert bufs[i - 1..][1..] == bufs[i..] && bufs[i - 1..][0] == bufs[i - 1] == items[i].buffer;
        live' := Release(mm, items[i].buffer, length, live');
        i := i + 1;
      }
      assert bufs[i - 1..] == [];
      PoolIsNew(base, poolAddr, []);
      PoolOnly(base, poolAddr, PoolBytes(|items|), length);
      assert live'[poolAddr] == PoolBytes(|items|);
      live' := Release(mm, poolAddr, PoolBytes(|items|), live');
      flags := {CREATED};
      queue := [];
    }

    /** Starts an unrouting sequence. */
    method UnrouteStart(m: nat)
      requires ROUTED in flags
      modifies this
      ensures State() == AfterUnrouteStart(old(State()), m)
      ensures items == old(items) && poolAddr == old(poolAddr) && length == old(length) && sent == old(sent)
    {
      unroute := m;
      flags := flags + {UNROUTING};
    }

    /** Completes the unrouting sequence; returns the saved message, which is answered. */
    method UnrouteDone(mm: Pool, ghost base: map<nat, nat>) returns (m: nat, ghost live': map<nat, nat>)
      requires UNROUTING in flags
      requires items != [] && NewBlocks(base, poolAddr, Buffers(items))
      requires Consistent(mm, With(base, poolAddr, PoolBytes(|items|), Buffers(items), length))
      modifies this, mm
      ensures Consistent(mm, live') && live' == base && mm.addr == old(mm.addr) && mm.size == old(mm.size)
      ensures m == old(unroute) && State() == AfterUnroute(old(State())).(unroute := NIL) && sent == old(sent)
    {
      hide Consistent, With, NewBlocks, PoolBytes;
      m := unroute;
      unroute := NIL;
      live' := Unroute(mm, base);
    }

    /** Queues a message; true when it is the first one. */
    method Put(m: nat) returns (first: bool)
      modifies `queue
      ensures State() == old(State()).(queue := old(queue) + [m]) && (first <==> old(queue) == [])
    {
      first := queue == [];
      queue := queue + [m];
    }

    /** Sends the first message with n bytes; true when another one is available. */
    method Produce(n: nat) returns (more: bool)
      requires queue != [] && UNROUTING !in flags
      modifies `queue, `flags, `sent
      ensures State() == AfterProduce(old(State())) && (more <==> queue != [])
      ensures sent == old(sent) + [Sent(old(queue)[0], FillThisBuffer, n)]
    {
      var m := queue[0];
      queue := queue[1..];
      sent := sent + [Sent(m, FillThisBuffer, n)];
      flags := flags - {IDLE};
      return queue != [];
    }

    /** Flushes the port: at once when it is idle or not routed (then all queued messages are
        answered), else by sending the control message, once. */
    method FlushPort(opcode: Opcode) returns (done: bool)
      requires ROUTED in flags ==> items != []
      modifies `queue, `flags, `sent, `items
      ensures State() == AfterFlush(old(State())) && (done <==> FlushedAtOnce(old(State())))
      ensures sent == old(sent) + (if ROUTED !in old(flags) then Answers(old(queue))
                                   else if FlushSends(old(State()))
                                   then [Sent(CONTROL, opcode, old(items)[CONTROL].length)]
                                   else [])
      ensures items == if FlushSends(old(State()))
                       then old(items)[CONTROL := old(items)[CONTROL].(opcode := opcode)] else old(items)
    {
      if ROUTED in flags {
        if IDLE in flags {
          return true;
        }
        if FLUSHING !in flags {
          flags := Xor(flags, {FLUSHING});
          items := items[CONTROL := items[CONTROL].(opcode := opcode)];
          sent := sent + [Sent(CONTROL, opcode, items[CONTROL].length)];
        }
        return false;
      }
      ghost var q, sent0 := queue, sent;
      assert q[0..] == q && Answers(q[..0]) == [];
      ghost var j := 0;
      while queue != []
        invariant 0 <= j <= |q| && queue == q[j..] && sent == sent0 + Answers(q[..j])
        modifies `queue, `sent
        decreases |queue|
      {
        assert Answers(q[..j]) + [Sent(q[j], FillThisBuffer, 0)] == Answers(q[..j + 1]);
        sent := sent + [Sent(queue[0], FillThisBuffer, 0)];
        queue := queue[1..];
        j := j + 1;
      }
      assert q[..j] == q;
      return true;
    }

    /** The flush sequence is over: a port that was not idle becomes idle.  (An idle port would stop
        being idle; `HandshakeRuns.FlushEndsIdle` says that a flush never ends at one.) */
    method FlushDone()
      requires FLUSHING in flags
      modifies `flags
      ensures FLUSHING !in flags && (IDLE in flags <==> IDLE !in old(flags))
      ensures flags - {IDLE} == old(flags) - {FLUSHING, IDLE}
      ensures State() == AfterFlushDone(old(State()))
    {
      flags := Xor(flags, {IDLE, FLUSHING});
    }

    /** Destroys the port, unrouting it when it is routed. */
    method Destroy(mm: Pool, ghost live: map<nat, nat>, ghost base: map<nat, nat>) returns (ghost live': map<nat, nat>)
      requires ROUTED in flags ==>
        && IDLE in flags && items != [] && NewBlocks(base, poolAddr, Buffers(items))
        && live == With(base, poolAddr, PoolBytes(|items|), Buffers(items), length)
      requires Consistent(mm, live)
      modifies this, mm
      ensures Consistent(mm, live') && live' == (if ROUTED in old(flags) then base else live)
      ensures flags == {} && (ROUTED in old(flags) ==> queue == [])
    {
      hide Consistent, With, NewBlocks, PoolBytes;
      live' := live;
      if ROUTED in flags {
        live' := Unroute(mm, base);
      }
      flags := {};
    }
  }

  function Answers(q: seq<nat>): seq<Sent> {
    seq(|q|, i requires 0 <= i < |q| => Sent(q[i], FillThisBuffer, 0))
  }

  /** The buffers of the data messages of a pool. */
  function Buffers(items: seq<Item>): (s: seq<nat>)
    ensures items != [] ==> |s| == |items| - 1 && forall i :: 0 <= i < |s| ==> s[i] == items[i + 1].buffer
  {
    if items == [] then [] else seq(|items| - 1, i requires 0 <= i < |items| - 1 => items[i + 1].buffer)
  }

  /** The data messages of a pool are buffers to be filled. */
  ghost predicate Queued(items: seq<Item>, length: nat) {
    forall k :: 0 < k < |items| ==> items[k].length == length && items[k].opcode == FillThisBuffer
  }

  lemma NoBuffers(control: Item, length: nat)
    ensures Buffers([control]) == [] && Queued([control], length)
  {
  }

  lemma QueuedMore(items: seq<Item>, b: nat, length: nat)
    requires Queued(items, length)
    ensures Queued(items + [Item(b, FillThisBuffer, length)], length)
  {
  }

  lemma BuffersMore(items: seq<Item>, item: Item)
    requires items != []
    ensures Buffers(items + [item]) == Buffers(items) + [item.buffer]
  {
  }

  lemma ItemsNone(q: seq<nat>)
    ensures q + Items(0) == q
  {
  }

  lemma ItemsMore(q: seq<nat>, i: nat)
    requires 0 < i
    ensures q + Items(i - 1) + [i] == q + Items(i)
  {
    assert Items(i - 1) + [i] == Items(i);
  }

  lemma PoolBytesAligned(k: nat)
    requires 0 < k
    ensures Aligned(PoolBytes(k)) && 0 < PoolBytes(k)
  {
    assert MESSAGE * k == (2 * k) * UNIT;
  }

  lemma FirstLess(live: map<nat, nat>, pool: nat, poolSize: nat, bufs: seq<nat>, len: nat)
    requires NewBlocks(live, pool, bufs) && bufs != []
    ensures NewBlocks(live, pool, bufs[1..])
    ensures bufs[0] in With(live, pool, poolSize, bufs, len) && With(live, pool, poolSize, bufs, len)[bufs[0]] == len
    ensures With(live, pool, poolSize, bufs, len) - {bufs[0]} == With(live, pool, poolSize, bufs[1..], len)
  {
    assert bufs == [bufs[0]] + bufs[1..];
    assert forall x :: x in bufs <==> x in bufs[1..] || x == bufs[0];
    WithMore(live, pool, poolSize, bufs[1..], bufs, len, bufs[0]);
    hide With;
  }

  lemma ConsistentInv(mm: Pool, live: map<nat, nat>)
    requires Consistent(mm, live)
    ensures Inv(Heap(mm.blocks, live), mm.addr, mm.addr + mm.size)
  {
  }

  /** With the same live blocks, the free blocks are the same. */
  lemma SameFreeSet(mm: Pool, blocks0: map<nat, nat>, live: map<nat, nat>)
    requires Consistent(mm, live) && Inv(Heap(blocks0, live), mm.addr, mm.addr + mm.size)
    ensures mm.blocks == blocks0
  {
    FreeSetDependsOnLive(Heap(mm.blocks, live), Heap(blocks0, live), mm.addr, mm.addr + mm.size);
  }

  // ----------------------------------------------------------- a failed route

  /** After a route that fails, the next flush of the port, which is not routed, answers with the
      messages that were queued for it: they lie in the pool that was released. */
  method FailedRoute(port: Port, mm: Pool, n: nat, length: nat, op: Opcode, ghost live: map<nat, nat>)
    returns (ok: bool, ghost queued: nat)
    requires Consistent(mm, live) && Aligned(length) && 0 < length && ROUTED !in port.flags
    modifies port, mm
    ensures !ok ==> mm.blocks == old(mm.blocks) && queued <= n && (queued < n || n == 0)
    ensures !ok ==> port.sent == old(port.sent) + Answers(old(port.queue) + Items(queued)) && port.queue == []
  {
    hide Consistent, Aligned, With, NewBlocks, PoolBytes, Items, Answers, Buffers, Queued;
    ghost var live';
    ok, live', queued := port.Route(mm, n, length, live);
    if !ok {
      var done := port.FlushPort(op);
    }
  }

  // ---------------------------------------------------------- memory balance

  // What the unroute function releases: a block at addr.
  datatype Block = Block(addr: nat, size: nat)

  /** The live blocks after some releases, unless one of them is of a block that is not live. */
  datatype Outcome = Left(live: map<nat, nat>) | ReleasedTwice

  /** The releases of the unroute function, in order: the buffers of the pool that the port has or
      has had, then the pool. */
  function ReleaseList(poolAddr: nat, items: seq<Item>, length: nat): seq<Block> {
    var bufs := Buffers(items);
    seq(|bufs|, i requires 0 <= i < |bufs| => Block(bufs[i], length)) + [Block(poolAddr, PoolBytes(|items|))]
  }

  function Released(live: map<nat, nat>, blocks: seq<Block>): Outcome
    decreases |blocks|
  {
    if blocks == [] then Left(live)
    else if blocks[0].addr in live && live[blocks[0].addr] == blocks[0].size
    then Released(live - {blocks[0].addr}, blocks[1..])
    else ReleasedTwice
  }

  /** What a port holds beyond the blocks of the others: its pool and buffers while it is routed. */
  ghost predicate Holds(routed: bool, poolAddr: nat, items: seq<Item>, length: nat, live: map<nat, nat>,
                        others: map<nat, nat>) {
    if routed then
      items != [] && NewBlocks(others, poolAddr, Buffers(items))
      && live == With(others, poolAddr, PoolBytes(|items|), Buffers(items), length)
    else live == others
  }

  lemma {:induction false} ReleasesOwn(others: map<nat, nat>, pool: nat, poolSize: nat, bufs: seq<nat>, len: nat,
                                       blocks: seq<Block>)
    requires NewBlocks(others, pool, bufs)
    requires |blocks| == |bufs| + 1 && blocks[|bufs|] == Block(pool, poolSize)
    requires forall i :: 0 <= i < |bufs| ==> blocks[i] == Block(bufs[i], len)
    ensures Released(With(others, pool, poolSize, bufs, len), blocks) == Left(others)
    decreases |bufs|
  {
    var live := With(others, pool, poolSize, bufs, len);
    if bufs == [] {
      PoolOnly(others, pool, poolSize, len);
      assert blocks[1..] == [];
    } else {
      FirstLess(others, pool, poolSize, bufs, len);
      hide With, NewBlocks;
      ReleasesOwn(others, pool, poolSize, bufs[1..], len, blocks[1..]);
    }
  }

  /** Releases only take live blocks away, and every block released is gone. */
  lemma {:induction false} ReleasedTakes(live: map<nat, nat>, blocks: seq<Block>)
    requires Released(live, blocks).Left?
    ensures Released(live, blocks).live.Keys <= live.Keys
    ensures forall i :: 0 <= i < |blocks| ==> blocks[i].addr in live && blocks[i].addr !in Released(live, blocks).live
    decreases |blocks|
  {
    if blocks != [] {
      ReleasedTakes(live - {blocks[0].addr}, blocks[1..]);
      forall i | 0 <= i < |blocks|
        ensures blocks[i].addr in live && blocks[i].addr !in Released(live, blocks).live
      {
        if i > 0 {
          assert blocks[i] == blocks[1..][i - 1];
        }
      }
    }
  }

  /** The unroute function, which the unroute command calls whenever no flush is needed, leaves
      exactly the blocks of the others if and only if the port is routed: else it releases blocks
      that the port does not hold. */
  lemma UnrouteRestoresExactly(routed: bool, poolAddr: nat, items: seq<Item>, length: nat, live: map<nat, nat>,
                               others: map<nat, nat>)
    requires Holds(routed, poolAddr, items, length, live, others)
    ensures Released(live, ReleaseList(poolAddr, items, length)) == Left(others) <==> routed
  {
    var blocks := ReleaseList(poolAddr, items, length);
    assert blocks[|blocks| - 1] == Block(poolAddr, PoolBytes(|items|));
    if routed {
      ReleasesOwn(others, poolAddr, PoolBytes(|items|), Buffers(items), length, blocks);
    } else if Released(live, blocks) == Left(others) {
      ReleasedTakes(live, blocks);
    }
  }

  datatype UnrouteResult = Unrouted | Waiting | Broken

  /** The unroute command m: a port without messages under way is unrouted at once; a busy one
      saves the command and flushes.  Nothing is tested: on a port that is not routed it would
      release what others may hold, and nothing is claimed of the allocator (`Broken`). */
  method UnroutePort(port: Port, mm: Pool, m: nat, ghost live: map<nat, nat>, ghost others: map<nat, nat>)
    returns (r: UnrouteResult, ghost live': map<nat, nat>)
    requires Holds(ROUTED in port.flags, port.poolAddr, port.items, port.length, live, others)
    requires Consistent(mm, live)
    modifies port, mm
    ensures r == Broken <==> ROUTED !in old(port.flags)
    ensures r == Unrouted <==> ROUTED in old(port.flags) && IDLE in old(port.flags)
    ensures r == Unrouted ==>
      Consistent(mm, live') && live' == others && port.State() == AfterUnroute(old(port.State()))
    ensures r == Waiting ==> live' == live && mm.blocks == old(mm.blocks)
    ensures r == Waiting ==> port.State() == AfterUnrouteStart(AfterFlush(old(port.State())), m)
  {
    hide Consistent, With, NewBlocks, PoolBytes;
    live' := live;
    var routed := ROUTED in port.flags;
    var done := port.FlushPort(Flush);
    if !routed {
      return Broken, live';
    }
    if done {
      live' := port.Unroute(mm, others);
      return Unrouted, live';
    }
    port.UnrouteStart(m);
    return Waiting, live';
  }

  /** The second of two unroute commands, with no allocation in between: already the first block it
      releases is no longer live. */
  lemma SecondUnroute(poolAddr: nat, items: seq<Item>, length: nat, live: map<nat, nat>, others: map<nat, nat>)
    requires Holds(true, poolAddr, items, length, live, others)
    ensures var blocks := ReleaseList(poolAddr, items, length);
            && Released(live, blocks) == Left(others)
            && blocks[0].addr !in others && Released(others, blocks) == ReleasedTwice
  {
    UnrouteRestoresExactly(true, poolAddr, items, length, live, others);
    assert ReleaseList(poolAddr, items, length)[0].addr == (if |items| == 1 then poolAddr else Buffers(items)[0]);
  }

  /** Routing and then unrouting, with no other allocation in between, restores the allocator. */
  method RouteAndUnroute(port: Port, mm: Pool, n: nat, length: nat, ghost live: map<nat, nat>)
    requires Consistent(mm, live) && Aligned(length) && 0 < length
    modifies port, mm
    ensures mm.blocks == old(mm.blocks)
  {
    hide *;
    ghost var blocks0 := mm.blocks;
    ConsistentInv(mm, live);
    var ok;
    ghost var live', queued;
    ok, live', queued := port.Route(mm, n, length, live);
    if ok {
      live' := port.Unroute(mm, live);
      SameFreeSet(mm, blocks0, live);
    }
  }
}
