/**
 The dispatcher of a core: completion of messages, commands to the proxy, and delivery to the
 components, whose own code is an input of the model.
 */
module Core {
  import opened Clients
  import opened Messages
  import opened Shmem

  // ------------------------------------------------------------- identifiers

  const HALFWORD: nat := 0x1_0000
  const PROXY: nat := 0x8000

  /** A message id: the source and destination ports, 16 bits each. */
  function MakeId(src: nat, dst: nat): nat { src % HALFWORD + dst % HALFWORD * HALFWORD }

  function Src(id: nat): nat { id % HALFWORD }

  function Dst(id: nat): nat { id / HALFWORD % HALFWORD }

  /** A port: core in two bits, client id in six, port number in four, and the proxy bit. */
  function PortCore(port: nat): nat { port % 4 }

  function PortClient(port: nat): (c: nat)
    ensures c < CLIENTS
  {
    port / 4 % CLIENTS
  }

  predicate PortProxy(port: nat) { port / PROXY % 2 == 1 }

  function Swap(id: nat): nat { MakeId(Dst(id), Src(id)) }

  lemma SwapParts(id: nat)
    ensures Src(Swap(id)) == Dst(id) && Dst(Swap(id)) == Src(id)
  {
  }

  // ------------------------------------------------------------------ opcodes

  const UNREGISTER: nat := 0
  const EMPTY_THIS_BUFFER: nat := 0x8000_0008
  const FILL_THIS_BUFFER: nat := 0x4000_0009

  // Command types of the proxy.
  const REGISTER: nat := 1
  const ALLOC: nat := 4
  const FREE: nat := 5
  const FILL: nat := 9
  const FLUSH: nat := 10

  // Number of entries of the proxy's command table.
  const COMMANDS: nat := 11

  function Type(opcode: nat): nat { opcode % 64 }

  /** The entries of the command table that hold no function. */
  predicate Hole(t: nat) { t < COMMANDS && t != REGISTER && t != ALLOC && t != FREE && t != FILL && t != FLUSH }

  /** Inside the core an emptied buffer comes back to be filled, and a filled one to be emptied. */
  function Returned(opcode: nat): nat {
    if opcode == EMPTY_THIS_BUFFER then FILL_THIS_BUFFER
    else if opcode == FILL_THIS_BUFFER then EMPTY_THIS_BUFFER
    else opcode
  }

  /** A completed message: addressed back to its sender. */
  function Answer(b: Record): Record {
    b.(id := Swap(b.id), opcode := if PortProxy(Src(b.id)) then b.opcode else Returned(b.opcode))
  }

  /** A message sent back and forth is addressed as at first. */
  lemma AnswerTwice(b: Record)
    requires b.id < HALFWORD * HALFWORD && !PortProxy(Src(b.id)) && !PortProxy(Dst(b.id))
    ensures Answer(Answer(b)) == b
  {
    SwapParts(b.id);
    assert b.id == MakeId(Src(b.id), Dst(b.id));
  }

  function Failure(b: Record): Record { b.(opcode := UNREGISTER, length := 0) }

  // A message completed by a component, with its parameters at that time.
  datatype Reply = Reply(m: Message, body: Record)

  // What the platform contributes to a proxy command: the component the factory built (0 if none),
  // whether there is shared memory, and the buffer the allocator found.
  datatype Platform = Platform(component: nat, enabled: bool, buffer: nat)

  /** The messages of some replies. */
  function Senders(replies: seq<Reply>): set<Message> { set r | r in replies :: r.m }

  ghost predicate DistinctReplies(replies: seq<Reply>) {
    forall i, j :: 0 <= i < j < |replies| ==> replies[i].m != replies[j].m
  }

  lemma SendersMore(replies: seq<Reply>, i: nat)
    requires i < |replies| && DistinctReplies(replies)
    ensures Senders(replies[..i + 1]) == Senders(replies[..i]) + {replies[i].m}
    ensures replies[i].m !in Senders(replies[..i])
  {
    assert replies[..i + 1] == replies[..i] + [replies[i]];
  }

  lemma SendersEnds(replies: seq<Reply>)
    ensures Senders(replies[..0]) == {} && Senders(replies[..|replies|]) == Senders(replies)
  {
    assert replies[..|replies|] == replies;
  }

  lemma InSenders(replies: seq<Reply>)
    ensures forall i :: 0 <= i < |replies| ==> replies[i].m in Senders(replies)
  {
  }

  /** Whether the proxy refuses a command without trying. */
  predicate Refused(t: nat, enabled: bool) {
    t >= COMMANDS || t == FILL || t == FLUSH || ((t == ALLOC || t == FREE) && !enabled)
  }

  /** The message joins the queue of its sender's side, and nothing else does. */
  ghost predicate SentBack(m: Message, remote: bool, queue0: seq<Message>, queue1: seq<Message>,
                           remote0: seq<Message>, remote1: seq<Message>) {
    if remote then remote1 == remote0 + [m] && queue1 == queue0
    else queue1 == queue0 + [m] && remote1 == remote0
  }

  class Core {
    const places: Places
    const clients: ClientMap

    ghost predicate Valid()
      reads this, clients, clients.cmap, places, places.pool, places.pool.items, places.queue, places.remote
      reads places.pool.list, places.queue.list, places.remote.list, places.held
    {
      places.Valid() && clients.Valid() && clients.pending == {}
    }

    constructor (p: Places)
      requires p.Valid()
      ensures Valid() && places == p && clients.Clients() == map[] && fresh(clients) && fresh(clients.cmap)
    {
      hide Places.Valid, ClientMap.Valid, ClientMap.Clients;
      places := p;
      clients := new ClientMap();
    }

    /** Whether a message may be completed: both ends are on this core, and only the pool's messages
        go to the remote proxy. */
    ghost predicate Answerable(m: Message, id: nat)
      reads this, places, places.pool, places.pool.items
    {
      && PortCore(Src(id)) == 0 && PortCore(Dst(id)) == 0
      && (PortProxy(Src(id)) ==> m in places.pool.items[..])
    }

    /** Sends a message back to its sender. */
    method Complete(m: Message)
      requires places.Valid() && m in places.held && Answerable(m, m.body.id)
      modifies places`held, places.queue, places.queue.list`next, places.remote, places.remote.list`next, m
      ensures places.Valid() && places.held == old(places.held) - {m} && m.body == old(Answer(m.body))
      ensures SentBack(m, PortProxy(Src(old(m.body.id))), old(places.queue.list), places.queue.list,
                       old(places.remote.list), places.remote.list)
    {
      hide Places.Valid;
      var b := m.body;
      SwapParts(b.id);
      var id := MakeId(Dst(b.id), Src(b.id));
      if PortProxy(Dst(id)) {
        places.Fill(m, b.(id := id));
        places.Respond(m);
      } else {
        places.Fill(m, b.(id := id, opcode := Returned(b.opcode)));
        places.Submit(m);
      }
    }

    /** Answers with a failure. */
    method ResponseErr(m: Message)
      requires places.Valid() && m in places.held && Answerable(m, m.body.id)
      modifies places`held, places.queue, places.queue.list`next, places.remote, places.remote.list`next, m
      ensures places.Valid() && places.held == old(places.held) - {m} && m.body == old(Answer(Failure(m.body)))
      ensures SentBack(m, PortProxy(Src(old(m.body.id))), old(places.queue.list), places.queue.list,
                       old(places.remote.list), places.remote.list)
    {
      hide Places.Valid, Answer, SentBack;
      places.Fill(m, Failure(m.body));
      Complete(m);
    }

    /** Registers a client: the answer's source is the new component. */
    method ProxyRegister(m: Message, component: nat) returns (ok: bool)
      requires Valid() && m in places.held && Answerable(m, m.body.id) && (component == 0 || component > CLIENTS)
      modifies clients, clients.cmap, places`held, places.queue, places.queue.list`next
      modifies places.remote, places.remote.list`next, m
      ensures Valid()
      ensures !ok ==>
        places.held == old(places.held) && m.body == old(m.body) && clients.Clients() == old(clients.Clients())
      ensures !ok ==> places.queue.list == old(places.queue.list) && places.remote.list == old(places.remote.list)
      ensures ok <==> component != 0 && exists c: nat :: c < CLIENTS && c !in old(clients.Clients())
      ensures ok ==> places.held == old(places.held) - {m}
      ensures ok ==> SentBack(m, PortProxy(Src(old(m.body.id))), old(places.queue.list), places.queue.list,
                              old(places.remote.list), places.remote.list)
      ensures ok ==> Dst(m.body.id) == Src(old(m.body.id)) && m.body.length == 0
      ensures ok ==> var c := PortClient(Src(m.body.id));
                     c !in old(clients.Clients()) && clients.Clients() == old(clients.Clients())[c := component]
    {
      hide Places.Valid, ClientMap.Valid, ClientMap.Clients, SentBack;
      var r := clients.Register(component);
      match r
      case Registered(client) =>
        var b := m.body;
        var id := MakeId(Src(b.id), client * 4);
        NewId(Src(b.id), client);
        places.Fill(m, b.(id := id, length := 0));
        Complete(m);
        SwapParts(id);
        ok := true;
      case _ =>
        ok := false;
    }

    /** Carries out a command to the proxy.  A command whose table entry is empty crashes the core
        and is never answered; every other command is answered exactly once. */
    method ProxyCommand(m: Message, p: Platform) returns (crashed: bool)
      requires Valid() && m in places.held && Answerable(m, m.body.id) && (p.component == 0 || p.component > CLIENTS)
      modifies clients, clients.cmap, places`held, places.queue, places.queue.list`next
      modifies places.remote, places.remote.list`next, m
      ensures Valid() && (crashed <==> Hole(Type(old(m.body.opcode))))
      ensures crashed ==> places.held == old(places.held) && m.body == old(m.body)
      ensures crashed ==> places.queue.list == old(places.queue.list) && places.remote.list == old(places.remote.list)
      ensures !crashed ==> places.held == old(places.held) - {m}
      ensures !crashed ==> SentBack(m, PortProxy(Src(old(m.body.id))), old(places.queue.list), places.queue.list,
                                    old(places.remote.list), places.remote.list)
      ensures Refused(Type(old(m.body.opcode)), p.enabled) ==> m.body == old(Answer(Failure(m.body)))
      ensures Type(old(m.body.opcode)) == ALLOC && p.enabled ==> m.body == old(Answer(m.body.(buffer := p.buffer)))
      ensures Type(old(m.body.opcode)) == FREE && p.enabled ==> m.body == old(Answer(m.body))
      ensures Type(old(m.body.opcode)) != REGISTER ==> clients.Clients() == old(clients.Clients())
    {
      hide Places.Valid, ClientMap.Valid, ClientMap.Clients, SentBack, Answer;
      crashed := false;
      var t := Type(m.body.opcode);
      if t < COMMANDS {
        if Hole(t) {
          return true;
        }
        if t == REGISTER {
          var ok := ProxyRegister(m, p.component);
          if ok {
            return;
          }
        } else if t == ALLOC && p.enabled {
          places.Fill(m, m.body.(buffer := p.buffer));
          Complete(m);
          return;
        } else if t == FREE && p.enabled {
          Complete(m);
          return;
        }
      }
      ResponseErr(m);
    }

    /** Completes messages, as a component does. */
    method ReplyAll(replies: seq<Reply>)
      requires places.Valid() && DistinctReplies(replies)
      requires forall r :: r in replies ==> r.m in places.held && Answerable(r.m, r.body.id)
      modifies places`held, places.queue, places.queue.list`next, places.remote
      modifies places.remote.list`next, Senders(replies)
      ensures places.Valid() && places.held == old(places.held) - Senders(replies)
      ensures forall r :: r in replies ==> r.m in places.queue.list || r.m in places.remote.list
    {
      var i := 0;
      SendersEnds(replies);
      InSenders(replies);
      hide Places.Valid, Answer, Senders, DistinctReplies;
      while i < |replies|
        invariant i <= |replies| && places.Valid()
        invariant places.held == old(places.held) - Senders(replies[..i])
        invariant forall k :: 0 <= k < i ==> replies[k].m in places.queue.list || replies[k].m in places.remote.list
        invariant forall k :: 0 <= k < |places.queue.list| ==>
                    places.queue.list[k] in old(places.queue.list) || places.queue.list[k] in Senders(replies)
        invariant forall k :: 0 <= k < |places.remote.list| ==>
                    places.remote.list[k] in old(places.remote.list) || places.remote.list[k] in Senders(replies)
      {
        SendersMore(replies, i);
        var r := replies[i];
        places.Fill(r.m, r.body);
        Complete(r.m);
        i := i + 1;
      }
    }

    /** Delivers a message to a component: the message goes out with the replies or stays in its
        hands.  A failing entry point starts the component's exit; once the exit is complete, maybe
        at a later message, the client id is recycled. */
    method Deliver(client: nat, replies: seq<Reply>, failed: bool, exited: bool)
      requires Valid() && client in clients.Clients() && DistinctReplies(replies)
      requires forall r :: r in replies ==> r.m in places.held && Answerable(r.m, r.body.id)
      modifies clients, clients.cmap, places`held, places.queue, places.queue.list`next
      modifies places.remote, places.remote.list`next, Senders(replies)
      ensures Valid() && places.held == old(places.held) - Senders(replies)
      ensures forall r :: r in replies ==> r.m in places.queue.list || r.m in places.remote.list
      ensures clients.Clients()
           == if failed && exited then old(clients.Clients()) - {client} else old(clients.Clients())
    {
      hide Places.Valid, ClientMap.Valid, ClientMap.Clients, Senders, DistinctReplies;
      ReplyAll(replies);
      if failed {
        if exited {
          clients.Free(client);
        }
      }
    }

    /** Dispatches a message taken from the core's queue: to the proxy, to a live component, or back
        to its sender as a failure, exactly once, if the addressed component is not there. */
    method Dispatch(m: Message, p: Platform, replies: seq<Reply>, failed: bool, exited: bool) returns (crashed: bool)
      requires Valid() && m in places.held && Answerable(m, m.body.id) && (p.component == 0 || p.component > CLIENTS)
      requires DistinctReplies(replies)
      requires forall r :: r in replies ==> r.m in places.held && Answerable(r.m, r.body.id)
      modifies clients, clients.cmap, places`held, places.queue, places.queue.list`next
      modifies places.remote, places.remote.list`next, m, Senders(replies)
      ensures Valid()
      ensures var id, t := old(m.body.id), Type(old(m.body.opcode));
              var toProxy, client := PortProxy(Dst(id)), PortClient(Dst(id));
              var live := client in old(clients.Clients());
              && (crashed <==> toProxy && Hole(t))
              && (crashed ==> places.held == old(places.held))
              && (!crashed && (toProxy || !live) ==>
                    && places.held == old(places.held) - {m}
                    && SentBack(m, PortProxy(Src(id)), old(places.queue.list), places.queue.list,
                                old(places.remote.list), places.remote.list))
              && ((if toProxy then Refused(t, p.enabled) else !live) ==> m.body == old(Answer(Failure(m.body))))
              && (!toProxy && live ==>
                    && places.held == old(places.held) - Senders(replies)
                    && (forall r :: r in replies ==> r.m in places.queue.list || r.m in places.remote.list))
              && (!toProxy && live && failed && exited ==> clients.Clients() == old(clients.Clients()) - {client})
              && (!toProxy && !(live && failed && exited) ==> clients.Clients() == old(clients.Clients()))
    {
      hide Places.Valid, ClientMap.Valid, ClientMap.Clients, Senders, DistinctReplies, SentBack, Answer;
      crashed := false;
      var dst := Dst(m.body.id);
      if PortProxy(dst) {
        crashed := ProxyCommand(m, p);
        return;
      }
      var component := clients.Lookup(PortClient(dst));
      if component != 0 {
        Deliver(PortClient(dst), replies, failed, exited);
      } else {
        ResponseErr(m);
      }
    }
  }

  /** The least command that crashes the core: an unregister command sent to the proxy itself. */
  lemma UnregisterProxyIsHole()
    ensures Hole(Type(UNREGISTER)) && Hole(Type(EMPTY_THIS_BUFFER)) && !Hole(Type(FILL_THIS_BUFFER))
    ensures forall t: nat :: Hole(t) <==> t in {0, 2, 3, 6, 7, 8}
  {
  }

  lemma NewId(src: nat, client: nat)
    requires src < HALFWORD && client < CLIENTS
    ensures var id := MakeId(src, client * 4); Src(id) == src && Dst(id) == client * 4
    ensures PortCore(client * 4) == 0 && PortClient(client * 4) == client && !PortProxy(client * 4)
  {
  }
}
