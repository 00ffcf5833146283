/**
 The flush and unroute handshake between a routed source component and its sink, over the
 core's FIFO message queue.

 The messages are those of the port's pool: CONTROL (0) and the data messages 1..n.  Other
 messages of the core queue only trigger the steps below.  The source's steps are those of
 the codec class; the sink is any component that puts what it receives into its input port,
 answers from the head of that port, and may be flushed or unregistered at any moment.
 */
module Handshake {
  import opened FlagWords
  import opened OutputPort
  import opened Pointers

  // A message in the core queue.
  datatype Packet = Packet(m: nat, opcode: Opcode, toSink: bool)

  // Life of a component: in service, cleaning up (second stage pending), or destroyed.
  datatype Life = Running | Terminating | Gone

  // `saved`: the queued message is a saved flow-control message, not stream data.
  datatype Sink = Sink(life: Life, queue: seq<nat>, saved: bool)

  // `ignored`: messages that a terminating component dropped.  `answered`: the unroute commands
  // answered with success.  `balance`: how many pools were obtained and not released again.
  datatype State = State(
    n: nat, port: PortState, life: Life, ignored: multiset<nat>, core: seq<Packet>, sink: Sink,
    answered: seq<nat>, balance: int)

  predicate Routed(s: State) { ROUTED in s.port.flags }

  // ----------------------------------------------------------------- responses

  /** The opcode of a completed message on its way back. */
  function Completed(op: Opcode): Opcode {
    match op
    case EmptyThisBuffer => FillThisBuffer
    case FillThisBuffer => EmptyThisBuffer
    case _ => op
  }

  function ToSource(s: State, m: nat, op: Opcode): State {
    s.(core := s.core + [Packet(m, op, false)])
  }

  function ToSink(s: State, m: nat, op: Opcode): State {
    s.(core := s.core + [Packet(m, op, true)])
  }

  function Replies(q: seq<nat>, op: Opcode): seq<Packet> {
    seq(|q|, i requires 0 <= i < |q| => Packet(q[i], op, false))
  }

  // ------------------------------------------------------------ the sink's side

  /** Answers everything in the sink's input port, from its head. */
  function SinkPurge(s: State): State {
    s.(core := s.core + Replies(s.sink.queue, if s.sink.saved then Flush else FillThisBuffer),
       sink := s.sink.(queue := [], saved := false))
  }

  /** The sink receives a message; `save` tells whether a flush has to propagate further. */
  function SinkReceives(s: State, m: nat, op: Opcode, save: bool): State {
    match s.sink.life
    case Running =>
      (match op
       case EmptyThisBuffer =>
         // a port that has seen the end of the stream is disabled and answers at once
         if CONTROL in s.sink.queue then ToSource(s, m, FillThisBuffer)
         else s.(sink := s.sink.(queue := s.sink.queue + [m]))
       case Flush =>
         var p := SinkPurge(s);
         if save then p.(sink := p.sink.(queue := [m], saved := true)) else ToSource(p, m, Flush)
       case _ => SinkPurge(ToSource(s, m, Unregister)).(sink := Sink(Gone, [], false)))
    case Terminating =>
      if op == Unregister then s.(ignored := s.ignored + multiset{m}) else ToSource(s, m, Unregister)
    case Gone => ToSource(s, m, Unregister)
  }

  // ---------------------------------------------------------- the source's side

  /** Starts a flush with the given opcode unless it is satisfied or already going on. */
  function StartFlush(s: State, op: Opcode): State {
    var p := s.(port := AfterFlush(s.port));
    if FlushSends(s.port) then ToSink(p, CONTROL, Completed(op)) else p
  }

  /** Releases the pool and its buffers, whether the port has them or not. */
  function FreePool(s: State): State {
    s.(n := 0, port := AfterUnroute(s.port), ignored := multiset{}, balance := s.balance - 1)
  }

  /** Answers the saved unroute command after the release. */
  function UnrouteEnds(s: State): State {
    s.(port := s.port.(unroute := NIL), answered := s.answered + [s.port.unroute])
  }

  /** Cleanup of the source: flush the port, or release everything at once. */
  function SourceCleanup(s: State): State {
    if FlushedAtOnce(s.port) then (if Routed(s) then FreePool(s) else s.(port := AfterFlush(s.port))).(life := Gone)
    else StartFlush(s, Flush).(life := Terminating)
  }

  /** The source receives one of its messages back. */
  function SourceReceives(s: State, m: nat, op: Opcode): State {
    match s.life
    case Running =>
      if op == Unregister then SourceCleanup(ToSink(s, m, Unregister))
      else if op == Flush && UNROUTING in s.port.flags then UnrouteEnds(FreePool(s))
      else if m == CONTROL then s.(port := AfterFlushDone(s.port))
      else s.(port := s.port.(queue := s.port.queue + [m]))
    case Terminating =>
      if m == CONTROL then FreePool(s.(port := AfterFlushDone(s.port))).(life := Gone)
      else s.(ignored := s.ignored + multiset{m})
    case Gone => ToSink(s, m, Unregister)
  }

  // ------------------------------------------------------------------- events

  datatype Event =
    | Produce                     // the source sends a filled buffer
    | EndOfStream                 // the source propagates the end of its stream
    | FlushCommand(c: nat)        // command c: the source's input port is flushed
    | UnrouteCommand(c: nat)      // command c: the source's output port is to be unrouted
    | UnregisterSource
    | RouteCommand(n: nat)
    | Dispatch(save: bool)        // the core dispatches the head of its queue
    | SinkComplete                // the sink is through with its first message
    | SinkFlushed                 // the sink's input port is purged
    | SinkPropagated              // a saved flow-control message is answered
    | UnregisterSink(pending: bool)
    | SinkDestroyed

  predicate Enabled(s: State, e: Event) {
    match e
    case Produce =>
      s.life == Running && Routed(s) && s.port.queue != [] && UNROUTING !in s.port.flags && FLUSHING !in s.port.flags
    case EndOfStream => s.life == Running
    case FlushCommand(_) => s.life == Running
    case UnrouteCommand(_) => s.life == Running
    case UnregisterSource => s.life == Running
    case RouteCommand(n) => s.life == Running && !Routed(s) && s.port.queue == []
    case Dispatch(_) => s.core != []
    case SinkComplete => s.sink.life == Running && s.sink.queue != [] && !s.sink.saved && s.sink.queue[0] != CONTROL
    case SinkFlushed => s.sink.life == Running
    case SinkPropagated => s.sink.life == Running && s.sink.saved
    case UnregisterSink(_) => s.sink.life == Running
    case SinkDestroyed => s.sink.life == Terminating
  }

  function Next(s: State, e: Event): State
    requires Enabled(s, e)
  {
    match e
    case Produce => Produced(s)
    case EndOfStream => StartFlush(s, FillThisBuffer)
    case FlushCommand(_) => StartFlush(s, Flush)
    case UnrouteCommand(c) =>
      if FlushedAtOnce(s.port) then var f := FreePool(s); f.(answered := s.answered + [c])
      else var f := StartFlush(s, Flush); f.(port := AfterUnrouteStart(f.port, c))
    case UnregisterSource => SourceCleanup(s)
    case RouteCommand(n) => s.(n := n, port := AfterRoute(s.port, n), balance := s.balance + 1)
    case Dispatch(save) =>
      var p := s.core[0];
      var r := s.(core := s.core[1..]);
      if p.toSink then SinkReceives(r, p.m, p.opcode, save) else SourceReceives(r, p.m, p.opcode)
    case SinkComplete =>
      ToSource(s.(sink := s.sink.(queue := s.sink.queue[1..])), s.sink.queue[0], FillThisBuffer)
    case SinkFlushed => SinkPurge(s)
    case SinkPropagated => SinkPurge(s)
    case UnregisterSink(pending) => SinkPurge(s).(sink := Sink(if pending then Terminating else Gone, [], false))
    case SinkDestroyed => s.(sink := s.sink.(life := Gone))
  }

  // --------------------------------------------------------------- invariant

  /** The indices of the packets on their way in one direction, in queue order. */
  function Travelling(core: seq<Packet>, toSink: bool): seq<nat> {
    if core == [] then []
    else (if core[0].toSink == toSink then [core[0].m] else []) + Travelling(core[1..], toSink)
  }

  /** All messages under way, those closest to home first: on their way back, then in the sink's
      port, then on their way out. */
  function Line(s: State): seq<nat> {
    Travelling(s.core, false) + s.sink.queue + Travelling(s.core, true)
  }

  function All(n: nat): multiset<nat> { multiset(Items(n)) }

  /** Each data message is in exactly one place; the control message is out exactly while a
      flush is going on. */
  ghost predicate InOnePlace(s: State) {
    multiset(s.port.queue) + s.ignored + multiset(Line(s))
      == All(s.n) + (if FLUSHING in s.port.flags then multiset{CONTROL} else multiset{})
  }

  /** The control message is behind every message that was sent before it. */
  ghost predicate ControlLast(line: seq<nat>) {
    forall i :: 0 <= i < |line| && line[i] == CONTROL ==> i == |line| - 1
  }

  ghost predicate OpcodesFit(s: State) {
    forall i :: 0 <= i < |s.core| ==>
      && (s.core[i].opcode == Flush ==> s.core[i].m == CONTROL)
      && (s.core[i].toSink ==> s.core[i].opcode != FillThisBuffer)
      && (s.core[i].opcode == Unregister ==>
            s.sink.life != Running && (s.core[i].toSink ==> s.life == Terminating))
  }

  ghost predicate SinkFits(k: Sink) {
    && (k.life != Running ==> k.queue == [] && !k.saved)
    && (k.saved ==> k.queue == [CONTROL])
  }

  ghost predicate PortFits(s: State) {
    && (IDLE in s.port.flags ==> FLUSHING !in s.port.flags && Line(s) == [])
    && (Routed(s) ==> s.life != Gone)
    && (!Routed(s) ==>
          Line(s) == [] && FLUSHING !in s.port.flags && s.n == 0 && s.port.queue == [] && s.ignored == multiset{})
    && (s.life == Terminating ==> Routed(s) && FLUSHING in s.port.flags)
    && (s.life == Running ==> s.ignored == multiset{})
  }

  ghost predicate Inv(s: State) {
    InOnePlace(s) && ControlLast(Line(s)) && OpcodesFit(s) && SinkFits(s.sink) && PortFits(s)
  }

  // ------------------------------------------------------------------- lines

  lemma {:induction false} TravellingAppend(core: seq<Packet>, p: Packet, toSink: bool)
    ensures Travelling(core + [p], toSink) == Travelling(core, toSink) + (if p.toSink == toSink then [p.m] else [])
  {
    if core == [] {
      assert core + [p] == [p];
      assert [p][1..] == [];
    } else {
      assert (core + [p])[1..] == core[1..] + [p] && (core + [p])[0] == core[0];
      TravellingAppend(core[1..], p, toSink);
      Associates(if core[0].toSink == toSink then [core[0].m] else [], Travelling(core[1..], toSink),
                 if p.toSink == toSink then [p.m] else []);
    }
  }

  lemma Associates(a: seq<nat>, b: seq<nat>, c: seq<nat>)
    ensures a + (b + c) == a + b + c
  {
  }

  lemma {:induction false} TravellingReplies(core: seq<Packet>, q: seq<nat>, op: Opcode)
    ensures Travelling(core + Replies(q, op), false) == Travelling(core, false) + q
    ensures Travelling(core + Replies(q, op), true) == Travelling(core, true)
  {
    if q == [] {
      assert core + Replies(q, op) == core;
    } else {
      var k := |q| - 1;
      assert core + Replies(q, op) == (core + Replies(q[..k], op)) + [Packet(q[k], op, false)];
      TravellingReplies(core, q[..k], op);
      TravellingAppend(core + Replies(q[..k], op), Packet(q[k], op, false), false);
      TravellingAppend(core + Replies(q[..k], op), Packet(q[k], op, false), true);
      assert q == q[..k] + [q[k]];
    }
  }

  lemma LineToSink(s: State, m: nat, op: Opcode)
    ensures Line(ToSink(s, m, op)) == Line(s) + [m]
  {
    TravellingAppend(s.core, Packet(m, op, true), false);
    TravellingAppend(s.core, Packet(m, op, true), true);
  }

  lemma LineToSource(s: State, m: nat, op: Opcode)
    ensures Line(ToSource(s, m, op)) == Travelling(s.core, false) + [m] + s.sink.queue + Travelling(s.core, true)
  {
    TravellingAppend(s.core, Packet(m, op, false), false);
    TravellingAppend(s.core, Packet(m, op, false), true);
  }

  /** Answering the whole input port of the sink moves nothing out of line. */
  lemma LinePurge(s: State)
    ensures Line(SinkPurge(s)) == Line(s)
  {
    TravellingReplies(s.core, s.sink.queue, if s.sink.saved then Flush else FillThisBuffer);
  }

  /** The line with its head message dispatched. */
  lemma LineDispatch(s: State)
    requires s.core != []
    ensures var p, r := s.core[0], s.(core := s.core[1..]);
            && (!p.toSink ==> Line(s) == [p.m] + Line(r))
            && (p.toSink ==> Line(s) == Travelling(r.core, false) + s.sink.queue + [p.m] + Travelling(r.core, true))
  {
  }

  lemma ControlCount(s: State)
    requires InOnePlace(s)
    ensures FLUSHING !in s.port.flags ==> CONTROL !in Line(s)
    ensures multiset(Line(s))[CONTROL] <= 1
    ensures forall m :: m in Line(s) ==> m == CONTROL || 0 < m <= s.n
  {
    assert CONTROL !in Items(s.n);
    assert All(s.n)[CONTROL] == 0;
    var everything := All(s.n) + (if FLUSHING in s.port.flags then multiset{CONTROL} else multiset{});
    assert multiset(Line(s)) <= everything;
    assert everything[CONTROL] <= 1;
    forall m | m in Line(s) ensures m == CONTROL || 0 < m <= s.n {
      assert m in multiset(Line(s));
      assert m in everything;
      if m != CONTROL {
        assert m in Items(s.n);
      }
    }
  }

  // ---------------------------------------------------------- steps: the source

  lemma OpcodesAppend(s: State, p: Packet, port: PortState)
    requires OpcodesFit(s) && (p.opcode == Flush ==> p.m == CONTROL) && (p.toSink ==> p.opcode != FillThisBuffer)
    requires p.opcode == Unregister ==> s.sink.life != Running && (p.toSink ==> s.life == Terminating)
    ensures OpcodesFit(s.(port := port, core := s.core + [p]))
  {
  }

  lemma AtEnd(line: seq<nat>, m: nat)
    requires ControlLast(line) && CONTROL !in line
    ensures ControlLast(line + [m]) && multiset(line + [m]) == multiset(line) + multiset{m}
  {
  }

  lemma PlacesAgain(s: State)
    requires multiset(s.port.queue) + s.ignored + multiset(Line(s))
          == All(s.n) + (if FLUSHING in s.port.flags then multiset{CONTROL} else multiset{})
    ensures InOnePlace(s)
  {
  }

  lemma LinePort(s: State, port: PortState)
    ensures Line(s.(port := port)) == Line(s)
  {
  }

  lemma Reorder(a: multiset<nat>, b: multiset<nat>, c: multiset<nat>, d: multiset<nat>)
    ensures a + b + c + d == a + b + (c + d)
  {
  }

  /** Sending a message: it joins the line at its end. */
  lemma Sends(s: State, p: PortState, m: nat, op: Opcode)
    requires ControlLast(Line(s)) && CONTROL !in Line(s) && OpcodesFit(s)
    requires (op == EmptyThisBuffer || op == Flush) && (op == Flush ==> m == CONTROL)
    requires multiset(p.queue) + s.ignored + multiset(Line(s)) + multiset{m}
          == All(s.n) + (if FLUSHING in p.flags then multiset{CONTROL} else multiset{})
    ensures var s' := ToSink(s.(port := p), m, op);
            InOnePlace(s') && ControlLast(Line(s')) && OpcodesFit(s') && Line(s') == Line(s) + [m]
  {
    var s1 := s.(port := p);
    var s' := ToSink(s1, m, op);
    OpcodesAppend(s, Packet(m, op, true), p);
    hide Line, Travelling, ControlLast, OpcodesFit, All, InOnePlace;
    LinePort(s, p);
    LineToSink(s1, m, op);
    AtEnd(Line(s), m);
    Reorder(multiset(p.queue), s.ignored, multiset(Line(s)), multiset{m});
    PlacesAgain(s');
  }

  lemma ProduceKeeps(s: State)
    requires Inv(s) && Enabled(s, Produce)
    ensures Inv(Next(s, Produce))
  {
    hide Line, Travelling, ControlLast, OpcodesFit, All, InOnePlace;
    var m := s.port.queue[0];
    var p := AfterProduce(s.port);
    ControlCount(s);
    NotLost(s, m);
    assert s.port.queue == [m] + p.queue;
    assert multiset(s.port.queue) == multiset{m} + multiset(p.queue);
    Places(s);
    Sends(s, p, m, EmptyThisBuffer);
  }

  lemma Places(s: State)
    requires InOnePlace(s)
    ensures multiset(s.port.queue) + s.ignored + multiset(Line(s))
         == All(s.n) + (if FLUSHING in s.port.flags then multiset{CONTROL} else multiset{})
  {
  }

  /** A message that waits at home is a data message. */
  lemma NotLost(s: State, m: nat)
    requires InOnePlace(s) && FLUSHING !in s.port.flags && m in s.port.queue
    ensures 0 < m <= s.n
  {
    assert m in multiset(s.port.queue);
    assert 0 < multiset(s.port.queue)[m] <= (multiset(s.port.queue) + s.ignored + multiset(Line(s)))[m];
    assert 0 < All(s.n)[m];
    assert m in Items(s.n);
  }

  lemma StartFlushKeeps(s: State, op: Opcode)
    requires Inv(s) && s.life == Running && Routed(s) && (op == Flush || op == FillThisBuffer)
    ensures Inv(StartFlush(s, op)) && Routed(StartFlush(s, op)) && StartFlush(s, op).life == Running
    ensures FlushedAtOnce(s.port) || FLUSHING in s.port.flags ==> StartFlush(s, op) == s
    ensures !FlushedAtOnce(s.port) ==> FLUSHING in StartFlush(s, op).port.flags
  {
    var s' := StartFlush(s, op);
    if FlushSends(s.port) {
      var port := AfterFlush(s.port);
      FlushStarts(s.port);
      assert s' == ToSink(s.(port := port), CONTROL, Completed(op));
      hide *;
      Parts(s);
      ControlCount(s);
      Places(s);
      OneControl(multiset(s.port.queue) + s.ignored + multiset(Line(s)), All(s.n));
      Sends(s, port, CONTROL, Completed(op));
      FlushFits(s, s');
      Whole(s');
    }
  }

  /** Without a route there is nothing to flush. */
  lemma UnroutedFlush(s: State, op: Opcode)
    requires Inv(s) && !Routed(s)
    ensures StartFlush(s, op) == s
  {
    hide Line;
    assert PortFits(s);
  }

  lemma FlushStarts(p: PortState)
    requires FlushSends(p)
    ensures ROUTED in p.flags && IDLE !in p.flags && FLUSHING !in p.flags
    ensures AfterFlush(p) == p.(flags := p.flags + {FLUSHING})
  {
  }

  lemma OneControl(a: multiset<nat>, all: multiset<nat>)
    requires a == all + multiset{}
    ensures a + multiset{CONTROL} == all + multiset{CONTROL}
  {
  }

  lemma FlushFits(s: State, s': State)
    requires PortFits(s) && ROUTED in s.port.flags && IDLE !in s.port.flags
    requires s'.port.flags == s.port.flags + {FLUSHING} && s'.life == s.life && s'.ignored == s.ignored
    ensures PortFits(s')
  {
  }

  // ------------------------------------------------------------ steps: the sink

  /** A step that keeps the line and the port keeps the messages in place. */
  lemma SameLine(s: State, s': State)
    requires InOnePlace(s) && ControlLast(Line(s)) && Line(s') == Line(s)
    requires s'.n == s.n && s'.port == s.port && s'.ignored == s.ignored && s'.life == s.life && PortFits(s)
    ensures InOnePlace(s') && ControlLast(Line(s')) && PortFits(s')
  {
  }

  lemma OpcodesReplies(s: State)
    requires OpcodesFit(s) && SinkFits(s.sink)
    ensures OpcodesFit(SinkPurge(s))
  {
    var op := if s.sink.saved then Flush else FillThisBuffer;
    var core := s.core + Replies(s.sink.queue, op);
    forall i | |s.core| <= i < |core| ensures core[i].opcode == op && (op == Flush ==> core[i].m == CONTROL) {
      assert core[i] == Replies(s.sink.queue, op)[i - |s.core|];
    }
  }

  lemma PurgeKeeps(s: State)
    requires Inv(s)
    ensures Inv(SinkPurge(s)) && SinkPurge(s).sink == Sink(s.sink.life, [], false)
  {
    OpcodesReplies(s);
    LinePurge(s);
    hide Line, ControlLast, OpcodesFit, InOnePlace, PortFits;
    SameLine(s, SinkPurge(s));
  }

  /** The sink leaves service; its input port is empty by then. */
  lemma SinkLifeKeeps(s: State, life: Life)
    requires Inv(s) && s.sink.queue == [] && !s.sink.saved && (life != Running)
    ensures Inv(s.(sink := Sink(life, [], false)))
  {
    var s' := s.(sink := Sink(life, [], false));
    assert Line(s') == Line(s);
    hide Line, ControlLast, InOnePlace, PortFits;
    SameLine(s, s');
  }

  lemma CompleteKeeps(s: State)
    requires Inv(s) && Enabled(s, SinkComplete)
    ensures Inv(Next(s, SinkComplete))
  {
    var m := s.sink.queue[0];
    var s1 := s.(sink := s.sink.(queue := s.sink.queue[1..]));
    var s' := ToSource(s1, m, FillThisBuffer);
    hide *;
    Parts(s);
    LineToSource(s1, m, FillThisBuffer);
    Regroup4(Travelling(s.core, false), s.sink.queue, Travelling(s.core, true));
    OpcodesAppend(s, Packet(m, FillThisBuffer, false), s.port);
    CompleteEnabled(s);
    CompletedForm(s, s');
    SameLine(s, s');
    Whole(s');
  }

  lemma CompleteEnabled(s: State)
    requires Enabled(s, SinkComplete)
    ensures s.sink.life == Running && s.sink.queue != [] && !s.sink.saved && s.sink.queue[0] != CONTROL
  {
  }

  lemma CompletedForm(s: State, s': State)
    requires s.sink.life == Running && s.sink.queue != [] && !s.sink.saved && s.sink.queue[0] != CONTROL
    requires SinkFits(s.sink) && OpcodesFit(s.(core := s'.core))
    requires s' == ToSource(s.(sink := s.sink.(queue := s.sink.queue[1..])), s.sink.queue[0], FillThisBuffer)
    ensures s' == Next(s, SinkComplete) && OpcodesFit(s') && SinkFits(s'.sink)
    ensures s'.core == s.core + [Packet(s.sink.queue[0], FillThisBuffer, false)]
    ensures s'.n == s.n && s'.port == s.port && s'.ignored == s.ignored && s'.life == s.life
  {
    OpcodesSink(s.(core := s'.core), s');
  }

  lemma Regroup4(a: seq<nat>, q: seq<nat>, c: seq<nat>)
    requires q != []
    ensures a + [q[0]] + q[1..] + c == a + q + c
  {
  }

  /** The core has taken the head of its queue, which stays between the ways. */
  ghost predicate InHand(s: State, p: Packet, r: State) {
    s.core != [] && s.core[0] == p && r == s.(core := s.core[1..])
  }

  lemma OpcodesTail(s: State)
    requires OpcodesFit(s) && s.core != []
    ensures OpcodesFit(s.(core := s.core[1..]))
    ensures s.core[0].opcode == Flush ==> s.core[0].m == CONTROL
    ensures s.core[0].toSink ==> s.core[0].opcode != FillThisBuffer
    ensures s.core[0].opcode == Unregister ==>
      s.sink.life != Running && (s.core[0].toSink ==> s.life == Terminating)
  {
  }

  /** Nothing can be behind the control message. */
  lemma ControlIsEnd(a: seq<nat>, m: nat, c: seq<nat>)
    requires ControlLast(a + [m] + c) && m == CONTROL
    ensures c == []
  {
    assert (a + [m] + c)[|a|] == m;
  }

  lemma NoControlBefore(a: seq<nat>, q: seq<nat>, m: nat, c: seq<nat>)
    requires ControlLast(a + q + [m] + c)
    ensures CONTROL !in q
  {
    forall i | 0 <= i < |q| ensures q[i] != CONTROL {
      assert (a + q + [m] + c)[|a| + i] == q[i];
    }
  }

  /** An open sink queues a message: the line stays. */
  lemma SinkTakes(s: State, p: Packet, r: State)
    requires Inv(s) && InHand(s, p, r) && p.toSink && s.sink.life == Running && p.opcode == EmptyThisBuffer
    ensures var s' := SinkReceives(r, p.m, p.opcode, false);
            Line(s') == Line(s) && OpcodesFit(s') && SinkFits(s'.sink) && s'.core == r.core && s'.sink.life == Running
  {
    LineDispatch(s);
    OpcodesTail(s);
    NoControlBefore(Travelling(r.core, false), s.sink.queue, p.m, Travelling(r.core, true));
    var s' := SinkReceives(r, p.m, p.opcode, false);
    assert s' == r.(sink := s.sink.(queue := s.sink.queue + [p.m]));
    hide Travelling, ControlLast;
    Associates(Travelling(r.core, false), s.sink.queue, [p.m]);
  }

  /** A sink without queue answers: the line stays. */
  lemma SinkAnswers(s: State, p: Packet, r: State, op: Opcode)
    requires Inv(s) && InHand(s, p, r) && p.toSink && s.sink.queue == []
    requires op == Flush ==> p.m == CONTROL
    requires op == Unregister ==> s.sink.life != Running
    ensures var s' := ToSource(r, p.m, op); Line(s') == Line(s) && OpcodesFit(s')
  {
    hide Travelling, Line, OpcodesFit, ControlLast, InOnePlace, PortFits;
    LineDispatch(s);
    OpcodesTail(s);
    LineToSource(r, p.m, op);
    OpcodesAppend(r, Packet(p.m, op, false), r.port);
    NoQueue(Travelling(r.core, false), [p.m], Travelling(r.core, true));
  }

  lemma NoQueue(a: seq<nat>, m: seq<nat>, c: seq<nat>)
    ensures a + [] + m + c == a + m + [] + c
  {
  }

  /** A flush reaches the sink: everything before it is answered first. */
  lemma SinkFlushes(s: State, p: Packet, r: State, save: bool)
    requires Inv(s) && InHand(s, p, r) && p.toSink && s.sink.life == Running && p.opcode == Flush
    ensures var s' := SinkReceives(r, p.m, Flush, save);
            Line(s') == Line(s) && OpcodesFit(s') && SinkFits(s'.sink) && s'.sink.life == Running
  {
    LineDispatch(s);
    OpcodesTail(s);
    ControlIsEnd(Travelling(r.core, false) + s.sink.queue, p.m, Travelling(r.core, true));
    hide Travelling, OpcodesFit, ControlLast, InOnePlace, PortFits;
    OpcodesReplies(r);
    var q := SinkPurge(r);
    TravellingReplies(r.core, r.sink.queue, if r.sink.saved then Flush else FillThisBuffer);
    if save {
      NoQueue(Travelling(r.core, false) + s.sink.queue, [p.m], []);
      OpcodesSink(q, q.(sink := q.sink.(queue := [p.m], saved := true)));
    } else {
      LineToSource(q, p.m, Flush);
      OpcodesAppend(q, Packet(p.m, Flush, false), q.port);
    }
  }

  lemma OpcodesSink(s: State, s': State)
    requires OpcodesFit(s) && s'.core == s.core && s'.life == s.life && s'.sink.life == s.sink.life
    ensures OpcodesFit(s')
  {
  }

  lemma Parts(s: State)
    requires Inv(s)
    ensures InOnePlace(s) && ControlLast(Line(s)) && OpcodesFit(s) && SinkFits(s.sink) && PortFits(s)
    ensures s.sink.life != Running ==> s.sink.queue == [] && !s.sink.saved
    ensures Line(s) == Travelling(s.core, false) + s.sink.queue + Travelling(s.core, true)
  {
  }

  lemma Whole(s: State)
    requires InOnePlace(s) && ControlLast(Line(s)) && OpcodesFit(s) && SinkFits(s.sink) && PortFits(s)
    ensures Inv(s)
  {
  }

  lemma DropFits(s: State, m: nat, s': State)
    requires PortFits(s) && s.life == Terminating && s'.port == s.port && s'.life == s.life && s'.n == s.n
    ensures PortFits(s')
  {
  }

  lemma NoSinkQueue(r: State, a: seq<nat>, c: seq<nat>)
    requires r.sink.queue == [] && a == Travelling(r.core, false) && c == Travelling(r.core, true)
    ensures Line(r) == a + c
  {
    assert a + [] + c == a + c;
  }

  lemma TakeHead(s: State)
    requires s.core != []
    ensures InHand(s, s.core[0], s.(core := s.core[1..]))
  {
  }

  lemma InHandFacts(s: State, p: Packet, r: State)
    requires InHand(s, p, r)
    ensures s.core != [] && s.core[0] == p && r == s.(core := s.core[1..])
  {
  }

  /** A terminating sink drops what the source bounced back. */
  lemma SinkDrops(s: State, p: Packet, r: State)
    requires Inv(s) && InHand(s, p, r) && p.toSink && s.sink.life == Terminating && p.opcode == Unregister
    ensures Inv(r.(ignored := r.ignored + multiset{p.m}))
  {
    hide *;
    Parts(s);
    InHandFacts(s, p, r);
    var s' := r.(ignored := r.ignored + multiset{p.m});
    LineDispatch(s);
    OpcodesTail(s);
    OpcodesSink(r, s');
    var a, c := Travelling(r.core, false), Travelling(r.core, true);
    NoSinkQueue(s', a, c);
    assert a + [] + [p.m] + c == a + [p.m] + c;
    TakenOut(a, p.m, c);
    Places(s);
    Dropped(multiset(s.port.queue), s.ignored, p.m, multiset(a + c));
    PlacesAgain(s');
    DropFits(s, p.m, s');
    Whole(s');
  }

  lemma Dropped(a: multiset<nat>, b: multiset<nat>, m: nat, c: multiset<nat>)
    ensures a + b + (multiset{m} + c) == a + (b + multiset{m}) + c
  {
  }

  lemma TakenOut(a: seq<nat>, m: nat, c: seq<nat>)
    requires ControlLast(a + [m] + c)
    ensures ControlLast(a + c) && multiset(a + [m] + c) == multiset{m} + multiset(a + c)
  {
    var t, u := a + [m] + c, a + c;
    forall i | 0 <= i < |u| && u[i] == CONTROL ensures i == |u| - 1 {
      assert t[if i < |a| then i else i + 1] == u[i];
    }
  }

  // ----------------------------------------------- steps: dispatch to the sink

  /** What happens to a message in the hands of a sink that is in service. */
  lemma OpenSinkReceives(s: State, p: Packet, r: State, save: bool)
    requires Inv(s) && InHand(s, p, r) && p.toSink && s.sink.life == Running
    ensures Inv(SinkReceives(r, p.m, p.opcode, save))
  {
    var s' := SinkReceives(r, p.m, p.opcode, save);
    InHandFacts(s, p, r);
    SinkKeepsPort(r, p.m, p.opcode, save);
    hide *;
    Parts(s);
    OpcodesTail(s);
    if p.opcode == EmptyThisBuffer {
      SinkTakes(s, p, r);
      SaveIrrelevant(r, p.m, save);
    } else {
      SinkFlushes(s, p, r, save);
    }
    SameLine(s, s');
    Whole(s');
  }

  lemma SaveIrrelevant(r: State, m: nat, save: bool)
    ensures SinkReceives(r, m, EmptyThisBuffer, save) == SinkReceives(r, m, EmptyThisBuffer, false)
  {
  }

  lemma SinkKeepsPort(r: State, m: nat, op: Opcode, save: bool)
    requires r.sink.life == Running
    ensures var s' := SinkReceives(r, m, op, save);
            s'.n == r.n && s'.port == r.port && s'.ignored == r.ignored && s'.life == r.life
  {
  }

  /** A sink out of service answers with an error or drops the message. */
  lemma ClosedSinkReceives(s: State, p: Packet, r: State, save: bool)
    requires Inv(s) && InHand(s, p, r) && p.toSink && s.sink.life != Running
    ensures Inv(SinkReceives(r, p.m, p.opcode, save))
  {
    var s' := SinkReceives(r, p.m, p.opcode, save);
    InHandFacts(s, p, r);
    ClosedForm(r, p.m, p.opcode, save);
    hide *;
    Parts(s);
    OpcodesTail(s);
    if s.sink.life == Terminating && p.opcode == Unregister {
      SinkDrops(s, p, r);
    } else {
      SinkAnswers(s, p, r, Unregister);
      SameLine(s, s');
      Whole(s');
    }
  }

  lemma ClosedForm(r: State, m: nat, op: Opcode, save: bool)
    requires r.sink.life != Running
    ensures SinkReceives(r, m, op, save)
         == if r.sink.life == Terminating && op == Unregister then r.(ignored := r.ignored + multiset{m})
            else ToSource(r, m, Unregister)
    ensures var s' := ToSource(r, m, Unregister);
            s'.n == r.n && s'.port == r.port && s'.ignored == r.ignored && s'.life == r.life && s'.sink == r.sink
  {
  }

  // --------------------------------------------- steps: dispatch to the source

  /** The head of the queue on its way to the source is the head of the whole line. */
  lemma HeadOfLine(s: State, p: Packet, r: State)
    requires Inv(s) && InHand(s, p, r) && !p.toSink
    ensures Line(s) == [p.m] + Line(r) && ControlLast(Line(r)) && OpcodesFit(r)
    ensures ROUTED in s.port.flags && s.life != Gone && IDLE !in s.port.flags
    ensures multiset(Line(s)) == multiset{p.m} + multiset(Line(r))
    ensures p.m == CONTROL ==> Line(r) == [] && FLUSHING in s.port.flags
    ensures p.m != CONTROL ==> 0 < p.m <= s.n
  {
    hide *;
    Parts(s);
    InHandFacts(s, p, r);
    LineDispatch(s);
    OpcodesTail(s);
    ControlCount(s);
    HeadGone(p.m, Line(r));
    HeadFits(s, p.m, Line(r));
  }

  lemma HeadGone(m: nat, line: seq<nat>)
    requires ControlLast([m] + line)
    ensures ControlLast(line) && multiset([m] + line) == multiset{m} + multiset(line) && m in [m] + line
    ensures m == CONTROL ==> line == []
  {
    assert ([m] + line)[0] == m;
    forall i | 0 <= i < |line| && line[i] == CONTROL ensures i == |line| - 1 {
      assert ([m] + line)[i + 1] == CONTROL;
    }
  }

  lemma HeadFits(s: State, m: nat, line: seq<nat>)
    requires PortFits(s) && Line(s) == [m] + line
    ensures ROUTED in s.port.flags && s.life != Gone && IDLE !in s.port.flags
  {
  }

  lemma Vacate(s: State)
    requires Line(s) == [] && OpcodesFit(s) && SinkFits(s.sink)
    ensures s.life != Terminating ==> Inv(FreePool(s))
    ensures Inv(FreePool(s).(life := Gone))
  {
    NoPackets(s.core);
    assert Line(FreePool(s)) == Line(FreePool(s).(life := Gone)) == [];
    assert Items(0) == [];
  }

  lemma {:induction false} NoPackets(core: seq<Packet>)
    requires Travelling(core, false) == [] && Travelling(core, true) == []
    ensures core == []
  {
  }

  /** A data message comes home. */
  lemma ComesHome(s: State, p: Packet, r: State)
    requires Inv(s) && InHand(s, p, r) && !p.toSink && p.m != CONTROL && s.life == Running
    ensures Inv(r.(port := r.port.(queue := r.port.queue + [p.m])))
  {
    hide *;
    Parts(s);
    InHandFacts(s, p, r);
    HeadOfLine(s, p, r);
    var port := r.port.(queue := r.port.queue + [p.m]);
    var s' := r.(port := port);
    LinePort(r, port);
    OpcodesPort(r, port);
    Places(s);
    assert multiset(port.queue) == multiset(s.port.queue) + multiset{p.m};
    Returned(multiset(s.port.queue), s.ignored, p.m, multiset(Line(r)));
    PlacesAgain(s');
    PortStays(s, s');
    Whole(s');
  }

  lemma Returned(a: multiset<nat>, b: multiset<nat>, m: nat, c: multiset<nat>)
    ensures a + b + (multiset{m} + c) == (a + multiset{m}) + b + c
  {
  }

  lemma OpcodesPort(s: State, port: PortState)
    requires OpcodesFit(s)
    ensures OpcodesFit(s.(port := port))
  {
  }

  lemma PortStays(s: State, s': State)
    requires PortFits(s) && IDLE !in s.port.flags && ROUTED in s.port.flags
    requires s'.life == s.life && s'.port.flags == s.port.flags && s'.n == s.n
    requires (s.life != Terminating ==> s'.ignored == s.ignored)
    ensures PortFits(s')
  {
  }

  /** A terminating source drops a data message. */
  lemma SourceDrops(s: State, p: Packet, r: State)
    requires Inv(s) && InHand(s, p, r) && !p.toSink && p.m != CONTROL && s.life == Terminating
    ensures Inv(r.(ignored := r.ignored + multiset{p.m}))
  {
    hide *;
    Parts(s);
    InHandFacts(s, p, r);
    HeadOfLine(s, p, r);
    var s' := r.(ignored := r.ignored + multiset{p.m});
    LineIgnored(r, s');
    OpcodesSink(r, s');
    Places(s);
    Dropped(multiset(s.port.queue), s.ignored, p.m, multiset(Line(r)));
    PlacesAgain(s');
    PortStays(s, s');
    Whole(s');
  }

  lemma LineIgnored(s: State, s': State)
    requires s'.core == s.core && s'.sink == s.sink
    ensures Line(s') == Line(s)
  {
  }

  /** The control message comes home: everything else is home already. */
  lemma ControlComesHome(s: State, p: Packet, r: State)
    requires Inv(s) && InHand(s, p, r) && !p.toSink && p.m == CONTROL && s.life == Running
    ensures Inv(r.(port := AfterFlushDone(r.port)))
  {
    hide *;
    Parts(s);
    InHandFacts(s, p, r);
    HeadOfLine(s, p, r);
    var port := AfterFlushDone(r.port);
    var s' := r.(port := port);
    LinePort(r, port);
    OpcodesPort(r, port);
    Places(s);
    FlushFlags(s.port);
    ControlHome(multiset(s.port.queue), s.ignored, All(s.n));
    PlacesAgain(s');
    BecomesIdle(s, s');
    Whole(s');
  }

  lemma FlushFlags(p: PortState)
    requires FLUSHING in p.flags && IDLE !in p.flags
    ensures AfterFlushDone(p).flags == p.flags - {FLUSHING} + {IDLE} && AfterFlushDone(p).queue == p.queue
  {
  }

  lemma ControlHome(a: multiset<nat>, b: multiset<nat>, all: multiset<nat>)
    requires a + b + (multiset{CONTROL} + multiset([])) == all + multiset{CONTROL}
    ensures a + b + multiset([]) == all + multiset{}
  {
    assert a + b + (multiset{CONTROL} + multiset([])) == a + b + multiset{CONTROL};
    forall x ensures (a + b)[x] == all[x] {
      assert (a + b + multiset{CONTROL})[x] == (all + multiset{CONTROL})[x];
    }
  }

  lemma BecomesIdle(s: State, s': State)
    requires PortFits(s) && ROUTED in s.port.flags && s.life == Running && s'.life == s.life && s'.n == s.n
    requires s'.port.flags == s.port.flags - {FLUSHING} + {IDLE} && Line(s') == [] && s'.ignored == s.ignored
    ensures PortFits(s')
  {
  }

  // -------------------------------------------------- steps: cleanup and unroute

  lemma Terminates(s: State)
    requires Inv(s) && s.life == Running && ROUTED in s.port.flags && FLUSHING in s.port.flags
    ensures Inv(s.(life := Terminating))
  {
    var s' := s.(life := Terminating);
    assert Line(s') == Line(s);
  }

  lemma UnroutingKeeps(s: State, c: nat)
    requires Inv(s) && Routed(s)
    ensures Inv(s.(port := AfterUnrouteStart(s.port, c)))
  {
    var port := AfterUnrouteStart(s.port, c);
    var s' := s.(port := port);
    LinePort(s, port);
    OpcodesPort(s, port);
    hide Line, Travelling, OpcodesFit, ControlLast;
    assert InOnePlace(s') && PortFits(s');
  }

  lemma AtOnceMeansHome(s: State)
    requires PortFits(s) && FlushedAtOnce(s.port)
    ensures Line(s) == []
  {
  }

  /** A source that is not routed leaves at once. */
  lemma UnroutedLeaves(s: State)
    requires Inv(s) && !Routed(s)
    ensures Inv(s.(port := AfterFlush(s.port), life := Gone))
  {
    hide *;
    Parts(s);
    var s' := s.(port := AfterFlush(s.port), life := Gone);
    UnroutedEmpty(s, s');
    NoPackets(s.core);
    LineIgnored(s, s');
    Places(s);
    PlacesAgain(s');
    NoOpcodes(s');
    Whole(s');
  }

  lemma UnroutedEmpty(s: State, s': State)
    requires PortFits(s) && !Routed(s) && s' == s.(port := AfterFlush(s.port), life := Gone)
    ensures Line(s) == [] && Travelling(s.core, false) == [] && Travelling(s.core, true) == []
    ensures s'.port.queue == s.port.queue && s'.port.flags == s.port.flags && PortFits(s')
  {
    LineIgnored(s, s');
    hide Travelling;
  }

  lemma NoOpcodes(s: State)
    requires s.core == []
    ensures OpcodesFit(s)
  {
  }

  lemma CleanupKeeps(s: State)
    requires Inv(s) && s.life == Running
    ensures Inv(SourceCleanup(s))
  {
    Parts(s);
    hide Inv, OpcodesFit, PortFits, InOnePlace, ControlLast, Line, Travelling, SinkFits;
    if !Routed(s) {
      UnroutedLeaves(s);
    } else if FlushedAtOnce(s.port) {
      AtOnceMeansHome(s);
      Vacate(s);
    } else {
      StartFlushKeeps(s, Flush);
      Terminates(StartFlush(s, Flush));
    }
  }

  /** Answers and the balance do not matter to the order of the messages. */
  lemma OrderOnly(s: State, s': State)
    requires Inv(s)
    requires s' == s.(answered := s'.answered, balance := s'.balance, port := s.port.(unroute := s'.port.unroute))
    ensures Inv(s')
  {
    assert Line(s') == Line(s);
    hide Line, Travelling, ControlLast;
  }

  lemma UnrouteForm(s: State, c: nat)
    requires Enabled(s, UnrouteCommand(c))
    ensures var t, f := Next(s, UnrouteCommand(c)), StartFlush(s, Flush);
            && s.life == Running
            && (FlushedAtOnce(s.port) ==> t == FreePool(s).(answered := s.answered + [c]))
            && (!FlushedAtOnce(s.port) ==> Routed(s) && t == f.(port := AfterUnrouteStart(f.port, c)))
    ensures var t, f := Next(s, UnrouteCommand(c)), FreePool(s);
            FlushedAtOnce(s.port) ==>
              t == f.(answered := t.answered, balance := t.balance, port := f.port.(unroute := t.port.unroute))
  {
    hide StartFlush;
  }

  lemma UnrouteKeeps(s: State, c: nat)
    requires Inv(s) && Enabled(s, UnrouteCommand(c))
    ensures Inv(Next(s, UnrouteCommand(c)))
  {
    hide *;
    Parts(s);
    UnrouteForm(s, c);
    if FlushedAtOnce(s.port) {
      AtOnceMeansHome(s);
      Vacate(s);
      OrderOnly(FreePool(s), Next(s, UnrouteCommand(c)));
    } else {
      StartFlushKeeps(s, Flush);
      UnroutingKeeps(StartFlush(s, Flush), c);
    }
  }

  lemma RouteKeeps(s: State, n: nat)
    requires Inv(s) && Enabled(s, RouteCommand(n))
    ensures Inv(Next(s, RouteCommand(n)))
  {
    var s' := Next(s, RouteCommand(n));
    RouteForm(s, n);
    hide *;
    Parts(s);
    LineIgnored(s, s');
    OpcodesSink(s, s');
    Places(s);
    RoutePlaces(s, s', n);
    PlacesAgain(s');
    Whole(s');
  }

  lemma RouteForm(s: State, n: nat)
    requires PortFits(s) && Enabled(s, RouteCommand(n))
    ensures var s' := Next(s, RouteCommand(n));
            && s'.n == n && s'.life == s.life == Running && s'.core == s.core && s'.sink == s.sink
            && s'.ignored == s.ignored == multiset{}
            && s'.port.queue == Items(n) && s'.port.flags == s.port.flags + {ROUTED, IDLE} && FLUSHING !in s'.port.flags
            && PortFits(s') && Line(s) == []
  {
    assert [] + Items(n) == Items(n);
    LineIgnored(s, Next(s, RouteCommand(n)));
    hide Line;
  }

  lemma RoutePlaces(s: State, s': State, n: nat)
    requires s'.port.queue == Items(n) && s'.ignored == multiset{} && Line(s') == [] && FLUSHING !in s'.port.flags
    requires s'.n == n
    ensures multiset(s'.port.queue) + s'.ignored + multiset(Line(s'))
         == All(s'.n) + (if FLUSHING in s'.port.flags then multiset{CONTROL} else multiset{})
  {
    hide Line;
  }

  /** A bounced message makes the source clean up: it goes back to the sink. */
  lemma BouncedControl(s: State, p: Packet, r: State)
    requires Inv(s) && InHand(s, p, r) && !p.toSink && p.opcode == Unregister && s.life == Running && p.m == CONTROL
    ensures Inv(SourceReceives(r, p.m, p.opcode))
  {
    Parts(s);
    InHandFacts(s, p, r);
    HeadOfLine(s, p, r);
    OpcodesTail(s);
    var t := ToSink(r, CONTROL, Unregister);
    var s' := t.(life := Terminating);
    assert SourceReceives(r, p.m, p.opcode) == s';
    hide *;
    LineToSink(r, CONTROL, Unregister);
    OpcodesBounced(r, [Packet(CONTROL, Unregister, true)], s');
    LineIgnored(t, s');
    Places(s);
    assert Line(s') == [] + [CONTROL] == [CONTROL] + Line(r);
    SameLine(s, s'.(life := s.life));
    LineIgnored(s'.(life := s.life), s');
    PlacesAgain(s');
    TerminatingFits(s, s');
    Whole(s');
  }

  lemma OpcodesBounced(r: State, more: seq<Packet>, s': State)
    requires OpcodesFit(r) && s'.core == r.core + more && s'.life == Terminating && s'.sink == r.sink
    requires r.sink.life != Running
    requires forall i :: 0 <= i < |more| ==> more[i].toSink && more[i].opcode != FillThisBuffer
    requires forall i :: 0 <= i < |more| ==> (more[i].opcode == Flush ==> more[i].m == CONTROL)
    ensures OpcodesFit(s')
  {
    forall i | |r.core| <= i < |s'.core| ensures s'.core[i] == more[i - |r.core|] {
    }
  }

  lemma TerminatingFits(s: State, s': State)
    requires PortFits(s) && s.life == Running && ROUTED in s.port.flags && IDLE !in s.port.flags
    requires s'.life == Terminating && ROUTED in s'.port.flags && FLUSHING in s'.port.flags && IDLE !in s'.port.flags
    ensures PortFits(s')
  {
  }

  /** The state after a data message has bounced: the message, then the control message. */
  function Bounced(r: State, m: nat): State {
    ToSink(ToSink(r, m, Unregister).(port := AfterFlush(r.port)), CONTROL, Flush).(life := Terminating)
  }

  lemma BouncedForm(r: State, m: nat)
    requires r.life == Running && FlushSends(r.port)
    ensures SourceReceives(r, m, Unregister) == Bounced(r, m)
    ensures Bounced(r, m).core == r.core + [Packet(m, Unregister, true), Packet(CONTROL, Flush, true)]
  {
  }

  lemma StillToSend(p: PortState)
    requires ROUTED in p.flags && IDLE !in p.flags && FLUSHING !in p.flags
    ensures FlushSends(p)
  {
  }

  lemma LineBounced(r: State, m: nat)
    ensures Line(Bounced(r, m)) == Line(r) + [m] + [CONTROL]
  {
    var t := ToSink(r, m, Unregister).(port := AfterFlush(r.port));
    hide Line, Travelling, AfterFlush;
    LineToSink(r, m, Unregister);
    LinePort(ToSink(r, m, Unregister), AfterFlush(r.port));
    LineToSink(t, CONTROL, Flush);
    LineIgnored(ToSink(t, CONTROL, Flush), Bounced(r, m));
  }

  lemma BouncedParts(r: State, m: nat)
    requires FlushSends(r.port)
    ensures var s' := Bounced(r, m);
            && s'.n == r.n && s'.ignored == r.ignored && s'.sink == r.sink && s'.life == Terminating
            && s'.port.queue == r.port.queue && FLUSHING in s'.port.flags && ROUTED in s'.port.flags
            && IDLE !in s'.port.flags
  {
  }

  /** A data message bounces while no flush is going on: cleanup flushes behind it. */
  lemma BouncedData(s: State, p: Packet, r: State)
    requires Inv(s) && InHand(s, p, r) && !p.toSink && p.opcode == Unregister && s.life == Running
    requires p.m != CONTROL && FLUSHING !in s.port.flags
    ensures Inv(SourceReceives(r, p.m, p.opcode))
  {
    hide *;
    Parts(s);
    InHandFacts(s, p, r);
    HeadOfLine(s, p, r);
    OpcodesTail(s);
    ControlCount(s);
    StillToSend(s.port);
    BouncedForm(r, p.m);
    BouncedParts(r, p.m);
    LineBounced(r, p.m);
    var s' := Bounced(r, p.m);
    OpcodesBounced(r, [Packet(p.m, Unregister, true), Packet(CONTROL, Flush, true)], s');
    AtEndOf(Line(r), p.m);
    AtEnd(Line(r) + [p.m], CONTROL);
    Places(s);
    SentBack(multiset(s.port.queue) + s.ignored, p.m, multiset(Line(r)), All(s.n));
    PlacesAgain(s');
    TerminatingFits(s, s');
    Whole(s');
  }

  lemma AtEndOf(line: seq<nat>, m: nat)
    requires CONTROL !in [m] + line
    ensures ControlLast(line + [m]) && CONTROL !in line + [m] && multiset(line + [m]) == multiset{m} + multiset(line)
  {
    assert forall x :: x in line + [m] <==> x == m || x in line;
    assert ([m] + line)[0] == m;
    assert forall x :: x in [m] + line <==> x == m || x in line;
  }

  lemma SentBack(a: multiset<nat>, m: nat, c: multiset<nat>, all: multiset<nat>)
    requires a + (multiset{m} + c) == all + multiset{}
    ensures a + (multiset{m} + c + multiset{CONTROL}) == all + multiset{CONTROL}
  {
    assert a + (multiset{m} + c + multiset{CONTROL}) == a + (multiset{m} + c) + multiset{CONTROL};
    OneControl(a + (multiset{m} + c), all);
  }

  // ------------------------------------------------------------- every step

  /** The source sends a filled buffer, whatever the state of a flush. */
  function Produced(s: State): State
    requires s.port.queue != []
  {
    ToSink(s.(port := AfterProduce(s.port)), s.port.queue[0], EmptyThisBuffer)
  }

  /** The step at which the code goes wrong: a data message bounces off a dead or dying sink
      while a flush is already going on, so cleanup sends it behind the control message. */
  predicate BounceDuringFlush(s: State, e: Event) {
    e.Dispatch? && s.core != [] && !s.core[0].toSink && s.core[0].m != CONTROL
    && s.core[0].opcode == Unregister && s.life == Running && FLUSHING in s.port.flags
  }

  lemma SourceReceivesKeeps(s: State, p: Packet, r: State)
    requires Inv(s) && InHand(s, p, r) && !p.toSink
    requires !BounceDuringFlush(s, Dispatch(false))
    ensures Inv(SourceReceives(r, p.m, p.opcode))
  {
    hide Inv, InHand, OpcodesFit, SinkFits, PortFits, InOnePlace, ControlLast, Line, Travelling;
    InHandFacts(s, p, r);
    Parts(s);
    HeadOfLine(s, p, r);
    if s.life == Running && p.opcode == Unregister {
      if p.m == CONTROL {
        BouncedControl(s, p, r);
      } else {
        BouncedData(s, p, r);
      }
    } else if p.m == CONTROL {
      Vacate(r);
      VacateFlushed(r);
      if s.life == Running {
        ControlComesHome(s, p, r);
        if p.opcode == Flush && UNROUTING in s.port.flags {
          OrderOnly(FreePool(r), UnrouteEnds(FreePool(r)));
        }
      }
    } else {
      OpcodesTail(s);
      if s.life == Running {
        ComesHome(s, p, r);
      } else {
        SourceDrops(s, p, r);
      }
    }
  }

  lemma VacateFlushed(r: State)
    ensures FreePool(r.(port := AfterFlushDone(r.port))) == FreePool(r)
  {
  }
}
