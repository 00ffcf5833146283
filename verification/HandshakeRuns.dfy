/**
 What the flush and unroute handshake guarantees over whole runs.
 */
module HandshakeRuns {
  import opened Handshake
  import opened OutputPort
  import opened Pointers

  // ------------------------------------------------------------- every step

  lemma DispatchKeeps(s: State, save: bool)
    requires Inv(s) && s.core != [] && !BounceDuringFlush(s, Dispatch(save))
    ensures Inv(Next(s, Dispatch(save)))
  {
    var p, r := s.core[0], s.(core := s.core[1..]);
    assert InHand(s, p, r);
    assert Next(s, Dispatch(save)) ==
           if p.toSink then SinkReceives(r, p.m, p.opcode, save) else SourceReceives(r, p.m, p.opcode);
    hide Inv, InHand, SinkReceives, SourceReceives, Next;
    if !p.toSink {
      SourceReceivesKeeps(s, p, r);
    } else if s.sink.life == Running {
      OpenSinkReceives(s, p, r, save);
    } else {
      ClosedSinkReceives(s, p, r, save);
    }
  }

  lemma SinkStepKeeps(s: State, e: Event)
    requires Inv(s) && Enabled(s, e)
    requires e == SinkFlushed || e == SinkPropagated || e.UnregisterSink? || e == SinkDestroyed
    ensures Inv(Next(s, e))
  {
    var p := SinkPurge(s);
    var life := if e == UnregisterSink(true) then Terminating else Gone;
    PurgeKeeps(s);
    if e == SinkDestroyed {
      assert SinkFits(s.sink);
      assert Next(s, e) == s.(sink := Sink(Gone, [], false));
      SinkLifeKeeps(s, Gone);
    } else if e.UnregisterSink? {
      assert Next(s, e) == p.(sink := Sink(life, [], false));
      SinkLifeKeeps(p, life);
    }
  }

  lemma StartKeeps(s: State, op: Opcode)
    requires Inv(s) && s.life == Running && (op == Flush || op == FillThisBuffer)
    ensures Inv(StartFlush(s, op))
  {
    hide Inv, StartFlush;
    if Routed(s) {
      StartFlushKeeps(s, op);
    } else {
      UnroutedFlush(s, op);
    }
  }

  /** Every step but one keeps the messages in place and the control message last. */
  lemma StepKeeps(s: State, e: Event)
    requires Inv(s) && Enabled(s, e) && !BounceDuringFlush(s, e)
    ensures Inv(Next(s, e))
  {
    hide Inv, BounceDuringFlush, Line;
    match e
    case Produce => ProduceKeeps(s);
    case EndOfStream => StartKeeps(s, FillThisBuffer);
    case FlushCommand(_) => StartKeeps(s, Flush);
    case UnrouteCommand(c) => UnrouteKeeps(s, c);
    case UnregisterSource => CleanupKeeps(s);
    case RouteCommand(n) => RouteKeeps(s, n);
    case Dispatch(save) => DispatchKeeps(s, save);
    case SinkComplete => CompleteKeeps(s);
    case _ => SinkStepKeeps(s, e);
  }

  /** The source keeps data messages only. */
  predicate HomeIsData(s: State) { CONTROL !in s.port.queue }

  lemma HomeStaysData(s: State, e: Event)
    requires HomeIsData(s) && Enabled(s, e)
    ensures HomeIsData(Next(s, e))
  {
    assert forall n: nat :: CONTROL !in Items(n);
  }

  /** The excepted step does put a message behind the control message. */
  lemma BounceBreaks(s: State, e: Event)
    requires Inv(s) && HomeIsData(s) && Enabled(s, e) && BounceDuringFlush(s, e)
    ensures !Inv(Next(s, e))
  {
    var p, r := s.core[0], s.(core := s.core[1..]);
    var s' := ToSink(r, p.m, Unregister).(life := Terminating);
    assert InHand(s, p, r);
    HeadOfLine(s, p, r);
    LineToSink(r, p.m, Unregister);
    LineIgnored(ToSink(r, p.m, Unregister), s');
    assert Next(s, e) == s';
    hide Line, Travelling;
    ControlIsOut(s, p.m, Line(r));
    NotLast(Line(r), p.m);
  }

  lemma ControlIsOut(s: State, m: nat, line: seq<nat>)
    requires InOnePlace(s) && FLUSHING in s.port.flags && s.ignored == multiset{} && Line(s) == [m] + line
    requires m != CONTROL
    requires HomeIsData(s)
    ensures CONTROL in line
  {
    hide Line;
    assert CONTROL !in Items(s.n);
    var everything := multiset(s.port.queue) + s.ignored + multiset(Line(s));
    assert everything[CONTROL] == 1;
    assert multiset(s.port.queue)[CONTROL] == 0;
    assert multiset(Line(s))[CONTROL] == 1;
    assert CONTROL in [m] + line;
  }

  lemma NotLast(line: seq<nat>, m: nat)
    requires CONTROL in line && m != CONTROL
    ensures !ControlLast(line + [m])
  {
    var i: nat :| i < |line| && line[i] == CONTROL;
    assert (line + [m])[i] == CONTROL;
  }

  /** Exactly the bounce during a flush breaks the order. */
  lemma StepKeepsExactly(s: State, e: Event)
    requires Inv(s) && HomeIsData(s) && Enabled(s, e)
    ensures Inv(Next(s, e)) <==> !BounceDuringFlush(s, e)
  {
    if BounceDuringFlush(s, e) {
      BounceBreaks(s, e);
    } else {
      StepKeeps(s, e);
    }
  }

  // ------------------------------------------------------------------- runs

  /** An unrouted source and a sink that has received nothing. */
  function Start(): State {
    State(0, PortState([], NIL, {CREATED}), Running, multiset{}, [], Sink(Running, [], false), [], 0)
  }

  /** The events are enabled one after the other. */
  predicate Allowed(s: State, events: seq<Event>)
    decreases |events|
  {
    events == [] || (Enabled(s, events[0]) && Allowed(Next(s, events[0]), events[1..]))
  }

  function Run(s: State, events: seq<Event>): State
    requires Allowed(s, events)
    decreases |events|
  {
    if events == [] then s else Run(Next(s, events[0]), events[1..])
  }

  /** A source that has left service does not come back; a destroyed one holds nothing. */
  lemma NeverBack(s: State, e: Event)
    requires Enabled(s, e) && s.life != Running
    ensures Next(s, e).life != Running && Next(s, e).answered == s.answered
    ensures s.life == Gone && !Routed(s) ==> Next(s, e).life == Gone && !Routed(Next(s, e))
  {
    hide Replies, Line, Travelling;
  }

  lemma BounceTerminates(s: State, e: Event)
    requires Inv(s) && Enabled(s, e) && BounceDuringFlush(s, e)
    ensures Next(s, e) == ToSink(s.(core := s.core[1..]), s.core[0].m, Unregister).(life := Terminating)
  {
    var p, r := s.core[0], s.(core := s.core[1..]);
    assert InHand(s, p, r);
    HeadOfLine(s, p, r);
    hide Inv, InHand;
  }

  /** Along every run, whatever bounces, a source in service has everything in order. */
  lemma {:induction false} RunKeeps(s: State, events: seq<Event>)
    requires Allowed(s, events) && HomeIsData(s) && (s.life == Running ==> Inv(s))
    ensures HomeIsData(Run(s, events)) && (Run(s, events).life == Running ==> Inv(Run(s, events)))
    decreases |events|
  {
    hide Inv, HomeIsData, Next, BounceDuringFlush;
    if events != [] {
      HomeStaysData(s, events[0]);
      if s.life != Running {
        NeverBack(s, events[0]);
      } else if BounceDuringFlush(s, events[0]) {
        BounceTerminates(s, events[0]);
      } else {
        StepKeeps(s, events[0]);
      }
      RunKeeps(Next(s, events[0]), events[1..]);
    }
  }

  lemma StartInv()
    ensures Inv(Start()) && HomeIsData(Start())
  {
    assert Items(0) == [];
  }

  lemma RunInv(events: seq<Event>)
    requires Allowed(Start(), events)
    ensures HomeIsData(Run(Start(), events))
    ensures Run(Start(), events).life == Running ==> Inv(Run(Start(), events))
  {
    StartInv();
    RunKeeps(Start(), events);
  }

  lemma NothingOut(s: State)
    requires Inv(s) && Line(s) == [] && s.ignored == multiset{} && FLUSHING !in s.port.flags
    ensures multiset(s.port.queue) == All(s.n)
  {
    hide Line;
    assert multiset(s.port.queue) + s.ignored + multiset(Line(s)) == multiset(s.port.queue);
    assert All(s.n) + multiset{} == All(s.n);
  }

  /** An idle port has all its messages at home. */
  lemma IdleMeansAllHome(events: seq<Event>)
    requires Allowed(Start(), events) && Run(Start(), events).life == Running
    requires IDLE in Run(Start(), events).port.flags
    ensures var s := Run(Start(), events); multiset(s.port.queue) == All(s.n) && Line(s) == []
  {
    RunInv(events);
    NothingOut(Run(Start(), events));
  }

  /** When the source handles the returned control message, the n data messages are home. */
  lemma ControlFindsAllHome(events: seq<Event>)
    requires Allowed(Start(), events)
    requires var s := Run(Start(), events);
             s.life == Running && s.core != [] && !s.core[0].toSink && s.core[0].m == CONTROL
    ensures var s := Run(Start(), events); multiset(s.port.queue) == All(s.n) && Line(s) == [CONTROL]
  {
    RunInv(events);
    var s := Run(Start(), events);
    var r := s.(core := s.core[1..]);
    assert InHand(s, s.core[0], r);
    HeadOfLine(s, s.core[0], r);
    hide Run, Allowed, Travelling, Line;
    assert Line(s) == [CONTROL];
    ControlHome(multiset(s.port.queue), s.ignored, All(s.n));
    assert multiset(s.port.queue) + s.ignored + multiset([]) == multiset(s.port.queue);
    assert All(s.n) + multiset{} == All(s.n);
  }

  /** A buffer sent while a flush is going on, which the source does not refuse, is what the order
      cannot bear: the control message is no longer the last one. */
  lemma ProduceKeepsExactly(s: State)
    requires Inv(s) && HomeIsData(s) && s.life == Running && Routed(s) && s.port.queue != []
    requires UNROUTING !in s.port.flags
    ensures Inv(Produced(s)) <==> FLUSHING !in s.port.flags
  {
    if FLUSHING in s.port.flags {
      var m := s.port.queue[0];
      var s1 := s.(port := AfterProduce(s.port));
      LinePort(s, s1.port);
      LineToSink(s1, m, EmptyThisBuffer);
      hide Line, Travelling;
      ControlIsIn(s);
      NotLast(Line(s), m);
    } else {
      ProduceKeeps(s);
    }
  }

  lemma ControlIsIn(s: State)
    requires InOnePlace(s) && FLUSHING in s.port.flags && s.ignored == multiset{} && HomeIsData(s)
    ensures CONTROL in Line(s)
  {
    hide Line;
    assert CONTROL !in Items(s.n);
    var everything := multiset(s.port.queue) + s.ignored + multiset(Line(s));
    assert everything[CONTROL] == 1;
    assert multiset(s.port.queue)[CONTROL] == 0;
    assert CONTROL in multiset(Line(s));
  }

  // ------------------------------------------------------- the end of a flush

  /** A flush is over when the source handles the control message, and with nothing else. */
  lemma FlushEndsBy(s: State, e: Event)
    requires Inv(s) && Enabled(s, e) && FLUSHING in s.port.flags && FLUSHING !in Next(s, e).port.flags
    ensures e.Dispatch? && !s.core[0].toSink && s.core[0].m == CONTROL
    ensures s.life == Running ==> s.core[0].opcode != Unregister
  {
    Parts(s);
    if e.Dispatch? {
      var p, r := s.core[0], s.(core := s.core[1..]);
      assert InHand(s, p, r);
      OpcodesTail(s);
      hide Inv, InHand, Line, Travelling, OpcodesFit, InOnePlace, ControlLast;
      if p.toSink {
        if s.sink.life == Running {
          SinkKeepsPort(r, p.m, p.opcode, e.save);
        } else {
          ClosedForm(r, p.m, p.opcode, e.save);
        }
      } else {
        HeadOfLine(s, p, r);
      }
    } else {
      hide Inv, Line, Travelling, OpcodesFit, InOnePlace, ControlLast, SourceReceives, SinkReceives;
    }
  }

  /** A flush of a source in service ends at a port that is not idle, with all messages home: the
      port becomes idle unless it is unrouted. */
  lemma FlushEndsIdle(events: seq<Event>, e: Event)
    requires Allowed(Start(), events) && Run(Start(), events).life == Running && Enabled(Run(Start(), events), e)
    requires var s := Run(Start(), events); FLUSHING in s.port.flags && FLUSHING !in Next(s, e).port.flags
    ensures var s := Run(Start(), events);
            && IDLE !in s.port.flags && multiset(s.port.queue) == All(s.n)
            && Line(Next(s, e)) == [] && (Routed(Next(s, e)) ==> IDLE in Next(s, e).port.flags)
  {
    RunInv(events);
    var s := Run(Start(), events);
    FlushEndsBy(s, e);
    ControlFindsAllHome(events);
    FlushEnded(s, e);
  }

  lemma FlushEnded(s: State, e: Event)
    requires Inv(s) && s.life == Running && Enabled(s, e) && e.Dispatch? && s.core != []
    requires !s.core[0].toSink && s.core[0].m == CONTROL && s.core[0].opcode != Unregister
    ensures IDLE !in s.port.flags && Line(Next(s, e)) == [] && (Routed(Next(s, e)) ==> IDLE in Next(s, e).port.flags)
  {
    hide *;
    var p, r := s.core[0], s.(core := s.core[1..]);
    TakeHead(s);
    HeadOfLine(s, p, r);
    ControlTaken(s, e);
    LineIgnored(r, Next(s, e));
  }

  lemma ControlTaken(s: State, e: Event)
    requires s.life == Running && Enabled(s, e) && e.Dispatch? && s.core != [] && FLUSHING in s.port.flags
    requires IDLE !in s.port.flags
    requires !s.core[0].toSink && s.core[0].m == CONTROL && s.core[0].opcode != Unregister
    ensures var r := s.(core := s.core[1..]);
            && Next(s, e).core == r.core && Next(s, e).sink == r.sink
            && (Routed(Next(s, e)) ==> IDLE in Next(s, e).port.flags)
  {
    hide SinkReceives;
  }

  // -------------------------------------------------------------- releases

  /** The step releases the pool and its buffers. */
  predicate Releases(s: State, e: Event) {
    Enabled(s, e) && Routed(s) && !Routed(Next(s, e))
  }

  /** Which events can release the pool. */
  lemma WhoReleases(s: State, e: Event)
    requires Inv(s) && Releases(s, e)
    ensures ((e.UnrouteCommand? || e == UnregisterSource) && FlushedAtOnce(s.port) && s.life == Running)
         || (e.Dispatch? && !s.core[0].toSink && s.core[0].m == CONTROL)
  {
    if e.Dispatch? {
      hide Next;
      DispatchReleases(s, e.save);
    } else {
      hide Inv, SinkReceives, SourceReceives, SinkPurge, Line, Travelling;
    }
  }

  lemma DispatchReleases(s: State, save: bool)
    requires Inv(s) && s.core != [] && Routed(s) && !Routed(Next(s, Dispatch(save)))
    ensures !s.core[0].toSink && s.core[0].m == CONTROL
  {
    var p, r := s.core[0], s.(core := s.core[1..]);
    assert Next(s, Dispatch(save)) ==
           if p.toSink then SinkReceives(r, p.m, p.opcode, save) else SourceReceives(r, p.m, p.opcode);
    assert InHand(s, p, r);
    Parts(s);
    OpcodesTail(s);
    hide Inv, InHand, SinkReceives, Next, Line, Travelling, OpcodesFit, InOnePlace, ControlLast, SinkFits, PortFits;
    if p.toSink {
      if s.sink.life == Running {
        SinkKeepsPort(r, p.m, p.opcode, save);
      } else {
        ClosedForm(r, p.m, p.opcode, save);
      }
    } else {
      HeadOfLine(s, p, r);
    }
  }

  /** With everything in order, a release leaves nothing under way. */
  lemma ReleaseIsSafe(s: State, e: Event)
    requires Inv(s) && Releases(s, e)
    ensures forall m :: m in Line(s) ==> m == CONTROL
    ensures Line(Next(s, e)) == [] && !BounceDuringFlush(s, e)
  {
    hide *;
    ReleaseEnabled(s, e);
    WhoReleases(s, e);
    Parts(s);
    if e.Dispatch? {
      ControlInHand(s, e);
    } else {
      AtOnceMeansHome(s);
      NotBounced(s, e);
    }
    StepKeeps(s, e);
    EmptyLine(Next(s, e));
  }

  lemma ReleaseEnabled(s: State, e: Event)
    requires Releases(s, e)
    ensures Enabled(s, e) && Routed(s) && !Routed(Next(s, e))
  {
  }

  lemma NotBounced(s: State, e: Event)
    requires !e.Dispatch? || (s.core != [] && s.core[0].m == CONTROL)
    ensures !BounceDuringFlush(s, e)
  {
  }

  lemma ControlInHand(s: State, e: Event)
    requires Inv(s) && Enabled(s, e) && e.Dispatch? && !s.core[0].toSink && s.core[0].m == CONTROL
    ensures Line(s) == [CONTROL] && !BounceDuringFlush(s, e)
  {
    assert s.core != [];
    hide *;
    TakeHead(s);
    HeadOfLine(s, s.core[0], s.(core := s.core[1..]));
    LastOne(s);
    NotBounced(s, e);
  }

  lemma LastOne(s: State)
    requires s.core != [] && Line(s) == [s.core[0].m] + Line(s.(core := s.core[1..])) && s.core[0].m == CONTROL
    requires Line(s.(core := s.core[1..])) == []
    ensures Line(s) == [CONTROL]
  {
  }

  lemma EmptyLine(s: State)
    requires Inv(s) && !Routed(s)
    ensures Line(s) == []
  {
  }

  // -------------------------------------------------------------- the balance

  /** How many unroute commands of a run find the port not routed. */
  function Unneeded(s: State, events: seq<Event>): nat
    requires Allowed(s, events)
    decreases |events|
  {
    if events == [] then 0
    else (if events[0].UnrouteCommand? && !Routed(s) then 1 else 0) + Unneeded(Next(s, events[0]), events[1..])
  }

  /** What is under way of an unrouting or a cleanup presupposes a routed port. */
  predicate RoutedWhile(s: State) {
    (UNROUTING in s.port.flags || s.life == Terminating) ==> Routed(s)
  }

  function Pools(s: State): int { if Routed(s) then 1 else 0 }

  lemma SinkLeavesSource(r: State, m: nat, op: Opcode, save: bool)
    ensures var s' := SinkReceives(r, m, op, save);
            && s'.port == r.port && s'.life == r.life && s'.n == r.n
            && s'.balance == r.balance && s'.answered == r.answered
  {
    hide Replies;
  }

  lemma SourceBalance(r: State, m: nat, op: Opcode)
    requires RoutedWhile(r)
    ensures var s' := SourceReceives(r, m, op); RoutedWhile(s') && s'.balance - Pools(s') == r.balance - Pools(r)
  {
  }

  lemma StepBalance(s: State, e: Event)
    requires RoutedWhile(s) && Enabled(s, e)
    ensures RoutedWhile(Next(s, e))
    ensures Next(s, e).balance - Pools(Next(s, e))
         == s.balance - Pools(s) - (if e.UnrouteCommand? && !Routed(s) then 1 else 0)
  {
    hide SourceReceives, SinkReceives;
    if e.Dispatch? {
      var p, r := s.core[0], s.(core := s.core[1..]);
      assert RoutedWhile(r) && Pools(r) == Pools(s);
      SourceBalance(r, p.m, p.opcode);
      SinkLeavesSource(r, p.m, p.opcode, e.save);
    }
  }

  lemma {:induction false} RunBalance(s: State, events: seq<Event>)
    requires RoutedWhile(s) && Allowed(s, events)
    ensures Run(s, events).balance - Pools(Run(s, events)) == s.balance - Pools(s) - Unneeded(s, events)
    decreases |events|
  {
    hide Next, Enabled, RoutedWhile;
    if events != [] {
      StepBalance(s, events[0]);
      RunBalance(Next(s, events[0]), events[1..]);
    }
  }

  /** Pools are released as often as they were obtained, but for the one of a routed port, if and
      only if no unroute command found the port not routed; each that did releases one too many. */
  lemma BalancedExactly(events: seq<Event>)
    requires Allowed(Start(), events)
    ensures var s := Run(Start(), events);
            && s.balance == Pools(s) - Unneeded(Start(), events)
            && (s.balance == Pools(s) <==> Unneeded(Start(), events) == 0)
  {
    RunBalance(Start(), events);
  }

  // -------------------------------------------------------------- given runs

  lemma {:induction false} Extend(s: State, events: seq<Event>, e: Event)
    requires Allowed(s, events) && Enabled(Run(s, events), e)
    ensures Allowed(s, events + [e]) && Run(s, events + [e]) == Next(Run(s, events), e)
    decreases |events|
  {
    hide Next, Enabled;
    if events == [] {
      assert [e][1..] == [];
    } else {
      assert (events + [e])[0] == events[0] && (events + [e])[1..] == events[1..] + [e];
      Extend(Next(s, events[0]), events[1..], e);
    }
  }

  /** One more event of a run, whose end is known. */
  lemma Further(events: seq<Event>, s: State, e: Event) returns (longer: seq<Event>, t: State)
    requires Allowed(Start(), events) && Run(Start(), events) == s && Enabled(s, e)
    ensures longer == events + [e] && t == Next(s, e) && Allowed(Start(), longer) && Run(Start(), longer) == t
  {
    Extend(Start(), events, e);
    longer, t := events + [e], Next(s, e);
  }

  /** The source's port in the runs given. */
  function Sending(queue: seq<nat>): PortState { PortState(queue, NIL, {CREATED, ROUTED}) }

  function Flushing(queue: seq<nat>): PortState { PortState(queue, NIL, {CREATED, ROUTED, FLUSHING}) }

  lemma Setup()
    ensures AfterRoute(Start().port, 1) == PortState([1], NIL, {CREATED, ROUTED, IDLE})
    ensures AfterProduce(PortState([1], NIL, {CREATED, ROUTED, IDLE})) == Sending([])
    ensures FlushSends(Sending([])) && AfterFlush(Sending([])) == Flushing([])
    ensures AfterFlush(Flushing([])) == Flushing([]) && !FlushSends(Flushing([])) && !FlushedAtOnce(Flushing([]))
  {
    assert Items(1) == [1] by {
      assert Items(0) == [];
    }
  }

  lemma Nothing()
    ensures Allowed(Start(), []) && Run(Start(), []) == Start()
  {
  }

  /** A routed port with one buffer sent out; the sink is in service or has left it before. */
  lemma SentOut(life: Life) returns (events: seq<Event>, s: State)
    ensures Allowed(Start(), events) && Run(Start(), events) == s
    ensures s == State(1, Sending([]), Running, multiset{},
                       [Packet(1, EmptyThisBuffer, true)], Sink(life, [], false), [], 1)
  {
    Setup();
    hide Run, Allowed, AfterRoute, AfterProduce;
    Nothing();
    events, s := Further([], Start(), RouteCommand(1));
    if life != Running {
      events, s := Further(events, s, UnregisterSink(life == Terminating));
    }
    events, s := Further(events, s, Produce);
  }

  /** A second unroute command, and the pool of the first is released once more. */
  lemma UnroutedTwice(c: nat, d: nat) returns (events: seq<Event>)
    ensures Allowed(Start(), events) && Run(Start(), events).balance == -1 && Run(Start(), events).answered == [c, d]
  {
    Setup();
    hide Run, Allowed, AfterRoute;
    Nothing();
    var s;
    events, s := Further([], Start(), RouteCommand(1));
    events, s := Further(events, s, UnrouteCommand(c));
    events, s := Further(events, s, UnrouteCommand(d));
  }
}
