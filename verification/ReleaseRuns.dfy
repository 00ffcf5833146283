/**
 When a release of the source's pool leaves a message of that pool under way: exactly after a
 bounce during a flush whose buffer the sink does not drop in time.
 */
module ReleaseRuns {
  import opened Handshake
  import opened HandshakeRuns
  import opened OutputPort
  import opened Pointers

  /** Whether the sink is destroyed before the k-th dispatch. */
  predicate DestroyedBefore(events: seq<Event>, k: nat)
    decreases |events|
  {
    && events != [] && k > 0
    && (events[0] == SinkDestroyed || DestroyedBefore(events[1..], if events[0].Dispatch? then k - 1 else k))
  }

  /** A buffer bounces at s, with rest to come.  It stays behind the control message when that is on
      its way back already, or when the sink is destroyed before the buffer, now the last of the
      queue, gets there: only a terminating sink drops it. */
  predicate Overtaken(s: State, rest: seq<Event>) {
    s.sink.life == Gone || CONTROL in Travelling(s.core, false) || DestroyedBefore(rest, |s.core|)
  }

  /** The first bounce during a flush leaves its buffer behind the control message. */
  predicate Overtakes(s: State, events: seq<Event>)
    requires Allowed(s, events)
    decreases |events|
  {
    && events != []
    && if BounceDuringFlush(s, events[0]) then Overtaken(s, events[1..]) else Overtakes(Next(s, events[0]), events[1..])
  }

  // ------------------------------------------------- both sides out of service

  ghost predicate Closed(s: State) { s.life == Terminating && s.sink.life != Running }

  /** The answer of a sink out of service. */
  function Answer(s: State, p: Packet): seq<Packet> {
    if !p.toSink || (s.sink.life == Terminating && p.opcode == Unregister) then [] else [Packet(p.m, Unregister, false)]
  }

  /** Only two kinds of events are left; a dispatch shortens the queue at its head, and appends at
      most an answer to it. */
  lemma ClosedStep(s: State, e: Event)
    requires Closed(s) && Enabled(s, e)
    ensures e == SinkDestroyed || e.Dispatch?
    ensures e == SinkDestroyed ==> s.sink.life == Terminating && Next(s, e) == s.(sink := s.sink.(life := Gone))
    ensures e.Dispatch? ==> var p := s.core[0];
              Next(s, e).core == s.core[1..] + Answer(s, p) && Next(s, e).sink == s.sink
    ensures e.Dispatch? && (s.core[0].toSink || s.core[0].m != CONTROL) ==>
              Next(s, e).life == Terminating && Next(s, e).port == s.port
    ensures e.Dispatch? && !(s.core[0].toSink || s.core[0].m != CONTROL) ==>
              Next(s, e).life == Gone && !Routed(Next(s, e))
  {
    hide Produced, StartFlush, SinkPurge;
  }

  lemma {:induction false} GoneForGood(s: State, events: seq<Event>)
    requires s.life == Gone && !Routed(s) && Allowed(s, events)
    ensures !Routed(Run(s, events))
    decreases |events|
  {
    hide Next, Enabled, Routed;
    if events != [] {
      NeverBack(s, events[0]);
      GoneForGood(Next(s, events[0]), events[1..]);
    }
  }

  lemma SomethingLeft(s: State)
    requires s.core != []
    ensures Line(s) != []
  {
    if Travelling(s.core, false) == [] && Travelling(s.core, true) == [] {
      NoPackets(s.core);
    }
  }

  /** The release comes at the end of a run that goes on. */
  ghost predicate ReleasedAtEnd(s: State, events: seq<Event>, e: Event) {
    Allowed(s, events) && Releases(Run(s, events), e)
  }

  lemma OneStep(s: State, events: seq<Event>, e: Event)
    requires ReleasedAtEnd(s, events, e) && events != []
    ensures Enabled(s, events[0]) && ReleasedAtEnd(Next(s, events[0]), events[1..], e)
    ensures Run(s, events) == Run(Next(s, events[0]), events[1..])
  {
  }

  /** A terminating source that released its pool will not release again. */
  lemma NotYet(s: State, events: seq<Event>, e: Event)
    requires Closed(s) && ReleasedAtEnd(s, events, e) && events != []
    ensures events[0] == SinkDestroyed
            || (events[0].Dispatch? && s.core != [] && (s.core[0].toSink || s.core[0].m != CONTROL))
  {
    hide Next, Routed;
    ClosedStep(s, events[0]);
    if !(events[0] == SinkDestroyed || s.core[0].toSink || s.core[0].m != CONTROL) {
      GoneForGood(Next(s, events[0]), events[1..]);
    }
  }

  /** The release itself takes the control message off the head of the queue. */
  lemma AtRelease(s: State, e: Event)
    requires Closed(s) && Releases(s, e)
    ensures e.Dispatch? && s.core != [] && !s.core[0].toSink && s.core[0].m == CONTROL
    ensures Next(s, e).core == s.core[1..]
  {
    ClosedStep(s, e);
    hide Next;
  }

  // ------------------------------------------------------------ too late

  /** The control message is on its way back with another message behind it. */
  ghost predicate Passed(s: State, i: nat, j: nat) {
    && Closed(s) && i < j < |s.core|
    && s.core[i].m == CONTROL && !s.core[i].toSink
  }

  lemma {:induction false} PassedLoses(s: State, i: nat, j: nat, events: seq<Event>, e: Event)
    requires Passed(s, i, j) && ReleasedAtEnd(s, events, e)
    ensures Line(Next(Run(s, events), e)) != []
    decreases |events|
  {
    hide Next, Line, Travelling;
    if events == [] {
      AtRelease(s, e);
      SomethingLeft(Next(s, e));
    } else {
      OneStep(s, events, e);
      NotYet(s, events, e);
      ClosedStep(s, events[0]);
      if events[0] == SinkDestroyed {
        PassedLoses(Next(s, events[0]), i, j, events[1..], e);
      } else {
        PassedLoses(Next(s, events[0]), i - 1, j - 1, events[1..], e);
      }
    }
  }

  /** The sink is gone: the buffer at k will come back, and the control message at i, which is on
      its way to the sink before it or else behind it on its way back, will be home first. */
  ghost predicate Doomed(s: State, k: nat, i: nat) {
    && Closed(s) && s.sink.life == Gone && k < |s.core| && i < |s.core| && i != k
    && s.core[k].toSink && s.core[k].m != CONTROL
    && s.core[i].m == CONTROL && (i > k ==> !s.core[i].toSink)
  }

  lemma {:induction false} DoomedLoses(s: State, k: nat, i: nat, events: seq<Event>, e: Event)
    requires Doomed(s, k, i) && ReleasedAtEnd(s, events, e)
    ensures Line(Next(Run(s, events), e)) != []
    decreases |events|
  {
    hide Next, Line, Travelling;
    if events == [] {
      AtRelease(s, e);
      SomethingLeft(Next(s, e));
    } else {
      OneStep(s, events, e);
      NotYet(s, events, e);
      ClosedStep(s, events[0]);
      var t := Next(s, events[0]);
      if k == 0 {
        assert t.core == s.core[1..] + [Packet(s.core[0].m, Unregister, false)];
        PassedLoses(t, i - 1, |s.core| - 1, events[1..], e);
      } else if i == 0 {
        assert t.core == s.core[1..] + [Packet(CONTROL, Unregister, false)];
        DoomedLoses(t, k - 1, |s.core| - 1, events[1..], e);
      } else {
        DoomedLoses(t, k - 1, i - 1, events[1..], e);
      }
    }
  }

  // ------------------------------------------------------------ in time

  /** The state as if the packet at k had been dropped. */
  function Without(s: State, k: nat): State
    requires k < |s.core|
  {
    s.(core := s.core[..k] + s.core[k + 1..], ignored := s.ignored + multiset{s.core[k].m})
  }

  /** The sink is terminating and will drop the buffer at k; but for the buffer all is in order. */
  ghost predicate Chased(s: State, k: nat, i: nat) {
    && Closed(s) && s.sink.life == Terminating && k < |s.core| && i < |s.core| && i != k
    && s.core[k].toSink && s.core[k].opcode == Unregister && s.core[k].m != CONTROL
    && s.core[i].m == CONTROL
    && (i > k ==> !s.core[i].toSink) && (i < k ==> s.core[i].opcode != Unregister)
    && (forall x :: 0 <= x < k && s.core[x].m == CONTROL ==> s.core[x].toSink)
    && Inv(Without(s, k))
  }

  lemma {:induction false} SafeOnceClosed(s: State, events: seq<Event>, e: Event)
    requires Inv(s) && s.life != Running && ReleasedAtEnd(s, events, e)
    ensures Line(Next(Run(s, events), e)) == []
    decreases |events|
  {
    hide Next, Line, Inv, Releases;
    if events == [] {
      ReleaseIsSafe(s, e);
    } else {
      OneStep(s, events, e);
      NeverBack(s, events[0]);
      StepKeeps(s, events[0]);
      SafeOnceClosed(Next(s, events[0]), events[1..], e);
    }
  }

  lemma WithoutStep(s: State, k: nat, i: nat, e: Event)
    requires Chased(s, k, i) && k > 0 && Enabled(s, e) && e.Dispatch? && (s.core[0].toSink || s.core[0].m != CONTROL)
    ensures Inv(Without(Next(s, e), k - 1))
  {
    var w, t := Without(s, k), Next(s, e);
    hide Inv, Line, Travelling;
    ClosedStep(s, e);
    assert w.core[0] == s.core[0];
    assert Closed(w) && Enabled(w, e);
    ClosedStep(w, e);
    var a := Answer(s, s.core[0]);
    assert t.core == s.core[1..] + a;
    WithoutTail(s.core, k, a);
    SameIgnored(s, k, e);
    assert Without(t, k - 1).core == Next(w, e).core;
    assert Without(t, k - 1) == Next(w, e);
    StepKeeps(w, e);
  }

  lemma WithoutTail(core: seq<Packet>, k: nat, a: seq<Packet>)
    requires 0 < k < |core|
    ensures var c := core[1..] + a;
            c[..k - 1] + c[k..] == (core[..k] + core[k + 1..])[1..] + a && c[k - 1] == core[k]
  {
  }

  /** The other parts of the state do not depend on the dropped buffer. */
  lemma SameIgnored(s: State, k: nat, e: Event)
    requires Closed(s) && 0 < k < |s.core| && e.Dispatch? && (s.core[0].toSink || s.core[0].m != CONTROL)
    ensures var t, u := Next(s, e), Next(Without(s, k), e);
            u == t.(core := u.core, ignored := t.ignored + multiset{s.core[k].m})
  {
    var w := Without(s, k);
    assert w.core[0] == s.core[0];
    hide SinkPurge, StartFlush;
    assert s.ignored + multiset{s.core[0].m} + multiset{s.core[k].m}
        == s.ignored + multiset{s.core[k].m} + multiset{s.core[0].m};
  }

  lemma DroppedAtHead(s: State, e: Event)
    requires Closed(s) && s.sink.life == Terminating && s.core != [] && s.core[0].toSink
    requires s.core[0].opcode == Unregister
    requires e.Dispatch?
    ensures Next(s, e) == Without(s, 0)
  {
    assert s.core[..0] + s.core[1..] == s.core[1..];
  }

  lemma {:induction false} ChasedExactly(s: State, k: nat, i: nat, events: seq<Event>, e: Event)
    requires Chased(s, k, i) && ReleasedAtEnd(s, events, e)
    ensures Line(Next(Run(s, events), e)) != [] <==> DestroyedBefore(events, k + 1)
    decreases |events|
  {
    hide Next, Line, Travelling, Inv;
    if events == [] {
      AtRelease(s, e);
    } else {
      OneStep(s, events, e);
      NotYet(s, events, e);
      ClosedStep(s, events[0]);
      var t := Next(s, events[0]);
      if events[0] == SinkDestroyed {
        DoomedLoses(t, k, i, events[1..], e);
      } else if k == 0 {
        DroppedAtHead(s, events[0]);
        SafeOnceClosed(t, events[1..], e);
      } else {
        WithoutStep(s, k, i, events[0]);
        StillChased(s, k, i, events[0]);
        ChasedExactly(t, k - 1, if i == 0 then |s.core| - 1 else i - 1, events[1..], e);
      }
    }
  }

  lemma StillChased(s: State, k: nat, i: nat, e: Event)
    requires Chased(s, k, i) && k > 0 && Enabled(s, e) && e.Dispatch? && (s.core[0].toSink || s.core[0].m != CONTROL)
    requires Inv(Without(Next(s, e), k - 1))
    ensures Chased(Next(s, e), k - 1, if i == 0 then |s.core| - 1 else i - 1)
  {
    hide Next, Line, Travelling, Inv;
    ClosedStep(s, e);
  }

  // ------------------------------------------------------------- the bounce

  lemma {:induction false} TravellingAt(core: seq<Packet>, m: nat, toSink: bool) returns (i: nat)
    requires m in Travelling(core, toSink)
    ensures i < |core| && core[i].m == m && core[i].toSink == toSink
  {
    if core[0].m == m && core[0].toSink == toSink {
      i := 0;
    } else {
      i := TravellingAt(core[1..], m, toSink);
      i := i + 1;
    }
  }

  lemma {:induction false} InTravelling(core: seq<Packet>, i: nat)
    requires i < |core|
    ensures core[i].m in Travelling(core, core[i].toSink)
  {
    if i > 0 {
      InTravelling(core[1..], i - 1);
    }
  }

  lemma LifeDoesNotMatter(s: State)
    requires Inv(s) && s.life == Running && Routed(s) && FLUSHING in s.port.flags
    ensures Inv(s.(life := Terminating))
  {
    hide Inv, Line;
    Terminates(s);
  }

  /** But for the buffer, a bounce leaves everything in order. */
  lemma BounceWithout(s: State, e: Event)
    requires Inv(s) && Enabled(s, e) && BounceDuringFlush(s, e)
    ensures var t := Next(s, e); |t.core| == |s.core| && t.core != [] && Inv(Without(t, |t.core| - 1))
  {
    hide *;
    BounceTerminates(s, e);
    BounceFacts(s, e);
    var p, r := s.core[0], s.(core := s.core[1..]);
    TakeHead(s);
    HeadOfLine(s, p, r);
    LifeDoesNotMatter(s);
    var s1, r1 := s.(life := Terminating), r.(life := Terminating);
    TakeHead(s1);
    SourceDrops(s1, p, r1);
    BouncedTail(s, Next(s, e));
  }

  lemma BouncedTail(s: State, t: State)
    requires s.core != []
    requires t == ToSink(s.(core := s.core[1..]), s.core[0].m, Unregister).(life := Terminating)
    ensures |t.core| == |s.core|
    ensures Without(t, |t.core| - 1)
         == s.(core := s.core[1..], life := Terminating, ignored := s.ignored + multiset{s.core[0].m})
  {
    assert t.core == s.core[1..] + [Packet(s.core[0].m, Unregister, true)];
    assert t.core[..|t.core| - 1] + t.core[|t.core|..] == s.core[1..];
  }

  lemma ControlInCore(s: State)
    requires Inv(s) && HomeIsData(s) && FLUSHING in s.port.flags && s.life == Running && s.sink.queue == []
    requires CONTROL !in Travelling(s.core, false)
    ensures CONTROL in Travelling(s.core, true)
  {
    hide Travelling;
    ControlIsIn(s);
    assert CONTROL in Travelling(s.core, false) + s.sink.queue + Travelling(s.core, true);
  }

  lemma AfterBounce(s: State, events: seq<Event>, e: Event)
    requires Inv(s) && HomeIsData(s) && ReleasedAtEnd(s, events, e) && events != [] && BounceDuringFlush(s, events[0])
    ensures Line(Next(Run(s, events), e)) != [] <==> Overtaken(s, events[1..])
  {
    hide *;
    OneStep(s, events, e);
    var t := Next(s, events[0]);
    var k := |s.core| - 1;
    BounceFacts(s, events[0]);
    if CONTROL in Travelling(s.core, false) {
      var i := TravellingAt(s.core, CONTROL, false);
      PassedAfter(s, t, i);
      PassedLoses(t, i - 1, k, events[1..], e);
      OvertakenBy(s, events[1..]);
    } else {
      ControlInCore(s);
      var i := TravellingAt(s.core, CONTROL, true);
      OvertakenBy(s, events[1..]);
      if s.sink.life == Gone {
        DoomedAfter(s, t, i);
        DoomedLoses(t, k, i - 1, events[1..], e);
      } else {
        BounceWithout(s, events[0]);
        ChasedAfter(s, t, i);
        ChasedExactly(t, k, i - 1, events[1..], e);
      }
    }
  }

  lemma OvertakenBy(s: State, rest: seq<Event>)
    ensures CONTROL in Travelling(s.core, false) || s.sink.life == Gone ==> Overtaken(s, rest)
    ensures CONTROL !in Travelling(s.core, false) && s.sink.life != Gone ==>
              (Overtaken(s, rest) <==> DestroyedBefore(rest, |s.core|))
  {
  }

  /** The bounced message at the head of the queue goes back to its end. */
  ghost predicate SentBackOut(s: State, t: State) {
    && s.core != [] && t.core == s.core[1..] + [Packet(s.core[0].m, Unregister, true)]
    && t.sink == s.sink && t.life == Terminating && s.sink.life != Running && s.core[0].m != CONTROL
    && (forall i :: 0 <= i < |s.core| && s.core[i].toSink ==> s.core[i].opcode != Unregister)
  }

  lemma PassedAfter(s: State, t: State, i: nat)
    requires SentBackOut(s, t) && i < |s.core| && s.core[i].m == CONTROL && !s.core[i].toSink
    ensures i > 0 && Passed(t, i - 1, |s.core| - 1)
  {
  }

  lemma DoomedAfter(s: State, t: State, i: nat)
    requires SentBackOut(s, t) && i < |s.core| && s.core[i].m == CONTROL && s.core[i].toSink && s.sink.life == Gone
    ensures i > 0 && Doomed(t, |s.core| - 1, i - 1)
  {
  }

  lemma ChasedAfter(s: State, t: State, i: nat)
    requires SentBackOut(s, t) && i < |s.core| && s.core[i].m == CONTROL && s.core[i].toSink
    requires s.sink.life == Terminating
    requires CONTROL !in Travelling(s.core, false) && Inv(Without(t, |t.core| - 1))
    ensures i > 0 && Chased(t, |s.core| - 1, i - 1)
  {
    hide Inv, Travelling;
    assert t.core[i - 1] == s.core[i];
    forall x | 0 <= x < |s.core| - 1 && t.core[x].m == CONTROL ensures t.core[x].toSink {
      assert t.core[x] == s.core[x + 1];
      InTravelling(s.core, x + 1);
    }
  }

  lemma BounceFacts(s: State, e: Event)
    requires Inv(s) && Enabled(s, e) && BounceDuringFlush(s, e)
    ensures FLUSHING in s.port.flags && s.life == Running && s.core != [] && SentBackOut(s, Next(s, e))
    ensures !s.core[0].toSink && s.core[0].m != CONTROL && Routed(s)
    ensures s.sink.life == Gone || s.sink.life == Terminating
    ensures s.sink.life != Running && s.sink.queue == []
  {
    BounceTerminates(s, e);
    hide Line, Next;
  }

  lemma {:induction false} NoSecondBounce(s: State, events: seq<Event>)
    requires s.life != Running && Allowed(s, events)
    ensures !Overtakes(s, events)
    decreases |events|
  {
    hide Next, Enabled;
    if events != [] {
      NeverBack(s, events[0]);
      NoSecondBounce(Next(s, events[0]), events[1..]);
    }
  }

  lemma {:induction false} ReleasedFrom(s: State, events: seq<Event>, e: Event)
    requires Inv(s) && HomeIsData(s) && ReleasedAtEnd(s, events, e)
    ensures Line(Next(Run(s, events), e)) != [] <==> Overtakes(s, events)
    decreases |events|
  {
    hide Next, Line, Inv, HomeIsData, BounceDuringFlush, Overtaken, Releases;
    if events == [] {
      ReleaseIsSafe(s, e);
    } else if BounceDuringFlush(s, events[0]) {
      AfterBounce(s, events, e);
    } else {
      OneStep(s, events, e);
      StepKeeps(s, events[0]);
      HomeStaysData(s, events[0]);
      ReleasedFrom(Next(s, events[0]), events[1..], e);
    }
  }

  /** In every run, a release of the pool leaves one of its messages under way if and only if a
      buffer has bounced during a flush with the control message on its way back already, or off a
      sink that was gone or was destroyed before the buffer came to it again. */
  lemma ReleasedInFlightExactly(events: seq<Event>, e: Event)
    requires Allowed(Start(), events) && Releases(Run(Start(), events), e)
    ensures Line(Next(Run(Start(), events), e)) != [] <==> Overtakes(Start(), events)
  {
    StartInv();
    ReleasedFrom(Start(), events, e);
  }

  // ------------------------------------------------------------- given runs

  /** The sink is gone when the source sends its last buffer and ends its stream: the buffer bounces,
      cleanup sends it out again behind the control message, and the control message's return
      releases the pool with the buffer still in the core queue. */
  lemma FreedInFlight() returns (events: seq<Event>)
    ensures Allowed(Start(), events)
    ensures var s := Run(Start(), events);
            !Routed(s) && s.life == Gone && s.core == [Packet(1, Unregister, true)]
  {
    var s;
    events, s := SentOut(Gone);
    Setup();
    hide Run, Allowed, AfterFlush, BounceDuringFlush;
    events, s := Further(events, s, EndOfStream);
    assert s.core == [Packet(1, EmptyThisBuffer, true), Packet(CONTROL, EmptyThisBuffer, true)];
    events, s := Further(events, s, Dispatch(false));
    assert s.core == [Packet(CONTROL, EmptyThisBuffer, true), Packet(1, Unregister, false)];
    events, s := Further(events, s, Dispatch(false));
    assert s.core == [Packet(1, Unregister, false), Packet(CONTROL, Unregister, false)];
    assert s.port == Flushing([]) && s.life == Running && s.sink.life == Gone;
    events, s := Further(events, s, Dispatch(false));
    assert s.core == [Packet(CONTROL, Unregister, false), Packet(1, Unregister, true)];
    assert s.port == Flushing([]) && s.life == Terminating;
    events, s := Further(events, s, Dispatch(false));
  }

  /** The sink is terminating and the control message has not reached it when the buffer bounces:
      the sink drops the buffer, and nothing is under way at the release. */
  lemma FreedInTime() returns (events: seq<Event>)
    ensures Allowed(Start(), events)
    ensures var s := Run(Start(), events); !Routed(s) && s.life == Gone && s.core == []
  {
    var s;
    events, s := SentOut(Terminating);
    Setup();
    hide Run, Allowed, AfterFlush, BounceDuringFlush;
    events, s := Further(events, s, Dispatch(false));
    assert s.core == [Packet(1, Unregister, false)];
    events, s := Further(events, s, FlushCommand(1));
    assert s.core == [Packet(1, Unregister, false), Packet(CONTROL, Flush, true)];
    events, s := Further(events, s, Dispatch(false));
    assert s.core == [Packet(CONTROL, Flush, true), Packet(1, Unregister, true)];
    assert s.port == Flushing([]) && s.life == Terminating;
    events, s := Further(events, s, Dispatch(false));
    assert s.core == [Packet(1, Unregister, true), Packet(CONTROL, Unregister, false)];
    events, s := Further(events, s, Dispatch(false));
    assert s.core == [Packet(CONTROL, Unregister, false)];
    events, s := Further(events, s, Dispatch(false));
  }
}
