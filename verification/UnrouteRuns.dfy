/**
 Which unroute commands are answered: a command that finds the port busy waits for the end of the
 flush that is going on then, and is lost when something else ends it.
 */
module UnrouteRuns {
  import opened Handshake
  import opened HandshakeRuns
  import opened OutputPort
  import opened Pointers

  /** The control message is under way as the end of a stream: as a buffer in the core queue, or as
      data in the input port of the sink. */
  ghost predicate EndOfStreamOut(s: State) {
    || (CONTROL in s.sink.queue && !s.sink.saved)
    || exists i :: 0 <= i < |s.core| && EndPacket(s.core[i])
  }

  predicate EndPacket(p: Packet) { p.m == CONTROL && (p.opcode == EmptyThisBuffer || p.opcode == FillThisBuffer) }

  /** No flush command is under way. */
  ghost predicate NoFlushOut(s: State) {
    !s.sink.saved && forall i :: 0 <= i < |s.core| ==> s.core[i].opcode != Flush
  }

  // ---------------------------------------------------- one control message

  ghost function Out(core: seq<Packet>, m: nat): nat {
    multiset(Travelling(core, false))[m] + multiset(Travelling(core, true))[m]
  }

  lemma OutHead(core: seq<Packet>, m: nat)
    requires core != []
    ensures Out(core, m) == Out(core[1..], m) + (if core[0].m == m then 1 else 0)
  {
    HeadCount(core, m, false);
    HeadCount(core, m, true);
  }

  lemma HeadCount(core: seq<Packet>, m: nat, toSink: bool)
    requires core != []
    ensures multiset(Travelling(core, toSink))[m]
         == multiset(Travelling(core[1..], toSink))[m] + (if core[0].m == m && core[0].toSink == toSink then 1 else 0)
  {
    var head := if core[0].toSink == toSink then [core[0].m] else [];
    var tail := Travelling(core[1..], toSink);
    assert multiset(head + tail) == multiset(head) + multiset(tail);
  }

  lemma {:induction false} OneOut(core: seq<Packet>, i: nat)
    requires i < |core|
    ensures Out(core, core[i].m) >= 1
  {
    hide Out;
    OutHead(core, core[i].m);
    if i > 0 {
      OneOut(core[1..], i - 1);
    }
  }

  lemma {:induction false} TwoOut(core: seq<Packet>, i: nat, j: nat)
    requires i < j < |core| && core[i].m == core[j].m
    ensures Out(core, core[i].m) >= 2
  {
    hide Out;
    OutHead(core, core[i].m);
    if i > 0 {
      TwoOut(core[1..], i - 1, j - 1);
    } else {
      OneOut(core[1..], j - 1);
    }
  }

  lemma OutInLine(s: State)
    requires InOnePlace(s)
    ensures Out(s.core, CONTROL) + multiset(s.sink.queue)[CONTROL] <= 1
    ensures FLUSHING !in s.port.flags ==> Out(s.core, CONTROL) + multiset(s.sink.queue)[CONTROL] == 0
  {
    ControlCount(s);
    var a, b, c := Travelling(s.core, false), s.sink.queue, Travelling(s.core, true);
    assert multiset(a + b + c) == multiset(a) + multiset(b) + multiset(c);
    assert Line(s) == a + b + c;
    hide Travelling, InOnePlace;
    if FLUSHING !in s.port.flags {
      assert CONTROL !in multiset(Line(s));
    }
  }

  /** While no flush is going on, no control message is under way. */
  lemma NoneOut(s: State)
    requires Inv(s) && FLUSHING !in s.port.flags
    ensures !EndOfStreamOut(s)
  {
    Parts(s);
    hide Inv, Line, Travelling, OpcodesFit, InOnePlace, ControlLast, PortFits;
    OutInLine(s);
    forall i | 0 <= i < |s.core| ensures !EndPacket(s.core[i]) {
      OneOut(s.core, i);
    }
    assert CONTROL !in multiset(s.sink.queue);
  }

  /** A packet that ends the stream is the only control message under way. */
  lemma NoFlushBeside(s: State, j: nat)
    requires j < |s.core| && EndPacket(s.core[j])
    requires Out(s.core, CONTROL) + multiset(s.sink.queue)[CONTROL] <= 1
    requires forall i :: 0 <= i < |s.core| && s.core[i].opcode == Flush ==> s.core[i].m == CONTROL
    requires s.sink.saved ==> s.sink.queue == [CONTROL]
    ensures NoFlushOut(s)
  {
    hide Out;
    OneOut(s.core, j);
    forall i | 0 <= i < |s.core| ensures s.core[i].opcode != Flush {
      if s.core[i].opcode == Flush {
        TwoOut(s.core, if i < j then i else j, if i < j then j else i);
      }
    }
    assert multiset([CONTROL])[CONTROL] == 1;
  }

  lemma NoFlushInCore(s: State)
    requires Out(s.core, CONTROL) == 0 && !s.sink.saved
    requires forall i :: 0 <= i < |s.core| && s.core[i].opcode == Flush ==> s.core[i].m == CONTROL
    ensures NoFlushOut(s)
  {
    hide Out;
    forall i | 0 <= i < |s.core| ensures s.core[i].opcode != Flush {
      if s.core[i].opcode == Flush {
        OneOut(s.core, i);
      }
    }
  }

  /** The end of a stream excludes a flush command. */
  lemma EndExcludesFlush(s: State)
    requires Inv(s) && EndOfStreamOut(s)
    ensures NoFlushOut(s)
  {
    hide Inv, Out, NoFlushOut, EndPacket, Line;
    InvPlaces(s);
    FlushIsControl(s);
    OutInLine(s);
    if CONTROL in s.sink.queue && !s.sink.saved {
      NoFlushInCore(s);
    } else {
      var j :| 0 <= j < |s.core| && EndPacket(s.core[j]);
      NoFlushBeside(s, j);
    }
  }

  lemma InvPlaces(s: State)
    requires Inv(s)
    ensures InOnePlace(s)
  {
    hide Line;
  }

  lemma FlushIsControl(s: State)
    requires Inv(s)
    ensures forall i :: 0 <= i < |s.core| && s.core[i].opcode == Flush ==> s.core[i].m == CONTROL
    ensures CONTROL in s.sink.queue ==> multiset(s.sink.queue)[CONTROL] >= 1
    ensures s.sink.saved ==> s.sink.queue == [CONTROL]
  {
    hide Line;
  }

  // ------------------------------------------------------- the flush goes on

  /** A step of a source in service, during which the flush goes on. */
  ghost predicate Midway(s: State, e: Event) {
    && Inv(s) && s.life == Running && FLUSHING in s.port.flags && Enabled(s, e)
    && Next(s, e).life == Running && FLUSHING in Next(s, e).port.flags
  }

  lemma MidwayFacts(s: State, e: Event)
    requires Midway(s, e)
    ensures Enabled(s, e) && s.life == Running && FLUSHING in s.port.flags && Routed(s) && !FlushedAtOnce(s.port)
    ensures Next(s, e).life == Running && FLUSHING in Next(s, e).port.flags
    ensures SinkFits(s.sink) && OpcodesFit(s)
  {
    hide Next, Line;
  }

  /** What the flush leaves as it is: the answers, and the pending unroute command. */
  ghost predicate PortStays(s: State, t: State) {
    && t.answered == s.answered && t.port.unroute == s.port.unroute
    && (UNROUTING in t.port.flags <==> UNROUTING in s.port.flags)
  }

  lemma BusyFlush(s: State, op: Opcode)
    requires FLUSHING in s.port.flags && !FlushedAtOnce(s.port)
    ensures StartFlush(s, op) == s
  {
  }

  /** Commands to the source, while a flush is going on. */
  lemma MidwayCommand(s: State, e: Event)
    requires Enabled(s, e) && s.life == Running && FLUSHING in s.port.flags && Routed(s) && !FlushedAtOnce(s.port)
    requires e.Produce? || e.EndOfStream? || e.FlushCommand?
             || e.UnrouteCommand? || e.UnregisterSource? || e.RouteCommand?
    requires Next(s, e).life == Running
    ensures e.EndOfStream? || e.FlushCommand? || e.UnrouteCommand?
    ensures Next(s, e) == if e.UnrouteCommand? then s.(port := AfterUnrouteStart(s.port, e.c)) else s
  {
    BusyFlush(s, Flush);
    BusyFlush(s, FillThisBuffer);
    hide StartFlush, FlushedAtOnce, Produced;
  }

  /** The input port of the sink stays as it is, or is emptied. */
  predicate SameOrEmpty(k: Sink, k': Sink) {
    (k'.queue == k.queue && k'.saved == k.saved) || (k'.queue == [] && !k'.saved)
  }

  /** Events at the sink. */
  lemma MidwaySink(s: State, e: Event)
    requires Enabled(s, e)
    requires e.SinkComplete? || e.SinkFlushed? || e.SinkPropagated? || e.UnregisterSink? || e.SinkDestroyed?
    ensures Next(s, e).port == s.port && Next(s, e).answered == s.answered
    ensures e != SinkComplete ==> Next(s, e).core == s.core || Next(s, e).core == SinkPurge(s).core
    ensures e != SinkComplete ==> SameOrEmpty(s.sink, Next(s, e).sink)
  {
    hide Replies;
  }

  lemma MidwayReturned(r: State, m: nat, op: Opcode)
    requires r.life == Running && FLUSHING in r.port.flags && Routed(r)
    requires var t := SourceReceives(r, m, op); t.life == Running && FLUSHING in t.port.flags
    ensures var t := SourceReceives(r, m, op); t.core == r.core && t.sink == r.sink && PortStays(r, t)
  {
  }

  lemma MidwayDispatch(s: State, save: bool)
    requires Enabled(s, Dispatch(save)) && s.life == Running && FLUSHING in s.port.flags && Routed(s)
    requires var t := Next(s, Dispatch(save)); t.life == Running && FLUSHING in t.port.flags
    ensures var t := Next(s, Dispatch(save));
            PortStays(s, t) && (!s.core[0].toSink ==> t.core == s.core[1..] && t.sink == s.sink)
  {
    hide SinkReceives, SourceReceives;
    var p, r := s.core[0], s.(core := s.core[1..]);
    if p.toSink {
      SinkLeavesSource(r, p.m, p.opcode, save);
    } else {
      MidwayReturned(r, p.m, p.opcode);
    }
  }

  /** What happens to the answers and the pending command. */
  lemma MidwayStep(s: State, e: Event)
    requires Midway(s, e)
    ensures var t := Next(s, e);
      && t.answered == s.answered && (UNROUTING in t.port.flags <==> UNROUTING in s.port.flags || e.UnrouteCommand?)
      && (e.UnrouteCommand? ==> t.port.unroute == e.c) && (!e.UnrouteCommand? ==> t.port.unroute == s.port.unroute)
  {
    hide *;
    MidwayFacts(s, e);
    if e.Dispatch? {
      MidwayDispatch(s, e.save);
      StaysMeans(s, Next(s, e));
    } else if e.SinkComplete? || e.SinkFlushed? || e.SinkPropagated? || e.UnregisterSink? || e.SinkDestroyed? {
      MidwaySink(s, e);
    } else {
      MidwayCommand(s, e);
      UnrouteFlags(s.port);
    }
  }

  lemma StaysMeans(s: State, t: State)
    requires PortStays(s, t)
    ensures t.answered == s.answered && t.port.unroute == s.port.unroute
    ensures UNROUTING in t.port.flags <==> UNROUTING in s.port.flags
  {
  }

  lemma UnrouteFlags(p: PortState)
    ensures forall c :: UNROUTING in AfterUnrouteStart(p, c).flags && AfterUnrouteStart(p, c).unroute == c
  {
  }

  /** A packet that stays, or comes from the sink. */
  lemma MidwayCore(s: State, e: Event)
    requires Midway(s, e) && !e.Dispatch? && e != SinkComplete
    ensures Next(s, e).core == s.core || Next(s, e).core == SinkPurge(s).core
    ensures SameOrEmpty(s.sink, Next(s, e).sink)
  {
    hide *;
    SameSink(s);
    MidwayFacts(s, e);
    if e.SinkFlushed? || e.SinkPropagated? || e.UnregisterSink? || e.SinkDestroyed? {
      MidwaySink(s, e);
    } else {
      MidwayCommand(s, e);
    }
  }

  lemma SameSink(s: State)
    ensures SameOrEmpty(s.sink, s.sink)
  {
  }

  lemma RepliesFit(s: State, i: nat)
    requires SinkFits(s.sink) && |s.core| <= i < |SinkPurge(s).core|
    ensures var p := SinkPurge(s).core[i];
            && p.m in s.sink.queue && !p.toSink && (p.opcode == Flush <==> s.sink.saved)
            && (p.opcode == Flush || p.opcode == FillThisBuffer)
  {
    assert SinkPurge(s).core[i] == Replies(s.sink.queue, if s.sink.saved then Flush else FillThisBuffer)[i - |s.core|];
  }

  lemma PurgeKind(s: State)
    requires SinkFits(s.sink)
    ensures NoFlushOut(s) ==> NoFlushOut(SinkPurge(s))
    ensures !EndOfStreamOut(s) ==> !EndOfStreamOut(SinkPurge(s))
  {
    var t := SinkPurge(s);
    hide SinkPurge, Replies;
    PurgeForm(s);
    forall i | |s.core| <= i < |t.core|
      ensures NoFlushOut(s) ==> t.core[i].opcode != Flush
      ensures !EndOfStreamOut(s) ==> !EndPacket(t.core[i])
    {
      RepliesFit(s, i);
    }
  }

  lemma PurgeForm(s: State)
    ensures var t := SinkPurge(s);
            && |t.core| >= |s.core| && (forall i :: 0 <= i < |s.core| ==> t.core[i] == s.core[i])
            && t.sink.queue == [] && !t.sink.saved
  {
  }

  /** An end of stream stays one, or bounces, and so does a flush. */
  lemma KindStays(s: State, e: Event)
    requires Midway(s, e)
    ensures NoFlushOut(s) ==> NoFlushOut(Next(s, e))
    ensures !EndOfStreamOut(s) ==> !EndOfStreamOut(Next(s, e))
  {
    hide *;
    MidwayFacts(s, e);
    if e.Dispatch? {
      HandedOver(s, e);
      MidwayDispatch(s, e.save);
      Taken(s);
      if s.core[0].toSink {
        ToTheSink(s, e.save);
        SinkKind(s, s.(core := s.core[1..]), s.core[0], e.save);
      } else {
        KindOfPort(s.(core := s.core[1..]), Next(s, e));
      }
    } else if e == SinkComplete {
      CompleteKind(s);
    } else {
      MidwayCore(s, e);
      PurgeKind(s);
      OtherKind(s, Next(s, e));
    }
  }

  lemma HandedOver(s: State, e: Event)
    requires Enabled(s, e) && e.Dispatch?
    ensures s.core != []
  {
  }

  lemma ToTheSink(s: State, save: bool)
    requires s.core != [] && s.core[0].toSink
    ensures var p, r := s.core[0], s.(core := s.core[1..]);
            InHand(s, p, r) && Next(s, Dispatch(save)) == SinkReceives(r, p.m, p.opcode, save)
  {
  }

  lemma CompleteKind(s: State)
    requires Enabled(s, SinkComplete)
    ensures NoFlushOut(s) ==> NoFlushOut(Next(s, SinkComplete))
    ensures !EndOfStreamOut(s) ==> !EndOfStreamOut(Next(s, SinkComplete))
  {
  }

  /** Nothing else changes core queue and sink but a purge of the sink's port. */
  lemma OtherKind(s: State, t: State)
    requires t.core == s.core || t.core == SinkPurge(s).core
    requires SameOrEmpty(s.sink, t.sink)
    ensures NoFlushOut(s) && NoFlushOut(SinkPurge(s)) ==> NoFlushOut(t)
    ensures !EndOfStreamOut(s) && !EndOfStreamOut(SinkPurge(s)) ==> !EndOfStreamOut(t)
  {
    hide SinkPurge;
  }

  lemma Taken(s: State)
    requires s.core != []
    ensures var r := s.(core := s.core[1..]);
            && (NoFlushOut(s) ==> NoFlushOut(r) && s.core[0].opcode != Flush)
            && (!EndOfStreamOut(s) ==> !EndOfStreamOut(r) && !EndPacket(s.core[0]))
  {
    var r := s.(core := s.core[1..]);
    assert forall i :: 0 <= i < |r.core| ==> r.core[i] == s.core[i + 1];
  }

  lemma Appended(r: State, p: Packet)
    ensures var t := r.(core := r.core + [p]);
            && (NoFlushOut(r) && p.opcode != Flush ==> NoFlushOut(t))
            && (!EndOfStreamOut(r) && !EndPacket(p) ==> !EndOfStreamOut(t))
  {
  }

  /** What the sink makes of a packet is of the same kind. */
  lemma SinkKind(s: State, r: State, p: Packet, save: bool)
    requires InHand(s, p, r) && OpcodesFit(s) && SinkFits(s.sink) && p.toSink
    requires s.life == Running
    ensures NoFlushOut(r) && p.opcode != Flush ==> NoFlushOut(SinkReceives(r, p.m, p.opcode, save))
    ensures !EndOfStreamOut(r) && !EndPacket(p) ==> !EndOfStreamOut(SinkReceives(r, p.m, p.opcode, save))
  {
    OpcodesTail(s);
    Appended(r, Packet(p.m, Unregister, false));
    Appended(r, Packet(p.m, FillThisBuffer, false));
    if r.sink.life == Running && p.opcode == Flush {
      FlushKind(r, p.m, save);
    } else if r.sink.life == Running && p.opcode == EmptyThisBuffer {
      hide OpcodesFit;
      QueueKind(r, p.m, save);
    }
  }

  lemma QueueKind(r: State, m: nat, save: bool)
    requires r.sink.life == Running && SinkFits(r.sink)
    ensures NoFlushOut(r) ==> NoFlushOut(SinkReceives(r, m, EmptyThisBuffer, save))
    ensures !EndOfStreamOut(r) && m != CONTROL ==> !EndOfStreamOut(SinkReceives(r, m, EmptyThisBuffer, save))
  {
    Appended(r, Packet(m, FillThisBuffer, false));
    var t := SinkReceives(r, m, EmptyThisBuffer, save);
    if CONTROL !in r.sink.queue {
      assert t.core == r.core && t.sink.queue == r.sink.queue + [m];
    }
  }

  lemma FlushKind(r: State, m: nat, save: bool)
    requires r.sink.life == Running && SinkFits(r.sink)
    ensures !EndOfStreamOut(r) ==> !EndOfStreamOut(SinkReceives(r, m, Flush, save))
  {
    var p := SinkPurge(r);
    assert p.sink.life == Running;
    hide Replies, SinkPurge;
    PurgeKind(r);
    PurgeForm(r);
    Appended(p, Packet(m, Flush, false));
  }

  // ----------------------------------------------------------- over the runs

  /** The flush goes on at every point of the run. */
  predicate FlushLasts(s: State, events: seq<Event>)
    requires Allowed(s, events)
    decreases |events|
  {
    FLUSHING in s.port.flags && (events == [] || FlushLasts(Next(s, events[0]), events[1..]))
  }

  predicate NoUnroute(events: seq<Event>) { forall i :: 0 <= i < |events| ==> !events[i].UnrouteCommand? }

  /** Command c is not issued. */
  predicate Without(events: seq<Event>, c: nat) { forall i :: 0 <= i < |events| ==> events[i] != UnrouteCommand(c) }

  lemma Tails(events: seq<Event>, c: nat)
    requires events != []
    ensures NoUnroute(events) <==> !events[0].UnrouteCommand? && NoUnroute(events[1..])
    ensures Without(events, c) <==> events[0] != UnrouteCommand(c) && Without(events[1..], c)
  {
    assert forall i :: 0 < i < |events| ==> events[i] == events[1..][i - 1];
  }

  /** The flush goes on along a run: as long as the source stays in service, the control message
      stays of its kind, and the port waits with the last unroute command. */
  ghost predicate Waits(s: State, events: seq<Event>, t: State, c: nat) {
    && t.answered == s.answered
    && (t.life == Running ==>
          && (NoFlushOut(s) ==> NoFlushOut(t)) && (!EndOfStreamOut(s) ==> !EndOfStreamOut(t))
          && UNROUTING in t.port.flags
          && (t.port.unroute == c <==> s.port.unroute == c && NoUnroute(events)))
  }

  lemma {:induction false} FlushWaits(s: State, events: seq<Event>, c: nat)
    requires Allowed(s, events) && FlushLasts(s, events) && Without(events, c) && HomeIsData(s)
    requires s.life == Running ==> Inv(s) && UNROUTING in s.port.flags
    ensures Waits(s, events, Run(s, events), c) && FLUSHING in Run(s, events).port.flags
    ensures s.life != Running ==> Run(s, events).life != Running
    decreases |events|
  {
    hide Next, Inv, Enabled, HomeIsData, BounceDuringFlush, NoFlushOut, EndOfStreamOut;
    if events != [] {
      var u := Next(s, events[0]);
      Tails(events, c);
      HomeStaysData(s, events[0]);
      FirstStep(s, events, c);
      hide NoUnroute, Without;
      FlushWaits(u, events[1..], c);
    }
  }

  lemma FirstStep(s: State, events: seq<Event>, c: nat)
    requires Allowed(s, events) && FlushLasts(s, events) && events != [] && events[0] != UnrouteCommand(c)
    requires s.life == Running ==> Inv(s) && UNROUTING in s.port.flags
    ensures var u := Next(s, events[0]);
      && u.answered == s.answered && (s.life != Running ==> u.life != Running)
      && (u.life == Running ==>
            && Inv(u) && UNROUTING in u.port.flags
            && (NoFlushOut(s) ==> NoFlushOut(u)) && (!EndOfStreamOut(s) ==> !EndOfStreamOut(u))
            && (u.port.unroute == c <==> s.port.unroute == c && !events[0].UnrouteCommand?))
  {
    var e := events[0];
    hide Next, Inv, Enabled, BounceDuringFlush, NoFlushOut, EndOfStreamOut;
    if s.life != Running {
      NeverBack(s, e);
    } else if Next(s, e).life == Running {
      assert Midway(s, e);
      MidwayStep(s, e);
      KindStays(s, e);
      if BounceDuringFlush(s, e) {
        BounceTerminates(s, e);
      }
      StepKeeps(s, e);
    } else {
      LeavingAnswersNothing(s, e);
    }
  }

  lemma LeavingAnswersNothing(s: State, e: Event)
    requires Enabled(s, e) && s.life == Running && Next(s, e).life != Running
    ensures Next(s, e).answered == s.answered
  {
    hide Replies;
  }

  // ------------------------------------------------------- what becomes of c

  /** Command c will not be answered any more. */
  predicate Lost(s: State, c: nat) {
    && c !in s.answered
    && (s.life == Running && UNROUTING in s.port.flags && s.port.unroute == c ==> IDLE in s.port.flags)
  }

  lemma LostReceived(r: State, m: nat, op: Opcode, c: nat)
    requires Lost(r, c) && r.life == Running && IDLE !in r.port.flags
    ensures Lost(SourceReceives(r, m, op), c)
  {
  }

  lemma LostOtherwise(s: State, e: Event, c: nat)
    requires Lost(s, c) && Enabled(s, e) && !e.Dispatch? && e != UnrouteCommand(c) && s.life == Running
    ensures Lost(Next(s, e), c)
  {
    hide Replies, SourceReceives, SinkReceives;
  }

  lemma LostAtSink(s: State, save: bool, c: nat)
    requires Lost(s, c) && s.core != [] && s.core[0].toSink && s.life == Running
    ensures Lost(Next(s, Dispatch(save)), c)
  {
    var p, r := s.core[0], s.(core := s.core[1..]);
    hide SinkReceives;
    SinkLeavesSource(r, p.m, p.opcode, save);
  }

  lemma LostAtSource(s: State, save: bool, c: nat)
    requires Lost(s, c) && s.core != [] && !s.core[0].toSink && s.life == Running && IDLE !in s.port.flags
    ensures Lost(Next(s, Dispatch(save)), c)
  {
    var p, r := s.core[0], s.(core := s.core[1..]);
    hide SinkReceives, SourceReceives;
    LostReceived(r, p.m, p.opcode, c);
  }

  lemma LostDispatch(s: State, save: bool, c: nat)
    requires Lost(s, c) && s.core != [] && s.life == Running && Inv(s)
    ensures Lost(Next(s, Dispatch(save)), c)
  {
    hide *;
    if s.core[0].toSink {
      LostAtSink(s, save, c);
    } else {
      TakeHead(s);
      HeadOfLine(s, s.core[0], s.(core := s.core[1..]));
      LostAtSource(s, save, c);
    }
  }

  lemma LostStep(s: State, e: Event, c: nat)
    requires Lost(s, c) && Enabled(s, e) && e != UnrouteCommand(c) && (s.life == Running ==> Inv(s))
    ensures Lost(Next(s, e), c)
  {
    hide Next, Inv;
    if s.life != Running {
      NeverBack(s, e);
    } else if e.Dispatch? {
      LostDispatch(s, e.save, c);
    } else {
      LostOtherwise(s, e, c);
    }
  }

  lemma {:induction false} LostForever(s: State, events: seq<Event>, c: nat)
    requires Lost(s, c) && Allowed(s, events) && Without(events, c) && HomeIsData(s) && (s.life == Running ==> Inv(s))
    ensures c !in Run(s, events).answered
    decreases |events|
  {
    hide Next, Inv, Enabled, HomeIsData;
    if events != [] {
      Tails(events, c);
      LostStep(s, events[0], c);
      HomeStaysData(s, events[0]);
      RunKeeps(s, [events[0]]);
      assert Run(s, [events[0]]) == Next(s, events[0]) by {
        assert [events[0]][1..] == [];
      }
      LostForever(Next(s, events[0]), events[1..], c);
    }
  }

  lemma AnsweredStep(s: State, e: Event, c: nat)
    requires c in s.answered && Enabled(s, e)
    ensures c in Next(s, e).answered
  {
    hide Replies;
  }

  lemma {:induction false} AnsweredForever(s: State, events: seq<Event>, c: nat)
    requires c in s.answered && Allowed(s, events)
    ensures c in Run(s, events).answered
    decreases |events|
  {
    hide Next, Enabled;
    if events != [] {
      AnsweredStep(s, events[0], c);
      AnsweredForever(Next(s, events[0]), events[1..], c);
    }
  }

  /** The flush ends: the command that waits is answered exactly when a flush command comes home to
      a source in service. */
  lemma AtTheEnd(t: State, e: Event, c: nat)
    requires Enabled(t, e) && FLUSHING in t.port.flags && FLUSHING !in Next(t, e).port.flags
    requires t.life == Running ==> Inv(t) && UNROUTING in t.port.flags
    requires c !in t.answered && e != UnrouteCommand(c)
    ensures t.life == Running ==> e.Dispatch? && t.core != [] && t.core[0].m == CONTROL
    ensures t.life == Running && t.core[0].opcode == Flush && t.port.unroute == c ==> c in Next(t, e).answered
    ensures !(t.life == Running && t.core[0].opcode == Flush && t.port.unroute == c) ==> Lost(Next(t, e), c)
    ensures t.life == Running ==> t.core[0].opcode == Flush || EndPacket(t.core[0])
  {
    hide *;
    if t.life != Running {
      NeverBack(t, e);
      LostInTheEnd(t, e, c);
    } else {
      FlushEndsBy(t, e);
      Handed(t, e);
      TakeHead(t);
      HeadOfLine(t, t.core[0], t.(core := t.core[1..]));
      Parts(t);
      OpcodesTail(t);
      ControlHandled(t, e, c);
    }
  }

  lemma Handed(t: State, e: Event)
    requires Enabled(t, e) && e.Dispatch?
    ensures t.core != []
  {
  }

  lemma LostInTheEnd(t: State, e: Event, c: nat)
    requires Enabled(t, e) && Next(t, e).life != Running && Next(t, e).answered == t.answered && c !in t.answered
    ensures Lost(Next(t, e), c)
  {
  }

  lemma ControlHandled(t: State, e: Event, c: nat)
    requires t.life == Running && Enabled(t, e) && e.Dispatch? && t.core != [] && !t.core[0].toSink
    requires t.core[0].m == CONTROL
    requires t.core[0].opcode != Unregister && FLUSHING in t.port.flags && IDLE !in t.port.flags
    requires UNROUTING in t.port.flags
    requires c !in t.answered
    ensures t.core[0].opcode == Flush && t.port.unroute == c ==> c in Next(t, e).answered
    ensures !(t.core[0].opcode == Flush && t.port.unroute == c) ==> Lost(Next(t, e), c)
    ensures t.core[0].opcode == Flush || EndPacket(t.core[0])
  {
    hide SinkReceives;
  }

  /** The unroute command arrives at a busy port. */
  lemma CommandArrives(s: State, c: nat)
    requires Inv(s) && s.life == Running && !FlushedAtOnce(s.port)
    ensures var u := Next(s, UnrouteCommand(c));
      && Inv(u) && u.life == Running && u.port.unroute == c && UNROUTING in u.port.flags && u.answered == s.answered
      && (EndOfStreamOut(s) ==> NoFlushOut(u)) && (!EndOfStreamOut(s) ==> !EndOfStreamOut(u))
  {
    hide *;
    ServesCommands(s, c);
    UnrouteKeeps(s, c);
    UnrouteForm(s, c);
    FlushForm(s);
    UnrouteFlags(StartFlush(s, Flush).port);
    StartKind(s);
    KindOfPort(StartFlush(s, Flush), Next(s, UnrouteCommand(c)));
  }

  lemma ServesCommands(s: State, c: nat)
    requires s.life == Running
    ensures Enabled(s, UnrouteCommand(c)) && Enabled(s, FlushCommand(c))
  {
  }

  /** A flush that is started or goes on: core queue, sink and flags. */
  lemma FlushForm(s: State)
    requires !FlushedAtOnce(s.port)
    ensures var u := StartFlush(s, Flush);
            && u.life == s.life && u.answered == s.answered && u.sink == s.sink
            && (UNROUTING in u.port.flags <==> UNROUTING in s.port.flags)
            && u.core == if FLUSHING in s.port.flags then s.core else s.core + [Packet(CONTROL, Flush, true)]
  {
  }

  lemma StartKind(s: State)
    requires Inv(s) && !FlushedAtOnce(s.port)
    ensures EndOfStreamOut(s) ==> NoFlushOut(StartFlush(s, Flush))
    ensures !EndOfStreamOut(s) ==> !EndOfStreamOut(StartFlush(s, Flush))
  {
    hide *;
    FlushForm(s);
    var u := StartFlush(s, Flush);
    if FLUSHING in s.port.flags {
      KindOfPort(s, u);
      if EndOfStreamOut(s) {
        EndExcludesFlush(s);
      }
    } else {
      NoneOut(s);
      Appended(s, Packet(CONTROL, Flush, true));
      FlushIsNoEnd();
      KindOfPort(s.(core := s.core + [Packet(CONTROL, Flush, true)]), u);
    }
  }

  lemma FlushIsNoEnd()
    ensures !EndPacket(Packet(CONTROL, Flush, true))
  {
  }

  lemma KindOfPort(s: State, u: State)
    requires u.core == s.core && u.sink == s.sink
    ensures (NoFlushOut(s) <==> NoFlushOut(u)) && (EndOfStreamOut(s) <==> EndOfStreamOut(u))
  {
  }

  /** The history of a new unroute command c that finds the port busy: before it, while the flush
      goes on, the event with which it is over, and after that. */
  ghost predicate History(before: seq<Event>, c: nat, during: seq<Event>, end: Event, after: seq<Event>) {
    && Allowed(Start(), before) && Arrives(Run(Start(), before), c)
    && Ends(Next(Run(Start(), before), UnrouteCommand(c)), c, during, end, after)
  }

  /** The source takes a new command that finds its port busy. */
  predicate Arrives(s: State, c: nat) {
    s.life == Running && !FlushedAtOnce(s.port) && c !in s.answered
  }

  ghost predicate Ends(u: State, c: nat, during: seq<Event>, end: Event, after: seq<Event>) {
    && Allowed(u, during) && FlushLasts(u, during) && Without(during, c)
    && IsEnd(Run(u, during), end) && end != UnrouteCommand(c)
    && Allowed(Next(Run(u, during), end), after) && Without(after, c)
  }

  predicate IsEnd(t: State, end: Event) { Enabled(t, end) && FLUSHING !in Next(t, end).port.flags }

  /** Along every run, an unroute command that finds the port busy is answered if and only if no
      end of stream was under way when it arrived, and at the end of the flush the source is still
      in service and no other unroute command has taken its place. */
  lemma UnrouteAnsweredExactly(before: seq<Event>, c: nat, during: seq<Event>, end: Event, after: seq<Event>)
    requires History(before, c, during, end, after)
    ensures var s := Run(Start(), before);
            var t := Run(Next(s, UnrouteCommand(c)), during);
            c in Run(Next(t, end), after).answered <==> !EndOfStreamOut(s) && t.life == Running && NoUnroute(during)
  {
    var s := Run(Start(), before);
    var u := Next(s, UnrouteCommand(c));
    var t := Run(u, during);
    RunInv(before);
    hide Inv, Next, HomeIsData, EndOfStreamOut, NoFlushOut, FlushLasts, Enabled, Without, NoUnroute;
    CommandArrives(s, c);
    HomeStaysData(s, UnrouteCommand(c));
    FlushWaits(u, during, c);
    RunKeeps(u, during);
    EndEnabled(t, end);
    AtTheEnd(t, end, c);
    if t.life == Running {
      Homecoming(t);
    }
    StepRuns(t, end);
    if c in Next(t, end).answered {
      AnsweredForever(Next(t, end), after, c);
    } else {
      LostForever(Next(t, end), after, c);
    }
  }

  lemma EndEnabled(t: State, end: Event)
    requires IsEnd(t, end)
    ensures Enabled(t, end) && FLUSHING !in Next(t, end).port.flags
  {
  }

  lemma Homecoming(t: State)
    requires t.core != []
    ensures EndPacket(t.core[0]) ==> EndOfStreamOut(t)
    ensures t.core[0].opcode == Flush ==> !NoFlushOut(t)
  {
  }

  lemma StepRuns(t: State, e: Event)
    requires Enabled(t, e) && HomeIsData(t) && (t.life == Running ==> Inv(t))
    ensures HomeIsData(Next(t, e)) && (Next(t, e).life == Running ==> Inv(Next(t, e)))
  {
    hide Inv, HomeIsData, Next;
    assert [e][1..] == [];
    RunKeeps(t, [e]);
  }

  // ------------------------------------------------------------- given runs

  function Unrouting(queue: seq<nat>, c: nat): PortState { PortState(queue, c, {CREATED, ROUTED, FLUSHING, UNROUTING}) }

  lemma Commands(c: nat, d: nat)
    ensures AfterUnrouteStart(Flushing([]), c) == Unrouting([], c)
    ensures AfterUnrouteStart(Unrouting([], c), d) == Unrouting([], d)
    ensures AfterFlush(Unrouting([], c)) == Unrouting([], c)
    ensures !FlushSends(Unrouting([], c)) && !FlushedAtOnce(Unrouting([], c))
    ensures AfterFlushDone(Unrouting([1], c)) == PortState([1], c, {CREATED, ROUTED, IDLE, UNROUTING})
  {
  }

  /** The end of the stream is under way when the unroute command arrives: the control message comes
      back as a buffer to fill, and the port ends idle with the command unanswered. */
  lemma LostToEndOfStream(c: nat) returns (events: seq<Event>)
    ensures Allowed(Start(), events)
    ensures var s := Run(Start(), events);
            && s.life == Running && Routed(s) && IDLE in s.port.flags
            && s.port.unroute == c && s.answered == [] && Line(s) == []
  {
    var s;
    events, s := SentOut(Running);
    Setup();
    Commands(c, c);
    hide Run, Allowed, AfterFlush, AfterFlushDone, AfterUnrouteStart, FlushSends, FlushedAtOnce;
    events, s := Further(events, s, EndOfStream);
    assert s.core == [Packet(1, EmptyThisBuffer, true), Packet(CONTROL, EmptyThisBuffer, true)];
    events, s := Further(events, s, Dispatch(false));
    events, s := Further(events, s, Dispatch(false));
    assert s.sink == Sink(Running, [1, CONTROL], false) && s.core == [];
    events, s := Further(events, s, UnrouteCommand(c));
    events, s := EndsIdle(events, s, c);
  }

  lemma EndsIdle(events: seq<Event>, s: State, c: nat) returns (longer: seq<Event>, t: State)
    requires Allowed(Start(), events) && Run(Start(), events) == s
    requires s == State(1, Unrouting([], c), Running, multiset{}, [], Sink(Running, [1, CONTROL], false), [], 1)
    ensures Allowed(Start(), longer) && Run(Start(), longer) == t
    ensures t.life == Running && Routed(t) && IDLE in t.port.flags && t.port.unroute == c && t.answered == []
    ensures Line(t) == []
  {
    Commands(c, c);
    hide Run, Allowed, AfterFlush, AfterFlushDone, AfterUnrouteStart, FlushSends, FlushedAtOnce;
    longer, t := Further(events, s, SinkFlushed);
    assert t.core == [Packet(1, FillThisBuffer, false), Packet(CONTROL, FillThisBuffer, false)];
    longer, t := Further(longer, t, Dispatch(false));
    assert t.port == Unrouting([1], c) && t.core == [Packet(CONTROL, FillThisBuffer, false)];
    longer, t := Further(longer, t, Dispatch(false));
  }

  /** The sink holds buffer 1 and an unroute command waits for the flush. */
  lemma Waiting(c: nat) returns (events: seq<Event>, s: State)
    ensures Allowed(Start(), events) && Run(Start(), events) == s
    ensures s == State(1, Unrouting([], c), Running, multiset{},
                       [Packet(CONTROL, Flush, true)], Sink(Running, [1], false), [], 1)
  {
    events, s := SentOut(Running);
    Setup();
    Commands(c, c);
    hide Run, Allowed, AfterFlush, AfterUnrouteStart, FlushSends, FlushedAtOnce;
    events, s := Further(events, s, Dispatch(false));
    assert s.sink == Sink(Running, [1], false) && s.core == [];
    events, s := Further(events, s, UnrouteCommand(c));
  }

  /** The source is unregistered while the command waits: it is destroyed without an answer. */
  lemma LostToUnregister(c: nat) returns (events: seq<Event>)
    ensures Allowed(Start(), events)
    ensures var s := Run(Start(), events); s.life == Gone && !Routed(s) && s.answered == [] && s.core == []
  {
    var s;
    events, s := Waiting(c);
    Commands(c, c);
    hide Run, Allowed, AfterFlush, FlushSends, FlushedAtOnce;
    events, s := Further(events, s, UnregisterSource);
    assert s.life == Terminating && s.core == [Packet(CONTROL, Flush, true)];
    events, s := Further(events, s, Dispatch(false));
    assert s.core == [Packet(1, FillThisBuffer, false), Packet(CONTROL, Flush, false)];
    events, s := Further(events, s, Dispatch(false));
    events, s := Further(events, s, Dispatch(false));
  }

  /** A second command takes the place of the first, which is not answered. */
  lemma LostToAnother(c: nat, d: nat) returns (events: seq<Event>)
    ensures Allowed(Start(), events)
    ensures var s := Run(Start(), events); s.life == Running && !Routed(s) && s.answered == [d] && s.core == []
  {
    var s;
    events, s := Waiting(c);
    Commands(c, d);
    hide Run, Allowed, AfterFlush, AfterUnrouteStart, FlushSends, FlushedAtOnce;
    events, s := Further(events, s, UnrouteCommand(d));
    assert s.port == Unrouting([], d) && s.core == [Packet(CONTROL, Flush, true)];
    events, s := Further(events, s, Dispatch(false));
    assert s.core == [Packet(1, FillThisBuffer, false), Packet(CONTROL, Flush, false)];
    events, s := Further(events, s, Dispatch(false));
    events, s := Further(events, s, Dispatch(false));
  }
}
