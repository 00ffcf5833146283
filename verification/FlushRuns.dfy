/**
 Which flush commands are answered: a command to the source's input port that finds the output port
 busy is saved in the input port, whose messages are answered whenever it is purged.
 */
module FlushRuns {
  import opened Handshake
  import opened HandshakeRuns
  import opened OutputPort
  import opened Pointers
  import opened UnrouteRuns

  // The flush commands saved in the source's input port, and those answered.
  datatype Saved = Saved(waiting: seq<nat>, answered: seq<nat>)

  /** All messages of the input port are answered. */
  function Purged(f: Saved): Saved { Saved([], f.answered + f.waiting) }

  /** A purging sequence ends: the saved message is answered. */
  function PurgeDone(f: Saved): Saved {
    if f.waiting == [] then f else Saved(f.waiting[1..], f.answered + [f.waiting[0]])
  }

  /** A message comes back to a source in service. */
  predicate ComesBack(s: State, e: Event) {
    e.Dispatch? && s.core != [] && !s.core[0].toSink && s.life == Running
  }

  /** The event purges the source's input port. */
  predicate Purges(s: State, e: Event) {
    match e
    case FlushCommand(_) => true
    case EndOfStream => FlushedAtOnce(s.port)
    case UnregisterSource => true
    case Dispatch(_) =>
      && ComesBack(s, e)
      && (s.core[0].opcode == Unregister || (s.core[0].m == CONTROL && s.core[0].opcode != Flush))
    case _ => false
  }

  /** The event ends the purging sequence of the input port. */
  predicate EndsPurge(s: State, e: Event) {
    ComesBack(s, e) && s.core[0].opcode == Flush && UNROUTING !in s.port.flags
  }

  function Track(f: Saved, s: State, e: Event): Saved {
    var g := if Purges(s, e) then Purged(f) else if EndsPurge(s, e) then PurgeDone(f) else f;
    if !e.FlushCommand? then g
    else if FlushedAtOnce(s.port) then g.(answered := g.answered + [e.c])
    else g.(waiting := g.waiting + [e.c])
  }

  /** The saved and the answered flush commands at the end of a run. */
  function TrackRun(f: Saved, s: State, events: seq<Event>): Saved
    requires Allowed(s, events)
    decreases |events|
  {
    if events == [] then f else TrackRun(Track(f, s, events[0]), Next(s, events[0]), events[1..])
  }

  function None(): Saved { Saved([], []) }

  // ------------------------------------------------------ while a flush goes on

  lemma ControlEnds(r: State, op: Opcode)
    requires r.life == Running && FLUSHING in r.port.flags && op != Unregister
    ensures FLUSHING !in SourceReceives(r, CONTROL, op).port.flags
  {
  }

  lemma BounceLeaves(r: State, m: nat)
    requires r.life == Running
    ensures SourceReceives(r, m, Unregister).life != Running
  {
    hide StartFlush;
  }

  lemma Returned(s: State, e: Event)
    requires ComesBack(s, e)
    ensures Enabled(s, e) && s.life == Running
    ensures Next(s, e) == SourceReceives(s.(core := s.core[1..]), s.core[0].m, s.core[0].opcode)
  {
  }

  /** Until the flush is over or the source leaves, only another flush command purges. */
  lemma MidwayNoPurge(s: State, e: Event)
    requires Midway(s, e) && !e.FlushCommand?
    ensures !Purges(s, e) && !EndsPurge(s, e)
  {
    hide *;
    MidwayFacts(s, e);
    if ComesBack(s, e) {
      BackFacts(s, e);
      Returned(s, e);
      OpcodesTail(s);
      var p, r := s.core[0], s.(core := s.core[1..]);
      if p.opcode == Unregister {
        BounceLeaves(r, p.m);
      } else if p.m == CONTROL {
        ControlEnds(r, p.opcode);
      }
      StillQuiet(s, e);
    } else {
      if e.UnregisterSource? {
        MidwayCommand(s, e);
      }
      OtherQuiet(s, e);
    }
  }

  lemma BackFacts(s: State, e: Event)
    requires ComesBack(s, e)
    ensures e.Dispatch? && s.core != [] && !s.core[0].toSink && s.life == Running
  {
  }

  lemma StillQuiet(s: State, e: Event)
    requires ComesBack(s, e) && s.core[0].opcode != Unregister && s.core[0].m != CONTROL && s.core[0].opcode != Flush
    ensures !Purges(s, e) && !EndsPurge(s, e)
  {
  }

  lemma OtherQuiet(s: State, e: Event)
    requires !ComesBack(s, e) && !e.FlushCommand? && !e.UnregisterSource? && !FlushedAtOnce(s.port)
    ensures !Purges(s, e) && !EndsPurge(s, e)
  {
  }

  /** A source that leaves service purges its input port. */
  lemma LeavingPurges(s: State, e: Event)
    requires Enabled(s, e) && s.life == Running && Next(s, e).life != Running
    ensures Purges(s, e)
  {
    if e.Dispatch? {
      var p, r := s.core[0], s.(core := s.core[1..]);
      SinkLeavesSource(r, p.m, p.opcode, e.save);
      hide SinkReceives;
    } else {
      hide SourceReceives, SinkReceives, Replies;
    }
  }

  // ------------------------------------------- the saved message is there

  /** The port saves at most one flush command; it has one when a flush command is under way that no
      unroute command will take. */
  ghost predicate Ready(s: State, f: Saved) {
    && |f.waiting| <= 1
    && (s.life == Running && FLUSHING in s.port.flags && UNROUTING !in s.port.flags && !NoFlushOut(s) ==>
          f.waiting != [])
  }

  lemma NoFlushYet(s: State)
    requires Inv(s) && FLUSHING !in s.port.flags
    ensures NoFlushOut(s)
  {
    hide Inv, Out, NoFlushOut, EndPacket, Line;
    InvPlaces(s);
    FlushIsControl(s);
    OutInLine(s);
    NoFlushInCore(s);
  }

  lemma ReturnStartsNothing(r: State, m: nat, op: Opcode)
    requires r.life == Running && FLUSHING !in r.port.flags && m != CONTROL
    requires SourceReceives(r, m, op).life == Running
    ensures FLUSHING !in SourceReceives(r, m, op).port.flags
  {
    hide StartFlush;
  }

  lemma DispatchStartsNothing(s: State, e: Event)
    requires Inv(s) && Enabled(s, e) && e.Dispatch? && s.life == Running && Next(s, e).life == Running
    requires FLUSHING !in s.port.flags
    ensures FLUSHING !in Next(s, e).port.flags
  {
    hide *;
    Handed(s, e);
    var p, r := s.core[0], s.(core := s.core[1..]);
    if p.toSink {
      ToTheSink(s, e.save);
      SinkLeavesSource(r, p.m, p.opcode, e.save);
    } else {
      TakeHead(s);
      HeadOfLine(s, p, r);
      FromTheSink(s, e);
      ReturnStartsNothing(r, p.m, p.opcode);
    }
  }

  lemma FromTheSink(s: State, e: Event)
    requires s.core != [] && !s.core[0].toSink && e.Dispatch?
    ensures Next(s, e) == SourceReceives(s.(core := s.core[1..]), s.core[0].m, s.core[0].opcode)
  {
  }

  lemma StartForm(s: State, op: Opcode)
    ensures FlushSends(s.port) ==> StartFlush(s, op) == ToSink(s.(port := AfterFlush(s.port)), CONTROL, Completed(op))
    ensures !FlushSends(s.port) && FLUSHING !in s.port.flags ==> FLUSHING !in StartFlush(s, op).port.flags
    ensures FlushSends(s.port) ==> !FlushedAtOnce(s.port)
  {
  }

  /** Which events start a flush. */
  lemma WhoStarts(s: State, e: Event)
    requires Enabled(s, e) && s.life == Running && Next(s, e).life == Running && !e.Dispatch?
    requires FLUSHING !in s.port.flags && FLUSHING in Next(s, e).port.flags
    ensures e.EndOfStream? || e.FlushCommand? || e.UnrouteCommand?
    ensures e.EndOfStream? ==> Next(s, e).core == s.core + [Packet(CONTROL, EmptyThisBuffer, true)]
    ensures e.EndOfStream? ==> Next(s, e).sink == s.sink
    ensures e.FlushCommand? ==> !FlushedAtOnce(s.port)
    ensures e.UnrouteCommand? ==> UNROUTING in Next(s, e).port.flags
  {
    StartForm(s, FillThisBuffer);
    StartForm(s, Flush);
    hide Replies, StartFlush, FlushSends, FlushedAtOnce, SourceReceives, SinkReceives;
  }

  lemma Waiting(f: Saved, s: State, e: Event)
    requires |f.waiting| <= 1
    ensures |Track(f, s, e).waiting| <= 1
    ensures e.FlushCommand? && !FlushedAtOnce(s.port) ==> Track(f, s, e).waiting == [e.c]
    ensures !Purges(s, e) && !EndsPurge(s, e) ==> Track(f, s, e) == f
  {
  }

  lemma StepReady(s: State, f: Saved, e: Event)
    requires Enabled(s, e) && (s.life == Running ==> Inv(s)) && Ready(s, f)
    ensures Ready(Next(s, e), Track(f, s, e))
  {
    hide Next, Enabled, Inv, Track, Purges, EndsPurge, NoFlushOut, FlushedAtOnce;
    var t := Next(s, e);
    Waiting(f, s, e);
    if s.life != Running {
      NeverBack(s, e);
    } else if t.life == Running && FLUSHING in t.port.flags && UNROUTING !in t.port.flags && !NoFlushOut(t) {
      if FLUSHING in s.port.flags {
        assert Midway(s, e);
        MidwayFacts(s, e);
        MidwayStep(s, e);
        KindStays(s, e);
        if !e.FlushCommand? {
          MidwayNoPurge(s, e);
        }
      } else {
        if e.Dispatch? {
          DispatchStartsNothing(s, e);
        }
        WhoStarts(s, e);
        NoFlushYet(s);
        if e.EndOfStream? {
          Appended(s, Packet(CONTROL, EmptyThisBuffer, true));
          KindOfPort(s.(core := s.core + [Packet(CONTROL, EmptyThisBuffer, true)]), t);
        }
      }
    }
  }

  lemma {:induction false} RunReady(s: State, f: Saved, events: seq<Event>)
    requires Allowed(s, events) && HomeIsData(s) && (s.life == Running ==> Inv(s)) && Ready(s, f)
    ensures Ready(Run(s, events), TrackRun(f, s, events))
    decreases |events|
  {
    hide Next, Enabled, Inv, HomeIsData, Ready, Track;
    if events != [] {
      StepReady(s, f, events[0]);
      StepRuns(s, events[0]);
      RunReady(Next(s, events[0]), Track(f, s, events[0]), events[1..]);
    }
  }

  lemma StartReady()
    ensures Ready(Start(), None())
  {
  }

  /** In every run, when a returned flush command ends the purging sequence of the input port, the
      port holds exactly one saved message, which is answered. */
  lemma PurgeDoneFindsMessage(events: seq<Event>, e: Event)
    requires Allowed(Start(), events) && EndsPurge(Run(Start(), events), e)
    ensures |TrackRun(None(), Start(), events).waiting| == 1
  {
    var s := Run(Start(), events);
    StartInv();
    StartReady();
    RunReady(Start(), None(), events);
    RunInv(events);
    hide Run, TrackRun, Allowed, NoFlushOut, Inv, OpcodesFit, Line, Travelling;
    TakeHead(s);
    HeadOfLine(s, s.core[0], s.(core := s.core[1..]));
    Homecoming(s);
    FlushIsControl(s);
  }

  // -------------------------------------------------- what becomes of c

  predicate NoFlushCommand(events: seq<Event>) { forall i :: 0 <= i < |events| ==> !events[i].FlushCommand? }

  /** Flush command c is not issued. */
  predicate NotAgain(events: seq<Event>, c: nat) {
    forall i :: 0 <= i < |events| ==> events[i] != FlushCommand(c)
  }

  lemma Tails(events: seq<Event>, c: nat)
    requires events != []
    ensures NoFlushCommand(events) <==> !events[0].FlushCommand? && NoFlushCommand(events[1..])
    ensures NotAgain(events, c) <==> events[0] != FlushCommand(c) && NotAgain(events[1..], c)
    ensures NoUnroute(events) <==> !events[0].UnrouteCommand? && NoUnroute(events[1..])
  {
    assert forall i :: 0 < i < |events| ==> events[i] == events[1..][i - 1];
  }

  /** The command waits in the input port, unanswered. */
  predicate Waits(f: Saved, c: nat) { f.waiting == [c] && c !in f.answered }

  lemma TrackOne(f: Saved, s: State, e: Event, c: nat)
    ensures c in f.answered ==> c in Track(f, s, e).answered
    ensures Waits(f, c) && (Purges(s, e) || EndsPurge(s, e)) ==> c in Track(f, s, e).answered
    ensures Waits(f, c) && !Purges(s, e) && !EndsPurge(s, e) ==> Waits(Track(f, s, e), c)
  {
    if e.FlushCommand? {
      FlushPurges(s, e);
    }
    hide Purges, EndsPurge;
  }

  lemma {:induction false} AnsweredStays(s: State, f: Saved, events: seq<Event>, c: nat)
    requires Allowed(s, events) && c in f.answered
    ensures c in TrackRun(f, s, events).answered
    decreases |events|
  {
    hide Next, Enabled, Track;
    if events != [] {
      TrackOne(f, s, events[0], c);
      AnsweredStays(Next(s, events[0]), Track(f, s, events[0]), events[1..], c);
    }
  }

  /** As long as the flush goes on, the control message stays of its kind, and unroute commands leave
      their flag. */
  lemma {:induction false} KindLasts(s: State, events: seq<Event>)
    requires Allowed(s, events) && FlushLasts(s, events) && HomeIsData(s) && (s.life == Running ==> Inv(s))
    ensures var t := Run(s, events);
      && FLUSHING in t.port.flags && (s.life != Running ==> t.life != Running)
      && (t.life == Running ==>
            && Inv(t) && (NoFlushOut(s) ==> NoFlushOut(t)) && (!EndOfStreamOut(s) ==> !EndOfStreamOut(t))
            && (UNROUTING in t.port.flags <==> UNROUTING in s.port.flags || !NoUnroute(events)))
    decreases |events|
  {
    hide Next, Inv, Enabled, HomeIsData, NoFlushOut, EndOfStreamOut;
    if events != [] {
      var e, u := events[0], Next(s, events[0]);
      Tails(events, 0);
      StepRuns(s, e);
      if s.life != Running {
        NeverBack(s, e);
      } else if u.life == Running {
        assert Midway(s, e);
        MidwayStep(s, e);
        KindStays(s, e);
      }
      hide NoUnroute;
      KindLasts(u, events[1..]);
    }
  }

  /** As long as the flush goes on, a waiting command goes on waiting, until another flush command or
      the end of the service purges the port. */
  lemma {:induction false} WaitLasts(s: State, f: Saved, events: seq<Event>, c: nat)
    requires Allowed(s, events) && FlushLasts(s, events) && NotAgain(events, c) && HomeIsData(s)
    requires Waits(f, c) && s.life == Running && Inv(s)
    ensures var t, h := Run(s, events), TrackRun(f, s, events);
      if t.life == Running && NoFlushCommand(events) then Waits(h, c) else c in h.answered
    decreases |events|
  {
    hide Next, Inv, Enabled, HomeIsData, Waits, Track, Purges, EndsPurge;
    if events != [] {
      var e, u, g := events[0], Next(s, events[0]), Track(f, s, events[0]);
      Tails(events, c);
      TrackOne(f, s, e, c);
      StepRuns(s, e);
      hide NoFlushCommand, NotAgain;
      if u.life != Running {
        LeavingPurges(s, e);
        AnsweredStays(u, g, events[1..], c);
        NeverInService(u, events[1..]);
      } else if e.FlushCommand? {
        FlushPurges(s, e);
        AnsweredStays(u, g, events[1..], c);
      } else {
        assert Midway(s, e);
        MidwayNoPurge(s, e);
        WaitLasts(u, g, events[1..], c);
      }
    }
  }

  lemma FlushPurges(s: State, e: Event)
    requires e.FlushCommand?
    ensures Purges(s, e)
  {
  }

  lemma {:induction false} NeverInService(s: State, events: seq<Event>)
    requires s.life != Running && Allowed(s, events)
    ensures Run(s, events).life != Running
    decreases |events|
  {
    hide Next, Enabled;
    if events != [] {
      NeverBack(s, events[0]);
      NeverInService(Next(s, events[0]), events[1..]);
    }
  }

  /** The input port is purged in the course of the run. */
  predicate PurgedLater(s: State, events: seq<Event>)
    requires Allowed(s, events)
    decreases |events|
  {
    && events != []
    && (Purges(s, events[0]) || EndsPurge(s, events[0]) || PurgedLater(Next(s, events[0]), events[1..]))
  }

  lemma {:induction false} WaitsForPurge(s: State, f: Saved, events: seq<Event>, c: nat)
    requires Allowed(s, events) && Waits(f, c)
    ensures c in TrackRun(f, s, events).answered <==> PurgedLater(s, events)
    decreases |events|
  {
    hide Next, Enabled, Track, Purges, EndsPurge;
    if events != [] {
      TrackOne(f, s, events[0], c);
      var g := Track(f, s, events[0]);
      if c in g.answered {
        AnsweredStays(Next(s, events[0]), g, events[1..], c);
      } else {
        WaitsForPurge(Next(s, events[0]), g, events[1..], c);
      }
    }
  }

  /** The end of the flush: the waiting command is answered unless a returned flush command carries
      out an unroute command instead. */
  lemma AtTheEnd(t: State, h: Saved, end: Event, c: nat)
    requires IsEnd(t, end) && FLUSHING in t.port.flags && t.life == Running && Inv(t) && Waits(h, c)
    ensures end.Dispatch? && t.core != [] && (t.core[0].opcode == Flush || EndPacket(t.core[0]))
    ensures if t.core[0].opcode == Flush && UNROUTING in t.port.flags then Waits(Track(h, t, end), c)
            else c in Track(h, t, end).answered
  {
    hide *;
    EndEnabled(t, end);
    FlushEndsBy(t, end);
    Handed(t, end);
    TrackOne(h, t, end, c);
    TakeHead(t);
    HeadOfLine(t, t.core[0], t.(core := t.core[1..]));
    WhatComesBack(t, end);
  }

  lemma WhatComesBack(t: State, end: Event)
    requires t.life == Running && end.Dispatch? && t.core != [] && !t.core[0].toSink
    requires t.core[0].m == CONTROL && t.core[0].opcode != Unregister
    ensures t.core[0].opcode == Flush || EndPacket(t.core[0])
    ensures Purges(t, end) || EndsPurge(t, end) <==> !(t.core[0].opcode == Flush && UNROUTING in t.port.flags)
  {
  }

  /** The flush command arrives at a busy port. */
  lemma CommandArrives(s: State, f: Saved, c: nat)
    requires Inv(s) && s.life == Running && !FlushedAtOnce(s.port) && c !in f.waiting && c !in f.answered
    ensures var u := Next(s, FlushCommand(c));
      && Enabled(s, FlushCommand(c)) && Inv(u) && u.life == Running
      && (UNROUTING in u.port.flags <==> UNROUTING in s.port.flags)
      && (EndOfStreamOut(s) ==> NoFlushOut(u)) && (!EndOfStreamOut(s) ==> !EndOfStreamOut(u))
      && Waits(Track(f, s, FlushCommand(c)), c)
  {
    hide *;
    ServesCommands(s, c);
    FlushNext(s, c);
    StartKeeps(s, Flush);
    FlushForm(s);
    StartKind(s);
    NowWaits(f, s, c);
  }

  lemma FlushNext(s: State, c: nat)
    requires Enabled(s, FlushCommand(c))
    ensures Next(s, FlushCommand(c)) == StartFlush(s, Flush)
  {
  }

  lemma NowWaits(f: Saved, s: State, c: nat)
    requires !FlushedAtOnce(s.port) && c !in f.waiting && c !in f.answered
    ensures Waits(Track(f, s, FlushCommand(c)), c)
  {
    hide FlushedAtOnce;
  }

  /** The history of a new flush command c that finds the output port busy: before it, while the flush
      goes on, the event with which it is over, and after that. */
  ghost predicate History(before: seq<Event>, c: nat, during: seq<Event>, end: Event, after: seq<Event>) {
    && Allowed(Start(), before) && Arrives(Run(Start(), before), TrackRun(None(), Start(), before), c)
    && Ends(Next(Run(Start(), before), FlushCommand(c)), c, during, end, after)
  }

  predicate Arrives(s: State, f: Saved, c: nat) {
    s.life == Running && !FlushedAtOnce(s.port) && c !in f.waiting && c !in f.answered
  }

  ghost predicate Ends(u: State, c: nat, during: seq<Event>, end: Event, after: seq<Event>) {
    && Allowed(u, during) && FlushLasts(u, during) && NotAgain(during, c)
    && IsEnd(Run(u, during), end) && Allowed(Next(Run(u, during), end), after)
  }

  /** The flush commands at the end of such a history. */
  function TrackHistory(before: seq<Event>, c: nat, during: seq<Event>, end: Event, after: seq<Event>): Saved
    requires History(before, c, during, end, after)
  {
    var s, f := Run(Start(), before), TrackRun(None(), Start(), before);
    var u, g := Next(s, FlushCommand(c)), Track(f, s, FlushCommand(c));
    var t, h := Run(u, during), TrackRun(g, u, during);
    TrackRun(Track(h, t, end), Next(t, end), after)
  }

  /** The flush ends with the unroute command: no end of stream was under way when c arrived, the
      source is in service at the end, an unroute command is waiting by then, and no other flush
      command has purged the port. */
  ghost predicate PassedOver(s: State, during: seq<Event>, t: State) {
    && !EndOfStreamOut(s) && t.life == Running && NoFlushCommand(during)
    && (UNROUTING in s.port.flags || !NoUnroute(during))
  }

  /** Along every run, a flush command that finds the output port busy is answered by the end of the
      flush, unless it is passed over for an unroute command; then it is answered if and only if the
      input port is purged later. */
  lemma FlushAnsweredExactly(before: seq<Event>, c: nat, during: seq<Event>, end: Event, after: seq<Event>)
    requires History(before, c, during, end, after)
    ensures var s := Run(Start(), before);
            var t := Run(Next(s, FlushCommand(c)), during);
            c in TrackHistory(before, c, during, end, after).answered
            <==> !PassedOver(s, during, t) || PurgedLater(Next(t, end), after)
  {
    var s, f := Run(Start(), before), TrackRun(None(), Start(), before);
    var u, g := Next(s, FlushCommand(c)), Track(f, s, FlushCommand(c));
    var t, h := Run(u, during), TrackRun(g, u, during);
    RunInv(before);
    hide Inv, Next, HomeIsData, EndOfStreamOut, NoFlushOut, FlushLasts, Enabled, NotAgain, NoFlushCommand, NoUnroute;
    hide Track, Waits, PurgedLater;
    CommandArrives(s, f, c);
    HomeStaysData(s, FlushCommand(c));
    KindLasts(u, during);
    WaitLasts(u, g, during, c);
    if t.life == Running && NoFlushCommand(during) {
      AtTheEnd(t, h, end, c);
      Homecoming(t);
      if t.core[0].opcode == Flush && UNROUTING in t.port.flags {
        WaitsForPurge(Next(t, end), Track(h, t, end), after, c);
      } else {
        AnsweredStays(Next(t, end), Track(h, t, end), after, c);
      }
    } else {
      TrackOne(h, t, end, c);
      AnsweredStays(Next(t, end), Track(h, t, end), after, c);
    }
  }

  // ------------------------------------------------------------- given runs

  lemma {:induction false} TrackMore(f: Saved, s: State, events: seq<Event>, e: Event)
    requires Allowed(s, events) && Enabled(Run(s, events), e)
    ensures Allowed(s, events + [e])
    ensures TrackRun(f, s, events + [e]) == Track(TrackRun(f, s, events), Run(s, events), e)
    decreases |events|
  {
    hide Next, Enabled, Track;
    Extend(s, events, e);
    if events == [] {
      assert [e][1..] == [];
    } else {
      assert (events + [e])[0] == events[0] && (events + [e])[1..] == events[1..] + [e];
      TrackMore(Track(f, s, events[0]), Next(s, events[0]), events[1..], e);
    }
  }

  /** One more event of a run, whose end is known. */
  lemma On(events: seq<Event>, s: State, f: Saved, e: Event) returns (longer: seq<Event>, t: State, g: Saved)
    requires Allowed(Start(), events) && Run(Start(), events) == s && TrackRun(None(), Start(), events) == f
    requires Enabled(s, e)
    ensures Allowed(Start(), longer) && Run(Start(), longer) == t && TrackRun(None(), Start(), longer) == g
    ensures t == Next(s, e) && g == Track(f, s, e)
  {
    longer, t := Further(events, s, e);
    TrackMore(None(), Start(), events, e);
    g := Track(f, s, e);
  }

  lemma Begin()
    ensures Allowed(Start(), []) && Run(Start(), []) == Start() && TrackRun(None(), Start(), []) == None()
  {
  }

  /** The output port is flushed for flush command c when unroute command d arrives: the returned
      control message answers d only, and c stays in the input port of the unrouted source. */
  lemma FlushLost(c: nat, d: nat) returns (events: seq<Event>)
    ensures Allowed(Start(), events)
    ensures var s, f := Run(Start(), events), TrackRun(None(), Start(), events);
      && s.life == Running && !Routed(s) && s.core == [] && s.sink.queue == []
      && s.answered == [d] && f.waiting == [c] && f.answered == []
  {
    Setup();
    Commands(d, d);
    Begin();
    var s, f := Start(), None();
    hide Run, Allowed, TrackRun, AfterRoute, AfterProduce, AfterFlush, AfterUnrouteStart, FlushSends, FlushedAtOnce;
    events, s, f := On([], s, f, RouteCommand(1));
    events, s, f := On(events, s, f, Produce);
    assert s.port == Sending([]) && f == None();
    events, s, f := On(events, s, f, Dispatch(false));
    assert s.sink == Sink(Running, [1], false) && s.core == [];
    events, s, f := On(events, s, f, FlushCommand(c));
    assert s.port == Flushing([]) && s.core == [Packet(CONTROL, Flush, true)] && f == Saved([c], []);
    events, s, f := On(events, s, f, UnrouteCommand(d));
    assert s.port == Unrouting([], d) && f == Saved([c], []);
    events, s, f := PassingOver(events, s, f, c, d);
  }

  lemma PassingOver(events: seq<Event>, s: State, f: Saved, c: nat, d: nat)
    returns (longer: seq<Event>, t: State, g: Saved)
    requires Allowed(Start(), events) && Run(Start(), events) == s && TrackRun(None(), Start(), events) == f
    requires f == Saved([c], []) && s.life == Running && s.core == [Packet(CONTROL, Flush, true)]
    requires s.sink == Sink(Running, [1], false) && s.answered == [] && s.port == Unrouting([], d)
    ensures Allowed(Start(), longer) && Run(Start(), longer) == t && TrackRun(None(), Start(), longer) == g
    ensures t.life == Running && !Routed(t) && t.core == [] && t.sink.queue == []
    ensures t.answered == [d] && g.waiting == [c] && g.answered == []
  {
    SinkAnswersFlush(s);
    hide Run, Allowed, TrackRun, Next;
    assert Enabled(s, Dispatch(false)) && !Purges(s, Dispatch(false)) && !EndsPurge(s, Dispatch(false));
    longer, t, g := On(events, s, f, Dispatch(false));
    BufferComesHome(t);
    longer, t, g := On(longer, t, g, Dispatch(false));
    UnroutesOnly(t, d);
    longer, t, g := On(longer, t, g, Dispatch(false));
  }

  /** What the three dispatches do. */
  lemma SinkAnswersFlush(s: State)
    requires s.core == [Packet(CONTROL, Flush, true)] && s.sink == Sink(Running, [1], false)
    ensures Next(s, Dispatch(false)) == s.(core := [Packet(1, FillThisBuffer, false), Packet(CONTROL, Flush, false)],
                                           sink := Sink(Running, [], false))
  {
    hide SourceReceives;
    assert s.core[1..] == [];
    assert [] + Replies([1], FillThisBuffer) + [Packet(CONTROL, Flush, false)]
        == [Packet(1, FillThisBuffer, false), Packet(CONTROL, Flush, false)];
  }

  lemma BufferComesHome(s: State)
    requires s.core == [Packet(1, FillThisBuffer, false), Packet(CONTROL, Flush, false)] && s.life == Running
    ensures Next(s, Dispatch(false))
         == s.(core := [Packet(CONTROL, Flush, false)], port := s.port.(queue := s.port.queue + [1]))
  {
    hide SinkReceives;
    assert s.core[1..] == [Packet(CONTROL, Flush, false)];
  }

  lemma UnroutesOnly(s: State, d: nat)
    requires s.core == [Packet(CONTROL, Flush, false)] && s.life == Running
    requires UNROUTING in s.port.flags && s.port.unroute == d
    ensures var t := Next(s, Dispatch(false));
      && t.life == Running && !Routed(t) && t.core == [] && t.sink == s.sink && t.answered == s.answered + [d]
  {
    hide SinkReceives;
  }
}
