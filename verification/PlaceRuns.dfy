/**
 Where the data messages are, along every run: also when the source has left service and its pool is
 still to be released.
 */
module PlaceRuns {
  import opened Handshake
  import opened HandshakeRuns
  import opened OutputPort
  import opened Pointers
  import opened ReleaseRuns

  /** In how many of the four places message m is: the source's queue, the sink's input queue, the
      core queue on its way back and on its way out. */
  ghost function Places(s: State, m: nat): nat {
    multiset(s.port.queue)[m] + multiset(s.sink.queue)[m]
    + multiset(Travelling(s.core, false))[m] + multiset(Travelling(s.core, true))[m]
  }

  /** In order; or, after a bounce, at least in place; or with nothing left. */
  ghost predicate Kept(s: State) {
    Inv(s) || (Closed(s) && InOnePlace(s)) || (s.life == Gone && !Routed(s))
  }

  // ---------------------------------------------------- steps after a bounce

  lemma Regroup(a: seq<nat>, q: seq<nat>, m: nat, c: seq<nat>)
    ensures multiset(a + q + [m] + c) == multiset{m} + multiset(a + q + c)
    ensures multiset(a + [m] + q + c) == multiset{m} + multiset(a + q + c)
  {
    assert multiset(a + q + [m] + c) == multiset(a) + multiset(q) + multiset([m]) + multiset(c);
    assert multiset(a + [m] + q + c) == multiset(a) + multiset([m]) + multiset(q) + multiset(c);
    assert multiset(a + q + c) == multiset(a) + multiset(q) + multiset(c);
  }

  lemma PlacesOf(s: State)
    requires InOnePlace(s)
    ensures multiset(s.port.queue) + s.ignored + multiset(Line(s))
         == All(s.n) + (if FLUSHING in s.port.flags then multiset{CONTROL} else multiset{})
  {
  }

  /** The same messages in line, in whatever order. */
  lemma SamePlaces(s: State, t: State)
    requires InOnePlace(s) && t.port == s.port && t.n == s.n && t.ignored == s.ignored
    requires multiset(Line(t)) == multiset(Line(s))
    ensures InOnePlace(t)
  {
  }

  /** A message has left the line and is dropped. */
  lemma OneDropped(s: State, t: State, m: nat)
    requires InOnePlace(s) && t.port == s.port && t.n == s.n && t.ignored == s.ignored + multiset{m}
    requires multiset(Line(s)) == multiset{m} + multiset(Line(t))
    ensures InOnePlace(t)
  {
    hide *;
    PlacesOf(s);
    Dropped(multiset(s.port.queue), s.ignored, m, multiset(Line(t)));
    PlacesAgain(t);
  }

  /** What a dispatch does while both sides are out of service, if it does not release the pool. */
  lemma ClosedForms(s: State, save: bool)
    requires Closed(s) && s.core != [] && (s.core[0].toSink || s.core[0].m != CONTROL)
    ensures var p, r, t := s.core[0], s.(core := s.core[1..]), Next(s, Dispatch(save));
            if p.toSink && Answer(s, p) != [] then t == ToSource(r, p.m, Unregister)
            else t == r.(ignored := r.ignored + multiset{p.m})
  {
    hide SinkPurge;
  }

  lemma ClosedPlaces(s: State, save: bool)
    requires Closed(s) && InOnePlace(s) && s.core != [] && (s.core[0].toSink || s.core[0].m != CONTROL)
    ensures InOnePlace(Next(s, Dispatch(save)))
  {
    var p, r, t := s.core[0], s.(core := s.core[1..]), Next(s, Dispatch(save));
    ClosedForms(s, save);
    assert t.port == s.port && t.n == s.n;
    var a, q, c := Travelling(r.core, false), s.sink.queue, Travelling(r.core, true);
    hide *;
    LineDispatch(s);
    Regroup(a, q, p.m, c);
    LineParts(r);
    if p.toSink && Answer(s, p) != [] {
      LineToSource(r, p.m, Unregister);
      SamePlaces(s, t);
    } else {
      LineIgnored(r, t);
      assert multiset([p.m] + Line(r)) == multiset{p.m} + multiset(Line(r));
      OneDropped(s, t, p.m);
    }
  }

  lemma LineParts(s: State)
    ensures Line(s) == Travelling(s.core, false) + s.sink.queue + Travelling(s.core, true)
  {
  }

  lemma ClosedKept(s: State, e: Event)
    requires Closed(s) && InOnePlace(s) && Enabled(s, e)
    ensures Kept(Next(s, e))
  {
    ClosedStep(s, e);
    hide Next, InOnePlace, Inv, Line;
    var t := Next(s, e);
    if e == SinkDestroyed {
      SameLineParts(s, t);
      SamePlaces(s, t);
    } else if s.core[0].toSink || s.core[0].m != CONTROL {
      ClosedPlaces(s, e.save);
    }
  }

  lemma SameLineParts(s: State, t: State)
    requires t.core == s.core && t.sink.queue == s.sink.queue
    ensures Line(t) == Line(s)
  {
  }

  /** A bounce turns a message of the line round. */
  lemma BouncePlaces(s: State, e: Event)
    requires Inv(s) && Enabled(s, e) && BounceDuringFlush(s, e)
    ensures Closed(Next(s, e)) && InOnePlace(Next(s, e))
  {
    BounceTerminates(s, e);
    BounceFacts(s, e);
    var p, r, t := s.core[0], s.(core := s.core[1..]), Next(s, e);
    var b := ToSink(r, p.m, Unregister);
    assert t.port == s.port && t.n == s.n && t.ignored == s.ignored;
    assert t.core == b.core && t.sink == b.sink;
    hide *;
    Parts(s);
    LineDispatch(s);
    LineToSink(r, p.m, Unregister);
    SameLineParts(b, t);
    assert multiset(Line(r) + [p.m]) == multiset([p.m] + Line(r));
    SamePlaces(s, t);
    BothClosed(s, t);
  }

  lemma BothClosed(s: State, t: State)
    requires SentBackOut(s, t)
    ensures Closed(t)
  {
  }

  lemma StepKept(s: State, e: Event)
    requires Kept(s) && Enabled(s, e)
    ensures Kept(Next(s, e))
  {
    hide Inv, InOnePlace, Next, Closed, BounceDuringFlush;
    if Inv(s) {
      if BounceDuringFlush(s, e) {
        BouncePlaces(s, e);
      } else {
        StepKeeps(s, e);
      }
    } else if Closed(s) && InOnePlace(s) {
      ClosedKept(s, e);
    } else {
      NeverBack(s, e);
    }
  }

  lemma {:induction false} RunKept(s: State, events: seq<Event>)
    requires Kept(s) && Allowed(s, events)
    ensures Kept(Run(s, events))
    decreases |events|
  {
    hide Kept, Next, Enabled;
    if events != [] {
      StepKept(s, events[0]);
      RunKept(Next(s, events[0]), events[1..]);
    }
  }

  // -------------------------------------------------------------- every run

  lemma {:induction false} CountOnce(n: nat, m: nat)
    requires 0 < m <= n
    ensures All(n)[m] == 1
  {
    if m == n {
      assert m !in Items(n - 1);
    } else {
      CountOnce(n - 1, m);
    }
    assert Items(n) == Items(n - 1) + [n];
  }

  lemma CountPlaces(s: State, m: nat)
    requires InOnePlace(s) && 0 < m <= s.n
    ensures Places(s, m) + s.ignored[m] == 1
  {
    CountOnce(s.n, m);
    hide Travelling;
    assert (multiset(s.port.queue) + s.ignored + multiset(Line(s)))[m] == All(s.n)[m] + 0;
    var a, c := Travelling(s.core, false), Travelling(s.core, true);
    assert multiset(Line(s)) == multiset(a) + multiset(s.sink.queue) + multiset(c);
  }

  /** At any time of any run, while the port is routed, each data message is in exactly one of: the
      source's queue, the sink's input queue, the core queue on its way out or back, and the
      messages that a component out of service has dropped. */
  lemma EachInOnePlace(events: seq<Event>, m: nat)
    requires Allowed(Start(), events) && Routed(Run(Start(), events)) && 0 < m <= Run(Start(), events).n
    ensures var s := Run(Start(), events); Places(s, m) + s.ignored[m] == 1
  {
    StartInv();
    RunKept(Start(), events);
    var s := Run(Start(), events);
    hide Run, Allowed, Places;
    assert InOnePlace(s) by {
      hide InOnePlace;
      RoutedKept(s);
    }
    CountPlaces(s, m);
  }

  lemma RoutedKept(s: State)
    requires Kept(s) && Routed(s)
    ensures InOnePlace(s)
  {
    hide InOnePlace;
  }

  /** While the source is in service nothing is dropped. */
  lemma EachInFourPlaces(events: seq<Event>, m: nat)
    requires Allowed(Start(), events) && Run(Start(), events).life == Running && 0 < m <= Run(Start(), events).n
    ensures Places(Run(Start(), events), m) == 1
  {
    RunInv(events);
    var s := Run(Start(), events);
    hide Run, Allowed, Places;
    NothingDropped(s);
    CountPlaces(s, m);
  }

  lemma NothingDropped(s: State)
    requires Inv(s) && s.life == Running
    ensures InOnePlace(s) && s.ignored == multiset{}
  {
    hide InOnePlace, Line;
  }
}
