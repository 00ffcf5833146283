/**
 The control state of a codec component: the flags of its state word, whether its task is in the
 scheduler, and its stage of life.
 */
module CodecControl {
  import opened FlagWords

  datatype Flag = POSTINIT | RUNTIME_INIT | EXECUTION | COMPLETED | SCHEDULE | INPUT_SETUP | OUTPUT_SETUP

  // In service, waiting for its output port to be flushed, or destroyed.
  datatype Stage = Active | Terminating | Destroyed

  /** `waiting`: how often the task was put into the scheduler and not taken out again. */
  datatype Control = Control(flags: set<Flag>, waiting: int, stage: Stage)

  // One execution of the component's task, as far as it gets, with the plugin's answers.
  datatype Execution = Execution(
    outputSet: bool,   // an output buffer is there, or not needed
    inputSet: bool,    // input data is there, or not needed
    executed: bool,    // the plugin returned without a fatal error
    done: bool,        // the plugin reports the end of the current phase (arbitrary if it was not asked)
    posted: bool,      // the plugin reported what it consumed and produced
    consumed: bool,
    produced: bool,
    prepared: bool,    // the parameters of the decoded stream are sane
    ready: bool)       // both ports are ready for the next execution

  datatype Event =
    | SetParam(postinit: bool)
    | EmptyThisBuffer(accepted: bool, outputReady: bool)
    | FillThisBuffer(ready: bool)
    | Route(routed: bool)
    | Unroute
    | FlushInput
    | FlushOutput
    | Execute(x: Execution)
    | Cleanup(idle: bool)       // an unregister command or a fatal error
    | FlushReturned             // the control message comes back to a terminating component

  /** Puts the task into the scheduler unless the flag says that it is there. */
  function Schedule(c: Control): Control {
    if SCHEDULE in c.flags then c
    else c.(flags := Xor(c.flags, {SCHEDULE}), waiting := c.waiting + 1)
  }

  function Cancel(c: Control): Control {
    if SCHEDULE in c.flags then c.(flags := Xor(c.flags, {SCHEDULE}), waiting := c.waiting - 1) else c
  }

  /** An end of stream is undone by new data: the whole state word is assigned. */
  function Restart(flags: set<Flag>): set<Flag> {
    if COMPLETED in flags then {POSTINIT, EXECUTION} else flags
  }

  predicate Runs(flags: set<Flag>) { RUNTIME_INIT in flags || EXECUTION in flags }

  // ---------------------------------------------------------------- execution

  /** The flags after the buffers are set up: these two steps leave early without data. */
  function SetUp(flags: set<Flag>, x: Execution): set<Flag> {
    var o := if OUTPUT_SETUP !in flags && x.outputSet then Xor(flags, {OUTPUT_SETUP}) else flags;
    if OUTPUT_SETUP in o && INPUT_SETUP !in o && x.inputSet then Xor(o, {INPUT_SETUP}) else o
  }

  /** The flags after the plugin's step, which may end the current phase. */
  function Advance(flags: set<Flag>, done: bool): set<Flag> {
    if !done then flags
    else if RUNTIME_INIT in flags then Xor(flags, {RUNTIME_INIT, EXECUTION})
    else if EXECUTION in flags then Xor(flags, {EXECUTION, COMPLETED})
    else flags
  }

  /** The flags after the buffers' maintenance. */
  function Settle(flags: set<Flag>, x: Execution): set<Flag> {
    var i := if x.consumed then Xor(flags, {INPUT_SETUP}) else flags;
    if x.produced then Xor(i, {OUTPUT_SETUP}) else i
  }

  function AfterExecution(c: Control, x: Execution): Control {
    var c1 := c.(flags := c.flags - {SCHEDULE}, waiting := c.waiting - 1);
    var set1 := SetUp(c1.flags, x);
    if !(OUTPUT_SETUP in set1 && INPUT_SETUP in set1 && x.executed) then c1.(flags := set1)
    else
      var set2 := Advance(set1, x.done);
      if !x.posted then c1.(flags := set2)
      else
        var set3 := Settle(set2, x);
        if x.done then
          c1.(flags := if EXECUTION in set3 && x.prepared then set3 - {INPUT_SETUP, OUTPUT_SETUP} else set3)
        else if x.ready then Schedule(c1.(flags := set3)) else c1.(flags := set3)
  }

  // -------------------------------------------------------------- transitions

  /** The scheduler hands out whatever waits in it; messages reach a component until it is gone. */
  predicate Enabled(c: Control, e: Event) {
    match e
    case Execute(_) => c.waiting > 0
    case FlushReturned => c.stage.Terminating?
    case _ => !c.stage.Destroyed?
  }

  function After(c: Control, e: Event): Control
    requires Enabled(c, e)
  {
    // a terminating component has another entry point, which drops or refuses all other messages
    if c.stage.Terminating? && !e.Execute? && !e.FlushReturned? then c
    // what a task does that is executed out of service is not described
    else if !c.stage.Active? && e.Execute? then c.(waiting := c.waiting - 1) else
    match e
    case SetParam(postinit) =>
      if POSTINIT !in c.flags && postinit then c.(flags := Xor(c.flags, {POSTINIT, RUNTIME_INIT})) else c
    case EmptyThisBuffer(accepted, outputReady) =>
      if POSTINIT !in c.flags || !accepted then c
      else
        var r := c.(flags := Restart(c.flags));
        if Runs(r.flags) && outputReady then Schedule(r) else r
    case FillThisBuffer(ready) =>
      if POSTINIT in c.flags && ready && Runs(c.flags) then Schedule(c) else c
    case Route(routed) => if POSTINIT in c.flags && routed then Schedule(c) else c
    case Unroute =>
      if POSTINIT !in c.flags then c
      else var k := Cancel(c); k.(flags := k.flags - {OUTPUT_SETUP})
    case FlushInput =>
      if POSTINIT !in c.flags then c
      else var k := Cancel(c); k.(flags := k.flags - {INPUT_SETUP})
    case FlushOutput => if POSTINIT in c.flags then c.(flags := c.flags - {OUTPUT_SETUP}) else c
    case Execute(x) => AfterExecution(c, x)
    case Cleanup(idle) => Cancel(c).(stage := if idle then Destroyed else Terminating)
    case FlushReturned => c.(stage := Destroyed)
  }

  // --------------------------------------------------------------- invariants

  /** Before the static setup no phase is set, afterwards exactly one. */
  predicate OnePhase(flags: set<Flag>) {
    var phases := flags * {RUNTIME_INIT, EXECUTION, COMPLETED};
    if POSTINIT in flags
    then phases == {RUNTIME_INIT} || phases == {EXECUTION} || phases == {COMPLETED}
    else phases == {}
  }

  function Flagged(c: Control): int { if SCHEDULE in c.flags then 1 else 0 }

  /** Cleanup clears the flag, and nothing sets it afterwards. */
  predicate Quiet(c: Control) { !c.stage.Active? ==> SCHEDULE !in c.flags }

  /** The flag tells exactly whether the task is in the scheduler, where it is at most once, and a
      component that is cleaning up is not there. */
  predicate Coupled(c: Control) { c.waiting == Flagged(c) && Quiet(c) }

  predicate Inv(c: Control) { OnePhase(c.flags) && Coupled(c) }

  /** New data restarts the stream while the task is in the scheduler. */
  predicate RestartWhileScheduled(c: Control, e: Event) {
    && c.stage.Active? && e.EmptyThisBuffer? && e.accepted && POSTINIT in c.flags && COMPLETED in c.flags
    && SCHEDULE in c.flags
  }

  lemma ScheduleKeeps(c: Control)
    requires Inv(c) && c.stage.Active?
    ensures Inv(Schedule(c)) && Schedule(c).waiting == 1 && SCHEDULE in Schedule(c).flags
  {
    assert Schedule(c).flags == c.flags + {SCHEDULE};
  }

  lemma CancelKeeps(c: Control)
    requires Inv(c)
    ensures Inv(Cancel(c)) && Cancel(c).waiting == 0 && Cancel(c).flags == c.flags - {SCHEDULE}
  {
  }

  lemma WithoutSetup(flags: set<Flag>, f: Flag)
    requires OnePhase(flags) && f in {INPUT_SETUP, OUTPUT_SETUP, SCHEDULE}
    ensures OnePhase(flags - {f}) && OnePhase(flags + {f})
  {
    var p := {RUNTIME_INIT, EXECUTION, COMPLETED};
    assert (flags - {f}) * p == flags * p && (flags + {f}) * p == flags * p;
  }

  /** An execution leaves the phase flags one-hot: a phase that ends turns into the next one. */
  lemma AdvanceKeeps(flags: set<Flag>, done: bool)
    requires OnePhase(flags)
    ensures OnePhase(Advance(flags, done)) && (SCHEDULE in Advance(flags, done) <==> SCHEDULE in flags)
    ensures done ==> RUNTIME_INIT !in Advance(flags, done)
    ensures INPUT_SETUP in Advance(flags, done) <==> INPUT_SETUP in flags
    ensures OUTPUT_SETUP in Advance(flags, done) <==> OUTPUT_SETUP in flags
  {
    var p := {RUNTIME_INIT, EXECUTION, COMPLETED};
    var n := Advance(flags, done);
    if RUNTIME_INIT in flags {
      assert RUNTIME_INIT in flags * p;
      assert EXECUTION !in flags * p && COMPLETED !in flags * p;
      assert done ==> n * p == {EXECUTION};
    } else if EXECUTION in flags {
      assert EXECUTION in flags * p;
      assert COMPLETED !in flags * p;
      assert done ==> n * p == {COMPLETED};
    }
  }

  lemma SetUpKeeps(flags: set<Flag>, x: Execution)
    requires OnePhase(flags)
    ensures OnePhase(SetUp(flags, x)) && (SCHEDULE in SetUp(flags, x) <==> SCHEDULE in flags)
  {
    var o := if OUTPUT_SETUP !in flags && x.outputSet then Xor(flags, {OUTPUT_SETUP}) else flags;
    assert o == flags || o == flags + {OUTPUT_SETUP};
    assert SetUp(flags, x) == o || SetUp(flags, x) == o + {INPUT_SETUP};
    WithoutSetup(flags, OUTPUT_SETUP);
    WithoutSetup(o, INPUT_SETUP);
  }

  /** What was consumed or produced has to be set up again, and nothing else. */
  lemma SettleKeeps(flags: set<Flag>, x: Execution)
    requires OnePhase(flags) && INPUT_SETUP in flags && OUTPUT_SETUP in flags
    ensures OnePhase(Settle(flags, x)) && (SCHEDULE in Settle(flags, x) <==> SCHEDULE in flags)
    ensures INPUT_SETUP in Settle(flags, x) <==> !x.consumed
    ensures OUTPUT_SETUP in Settle(flags, x) <==> !x.produced
  {
    var i := if x.consumed then Xor(flags, {INPUT_SETUP}) else flags;
    assert i == if x.consumed then flags - {INPUT_SETUP} else flags;
    assert Settle(flags, x) == if x.produced then i - {OUTPUT_SETUP} else i;
    WithoutSetup(flags, INPUT_SETUP);
    WithoutSetup(i, OUTPUT_SETUP);
  }

  lemma ExecutionKeeps(c: Control, x: Execution)
    requires Inv(c) && c.waiting > 0 && c.stage.Active?
    ensures Inv(AfterExecution(c, x)) && AfterExecution(c, x).stage.Active?
  {
    var c1 := c.(flags := c.flags - {SCHEDULE}, waiting := c.waiting - 1);
    WithoutSetup(c.flags, SCHEDULE);
    var set1 := SetUp(c1.flags, x);
    SetUpKeeps(c1.flags, x);
    if OUTPUT_SETUP in set1 && INPUT_SETUP in set1 && x.executed {
      var set2 := Advance(set1, x.done);
      AdvanceKeeps(set1, x.done);
      if x.posted {
        var set3 := Settle(set2, x);
        SettleKeeps(set2, x);
        hide OnePhase, SetUp, Advance, Settle;
        if x.done {
          WithoutSetup(set3, INPUT_SETUP);
          WithoutSetup(set3 - {INPUT_SETUP}, OUTPUT_SETUP);
          assert set3 - {INPUT_SETUP} - {OUTPUT_SETUP} == set3 - {INPUT_SETUP, OUTPUT_SETUP};
        } else {
          ScheduleKeeps(c1.(flags := set3));
        }
      }
    }
  }

  lemma FirstPhase(flags: set<Flag>)
    requires OnePhase(flags) && POSTINIT !in flags
    ensures OnePhase(Xor(flags, {POSTINIT, RUNTIME_INIT}))
    ensures SCHEDULE in Xor(flags, {POSTINIT, RUNTIME_INIT}) <==> SCHEDULE in flags
  {
    var p := {RUNTIME_INIT, EXECUTION, COMPLETED};
    assert RUNTIME_INIT !in flags * p && EXECUTION !in flags * p && COMPLETED !in flags * p;
    assert Xor(flags, {POSTINIT, RUNTIME_INIT}) * p == {RUNTIME_INIT};
  }

  lemma Restarted(flags: set<Flag>)
    requires OnePhase(flags)
    ensures OnePhase(Restart(flags))
    ensures COMPLETED in flags ==> SCHEDULE !in Restart(flags)
  {
    assert {POSTINIT, EXECUTION} * {RUNTIME_INIT, EXECUTION, COMPLETED} == {EXECUTION};
  }

  lemma StepKeeps(c: Control, e: Event)
    requires Inv(c) && Enabled(c, e) && !RestartWhileScheduled(c, e)
    ensures Inv(After(c, e))
  {
    hide OnePhase;
    if !c.stage.Active? {
      return;
    }
    match e
    case SetParam(postinit) =>
      if POSTINIT !in c.flags {
        FirstPhase(c.flags);
      }
    case EmptyThisBuffer(accepted, outputReady) =>
      Restarted(c.flags);
      if POSTINIT in c.flags && accepted {
        ScheduleKeeps(c.(flags := Restart(c.flags)));
      }
    case FillThisBuffer(ready) => ScheduleKeeps(c);
    case Route(routed) => ScheduleKeeps(c);
    case Unroute =>
      CancelKeeps(c);
      WithoutSetup(Cancel(c).flags, OUTPUT_SETUP);
    case FlushInput =>
      CancelKeeps(c);
      WithoutSetup(Cancel(c).flags, INPUT_SETUP);
    case FlushOutput => WithoutSetup(c.flags, OUTPUT_SETUP);
    case Execute(x) => ExecutionKeeps(c, x);
    case Cleanup(idle) => CancelKeeps(c);
    case FlushReturned =>
  }

  /** Restarting while the task waits loses the flag, and exactly this step breaks the coupling. */
  lemma StepKeepsExactly(c: Control, e: Event)
    requires Inv(c) && Enabled(c, e)
    ensures Inv(After(c, e)) <==> !RestartWhileScheduled(c, e)
  {
    if RestartWhileScheduled(c, e) {
      assert Runs(Restart(c.flags)) && c.waiting == 1;
    } else {
      StepKeeps(c, e);
    }
  }

  // -------------------------------------------------------------------- runs

  function Fresh(): Control { Control({}, 0, Active) }

  predicate Allowed(c: Control, events: seq<Event>)
    decreases |events|
  {
    events == [] || (Enabled(c, events[0]) && Allowed(After(c, events[0]), events[1..]))
  }

  function Run(c: Control, events: seq<Event>): Control
    requires Allowed(c, events)
    decreases |events|
  {
    if events == [] then c else Run(After(c, events[0]), events[1..])
  }

  /** No restart of a completed stream happens while the task is in the scheduler. */
  predicate CleanRestarts(c: Control, events: seq<Event>)
    requires Allowed(c, events)
    decreases |events|
  {
    events == [] || (!RestartWhileScheduled(c, events[0]) && CleanRestarts(After(c, events[0]), events[1..]))
  }

  /** Whatever happens to a component, its state stays consistent. */
  lemma {:induction false} RunKeeps(c: Control, events: seq<Event>)
    requires Inv(c) && Allowed(c, events) && CleanRestarts(c, events)
    ensures Inv(Run(c, events))
    decreases |events|
  {
    hide Inv, After, Enabled, RestartWhileScheduled;
    if events != [] {
      StepKeeps(c, events[0]);
      RunKeeps(After(c, events[0]), events[1..]);
    }
  }

  /** Once cleanup has started the task does not enter the scheduler any more. */
  lemma {:induction false} NeverReenters(c: Control, events: seq<Event>)
    requires !c.stage.Active? && Allowed(c, events)
    ensures Run(c, events).waiting <= c.waiting && !Run(c, events).stage.Active?
    decreases |events|
  {
    if events != [] {
      NeverReenters(After(c, events[0]), events[1..]);
    }
  }

  // -------------------------------------------------- what the scheduler keeps

  /** A restart that loses the flag leaves an entry behind; an execution without flag takes one. */
  function Excess(c: Control, e: Event): int {
    if RestartWhileScheduled(c, e) then 1 else if e.Execute? && SCHEDULE !in c.flags then -1 else 0
  }

  /** Restarts with the flag set, less executions with the flag clear. */
  function Surplus(c: Control, events: seq<Event>): int
    requires Allowed(c, events)
    decreases |events|
  {
    if events == [] then 0 else Excess(c, events[0]) + Surplus(After(c, events[0]), events[1..])
  }

  lemma SetUpFlag(flags: set<Flag>, x: Execution)
    ensures SCHEDULE in SetUp(flags, x) <==> SCHEDULE in flags
    ensures SCHEDULE in Advance(flags, x.done) <==> SCHEDULE in flags
    ensures SCHEDULE in Settle(flags, x) <==> SCHEDULE in flags
  {
  }

  lemma ExecutionCounts(c: Control, x: Execution)
    ensures AfterExecution(c, x).waiting - Flagged(AfterExecution(c, x)) == c.waiting - 1
    ensures AfterExecution(c, x).stage == c.stage
  {
    var f := c.flags - {SCHEDULE};
    SetUpFlag(f, x);
    SetUpFlag(SetUp(f, x), x);
    SetUpFlag(Advance(SetUp(f, x), x.done), x);
    hide SetUp, Advance, Settle;
  }

  lemma StepCounts(c: Control, e: Event)
    requires Enabled(c, e) && Quiet(c)
    ensures After(c, e).waiting - Flagged(After(c, e)) == c.waiting - Flagged(c) + Excess(c, e) && Quiet(After(c, e))
  {
    if e.Execute? && c.stage.Active? {
      ExecutionCounts(c, e.x);
    }
    hide AfterExecution;
  }

  lemma {:induction false} RunCounts(c: Control, events: seq<Event>)
    requires Allowed(c, events) && Quiet(c)
    ensures var r := Run(c, events);
            r.waiting - Flagged(r) == c.waiting - Flagged(c) + Surplus(c, events) && Quiet(r)
    decreases |events|
  {
    hide After, Enabled, Excess, Quiet, Flagged;
    if events != [] {
      StepCounts(c, events[0]);
      RunCounts(After(c, events[0]), events[1..]);
    }
  }

  /** In every run, a component that is cleaning up or destroyed is still in the scheduler if and
      only if it was restarted with the flag set more often than executed with the flag clear. */
  lemma LeftBehindExactly(events: seq<Event>)
    requires Allowed(Fresh(), events) && !Run(Fresh(), events).stage.Active?
    ensures Run(Fresh(), events).waiting == Surplus(Fresh(), events)
    ensures Run(Fresh(), events).waiting > 0 <==> Surplus(Fresh(), events) > 0
  {
    RunCounts(Fresh(), events);
  }

  // Executions that end the first phase, and the stream.
  const FIRST := Execution(true, true, true, true, true, true, false, true, false)
  const LAST := Execution(true, true, true, true, true, true, true, true, false)

  /** The states that a component goes through to a completed stream. */
  lemma ToCompletion()
    ensures After(Fresh(), SetParam(true)) == Control({POSTINIT, RUNTIME_INIT}, 0, Active)
    ensures After(Control({POSTINIT, RUNTIME_INIT}, 0, Active), EmptyThisBuffer(true, true))
         == Control({POSTINIT, RUNTIME_INIT, SCHEDULE}, 1, Active)
    ensures After(Control({POSTINIT, EXECUTION}, 0, Active), FillThisBuffer(true))
         == Control({POSTINIT, EXECUTION, SCHEDULE}, 1, Active)
  {
    hide AfterExecution;
  }

  lemma AfterCompletion()
    ensures After(Control({POSTINIT, COMPLETED}, 0, Active), Route(true))
         == Control({POSTINIT, COMPLETED, SCHEDULE}, 1, Active)
    ensures After(Control({POSTINIT, COMPLETED, SCHEDULE}, 1, Active), EmptyThisBuffer(true, true)).waiting == 2
    ensures After(Control({POSTINIT, COMPLETED, SCHEDULE}, 1, Active), EmptyThisBuffer(true, false))
         == Control({POSTINIT, EXECUTION}, 1, Active)
    ensures After(Control({POSTINIT, EXECUTION}, 1, Active), Cleanup(true))
         == Control({POSTINIT, EXECUTION}, 1, Destroyed)
  {
    hide AfterExecution;
  }

  lemma Executions()
    ensures After(Control({POSTINIT, RUNTIME_INIT, SCHEDULE}, 1, Active), Execute(FIRST))
         == Control({POSTINIT, EXECUTION}, 0, Active)
    ensures After(Control({POSTINIT, EXECUTION, SCHEDULE}, 1, Active), Execute(LAST))
         == Control({POSTINIT, COMPLETED}, 0, Active)
  {
    FirstExecution(FIRST, Control({POSTINIT, RUNTIME_INIT, SCHEDULE}, 1, Active));
    SecondExecution(LAST, Control({POSTINIT, EXECUTION, SCHEDULE}, 1, Active));
    hide AfterExecution;
  }

  /** The first events of the runs below: the output port is not routed, two executions complete the
      stream, and then the port is routed. */
  const COMPLETING: seq<Event> :=
    [SetParam(true), EmptyThisBuffer(true, true), Execute(FIRST), FillThisBuffer(true), Execute(LAST), Route(true)]

  lemma Completing()
    ensures Allowed(Fresh(), COMPLETING)
    ensures Run(Fresh(), COMPLETING) == Control({POSTINIT, COMPLETED, SCHEDULE}, 1, Active)
  {
    ToCompletion();
    Executions();
    AfterCompletion();
    hide After, Allowed, Run, FIRST, LAST;
    Single(Control({POSTINIT, COMPLETED}, 0, Active), Route(true));
    var s1 := [Route(true)];
    Prepend(Control({POSTINIT, EXECUTION, SCHEDULE}, 1, Active), Execute(LAST), s1);
    var s2 := [Execute(LAST)] + s1;
    Prepend(Control({POSTINIT, EXECUTION}, 0, Active), FillThisBuffer(true), s2);
    var s3 := [FillThisBuffer(true)] + s2;
    Prepend(Control({POSTINIT, RUNTIME_INIT, SCHEDULE}, 1, Active), Execute(FIRST), s3);
    var s4 := [Execute(FIRST)] + s3;
    Prepend(Control({POSTINIT, RUNTIME_INIT}, 0, Active), EmptyThisBuffer(true, true), s4);
    var s5 := [EmptyThisBuffer(true, true)] + s4;
    Prepend(Fresh(), SetParam(true), s5);
    assert [SetParam(true)] + s5 == COMPLETING;
  }

  /** New data puts the task into the scheduler twice. */
  lemma ScheduledTwice()
    ensures var events := COMPLETING + [EmptyThisBuffer(true, true)];
            Allowed(Fresh(), events) && Run(Fresh(), events).waiting == 2
  {
    Completing();
    AfterCompletion();
    hide After, COMPLETING;
    Extend(Fresh(), COMPLETING, EmptyThisBuffer(true, true));
  }

  /** With no output buffer at hand, new data only clears the flag; cleanup, which follows at once,
      does not cancel the task, and the component is destroyed while its task is in the scheduler. */
  lemma LeftBehind()
    ensures var events := COMPLETING + [EmptyThisBuffer(true, false)] + [Cleanup(true)];
            && Allowed(Fresh(), events)
            && Run(Fresh(), events).stage.Destroyed? && Run(Fresh(), events).waiting == 1
  {
    Completing();
    AfterCompletion();
    hide After, COMPLETING;
    Extend(Fresh(), COMPLETING, EmptyThisBuffer(true, false));
    Extend(Fresh(), COMPLETING + [EmptyThisBuffer(true, false)], Cleanup(true));
  }

  lemma {:induction false} Extend(c: Control, events: seq<Event>, e: Event)
    requires Allowed(c, events) && Enabled(Run(c, events), e)
    ensures Allowed(c, events + [e]) && Run(c, events + [e]) == After(Run(c, events), e)
    decreases |events|
  {
    hide After, Enabled;
    if events == [] {
      assert [e][1..] == [];
    } else {
      assert (events + [e])[0] == events[0] && (events + [e])[1..] == events[1..] + [e];
      Extend(After(c, events[0]), events[1..], e);
    }
  }

  lemma FirstExecution(x: Execution, c: Control)
    requires x.outputSet && x.inputSet && x.executed && x.done && x.posted && x.consumed && !x.produced && x.prepared
    requires c == Control({POSTINIT, RUNTIME_INIT, SCHEDULE}, 1, Active)
    ensures AfterExecution(c, x) == Control({POSTINIT, EXECUTION}, 0, Active)
  {
    assert c.flags - {SCHEDULE} == {POSTINIT, RUNTIME_INIT};
    assert SetUp({POSTINIT, RUNTIME_INIT}, x) == {POSTINIT, RUNTIME_INIT, OUTPUT_SETUP, INPUT_SETUP};
    assert Advance({POSTINIT, RUNTIME_INIT, OUTPUT_SETUP, INPUT_SETUP}, true)
        == {POSTINIT, EXECUTION, OUTPUT_SETUP, INPUT_SETUP};
    assert Settle({POSTINIT, EXECUTION, OUTPUT_SETUP, INPUT_SETUP}, x) == {POSTINIT, EXECUTION, OUTPUT_SETUP};
    assert {POSTINIT, EXECUTION, OUTPUT_SETUP} - {INPUT_SETUP, OUTPUT_SETUP} == {POSTINIT, EXECUTION};
  }

  lemma SecondExecution(x: Execution, c: Control)
    requires x.outputSet && x.inputSet && x.executed && x.done && x.posted && x.consumed && x.produced
    requires c == Control({POSTINIT, EXECUTION, SCHEDULE}, 1, Active)
    ensures AfterExecution(c, x) == Control({POSTINIT, COMPLETED}, 0, Active)
  {
    assert c.flags - {SCHEDULE} == {POSTINIT, EXECUTION};
    assert SetUp({POSTINIT, EXECUTION}, x) == {POSTINIT, EXECUTION, OUTPUT_SETUP, INPUT_SETUP};
    assert Advance({POSTINIT, EXECUTION, OUTPUT_SETUP, INPUT_SETUP}, true)
        == {POSTINIT, COMPLETED, OUTPUT_SETUP, INPUT_SETUP};
    assert Settle({POSTINIT, COMPLETED, OUTPUT_SETUP, INPUT_SETUP}, x) == {POSTINIT, COMPLETED};
  }

  lemma Single(c: Control, e: Event)
    requires Enabled(c, e)
    ensures Allowed(c, [e]) && Run(c, [e]) == After(c, e)
  {
    assert [e][1..] == [];
  }

  lemma Prepend(c: Control, e: Event, events: seq<Event>)
    requires Enabled(c, e) && Allowed(After(c, e), events)
    ensures Allowed(c, [e] + events) && Run(c, [e] + events) == Run(After(c, e), events)
  {
    assert ([e] + events)[1..] == events;
  }
}
