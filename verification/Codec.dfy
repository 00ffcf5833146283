/**
 The codec component: its commands update the state word and the core's scheduler in place, and
 refine the transitions of module CodecControl.
 */
module Codec {
  import opened CodecControl
  import opened Deadlines
  import opened FlagWords
  import opened Pointers
  import opened Scheduler

  /** The same other tasks wait. */
  ghost predicate OthersStay(w: Arrivals, w': Arrivals, t: nat) {
    forall u: nat :: u != t ==> (Waits(w', u) <==> Waits(w, u))
  }

  lemma OneEnters(w: Arrivals, e: Entry)
    ensures Waits(w + [e], e.task) && OthersStay(w, w + [e], e.task)
  {
    assert (w + [e])[|w|] == e;
    forall u: nat | u != e.task ensures Waits(w + [e], u) <==> Waits(w, u) {
      if Waits(w, u) {
        var i :| 0 <= i < |w| && w[i].task == u;
        assert (w + [e])[i].task == u;
      }
    }
  }

  lemma OneLeaves(w: Arrivals, t: nat)
    requires DistinctTasks(w)
    ensures !Waits(Drop(w, t), t) && OthersStay(w, Drop(w, t), t)
  {
    DropKeeps(w, t);
    var d := Drop(w, t);
    forall u: nat | u != t ensures Waits(d, u) <==> Waits(w, u) {
      if Waits(w, u) {
        var i :| 0 <= i < |w| && w[i].task == u;
        assert w[i] in d;
      }
      if Waits(d, u) {
        var i :| 0 <= i < |d| && d[i].task == u;
        assert d[i] in d;
      }
    }
  }

  class Codec {
    const task: nat
    const sched: Sched
    var state: set<Flag>
    var stage: Stage

    ghost function Abs(): Control
      reads this, sched
    {
      Control(state, if Waits(sched.waiting, task) then 1 else 0, stage)
    }

    ghost predicate Valid()
      reads this, sched
    {
      task != NIL && sched.Valid() && Inv(Abs())
    }

    constructor (t: nat, s: Sched)
      requires t != NIL && s.Valid() && !Waits(s.waiting, t)
      ensures Valid() && sched == s && task == t && Abs() == Fresh()
    {
      task, sched := t, s;
      state, stage := {}, Active;
    }

    /** Puts the task into the scheduler unless the flag says that it is there. */
    method BaseSchedule(dts: nat)
      requires task != NIL && sched.Valid() && dts < HALF
      requires SCHEDULE !in state ==> !Waits(sched.waiting, task)
      modifies this`state, sched
      ensures sched.Valid() && Abs() == Schedule(old(Abs())) && sched.now == old(sched.now)
      ensures OthersStay(old(sched.waiting), sched.waiting, task)
    {
      if SCHEDULE !in state {
        hide Sched.Valid, Waits, Holds;
        ghost var w := sched.waiting;
        OneEnters(w, Entry(task, Masked(sched.now + dts)));
        sched.Schedule(task, dts);
        state := Xor(state, {SCHEDULE});
      }
    }

    method BaseCancel()
      requires Valid()
      modifies this`state, sched
      ensures Valid() && Abs() == Cancel(old(Abs())) && sched.now == old(sched.now)
      ensures OthersStay(old(sched.waiting), sched.waiting, task)
    {
      CancelKeeps(Abs());
      if SCHEDULE in state {
        DistinctInside();
        OneLeaves(sched.waiting, task);
        hide Sched.Valid, Waits, Holds, OthersStay;
        sched.Cancel(task);
        state := Xor(state, {SCHEDULE});
      }
    }

    lemma DistinctInside()
      requires sched.Valid()
      ensures DistinctTasks(sched.waiting)
    {
    }

    /** The first parameters complete the static setup. */
    method SetParams(postinit: bool)
      requires Valid() && stage.Active?
      modifies this`state
      ensures Valid() && Abs() == After(old(Abs()), SetParam(postinit))
    {
      StepKeeps(Abs(), SetParam(postinit));
      hide Sched.Valid, Waits, Inv;
      if POSTINIT !in state {
        if postinit {
          state := Xor(state, {POSTINIT, RUNTIME_INIT});
        }
      }
    }

    /** New input data.  A restart assigns the whole state word: while the task is in the scheduler
        this, and nothing else, uncouples the flag.  (Putting the task there once more is excluded:
        its tree node cannot be linked twice.) */
    method PutInput(accepted: bool, outputReady: bool) returns (ok: bool)
      requires Valid() && stage.Active?
      requires outputReady ==> !RestartWhileScheduled(Abs(), EmptyThisBuffer(accepted, outputReady))
      modifies this`state, sched
      ensures Valid() <==> !old(RestartWhileScheduled(Abs(), EmptyThisBuffer(accepted, outputReady)))
      ensures sched.Valid() && Abs() == After(old(Abs()), EmptyThisBuffer(accepted, outputReady))
      ensures OthersStay(old(sched.waiting), sched.waiting, task)
      ensures ok <==> POSTINIT in old(state)
    {
      StepKeepsExactly(Abs(), EmptyThisBuffer(accepted, outputReady));
      Phases(state);
      Restarted(state);
      hide Sched.Valid, Waits, OnePhase;
      if POSTINIT !in state {
        return false;
      }
      if accepted {
        if COMPLETED in state {
          state := {POSTINIT, EXECUTION};
        }
        if RUNTIME_INIT !in state && EXECUTION !in state {
          return false;
        }
        if outputReady {
          BaseSchedule(0);
        }
      }
      return true;
    }

    lemma Phases(flags: set<Flag>)
      requires OnePhase(flags)
      ensures POSTINIT in flags ==> RUNTIME_INIT in flags || EXECUTION in flags || COMPLETED in flags
    {
      if POSTINIT in flags {
        var p := {RUNTIME_INIT, EXECUTION, COMPLETED};
        assert RUNTIME_INIT in flags * p || EXECUTION in flags * p || COMPLETED in flags * p;
      }
    }

    /** A buffer for output; `ready`: it is the first one and there is input. */
    method PutOutput(ready: bool) returns (ok: bool)
      requires Valid() && stage.Active?
      modifies this`state, sched
      ensures Valid() && Abs() == After(old(Abs()), FillThisBuffer(ready))
      ensures OthersStay(old(sched.waiting), sched.waiting, task)
      ensures ok <==> POSTINIT in old(state)
    {
      StepKeeps(Abs(), FillThisBuffer(ready));
      hide Sched.Valid, Waits, OnePhase;
      if POSTINIT !in state {
        return false;
      }
      if ready {
        if RUNTIME_INIT in state || EXECUTION in state {
          BaseSchedule(0);
        }
      }
      return true;
    }

    method RoutePort(routed: bool) returns (ok: bool)
      requires Valid() && stage.Active?
      modifies this`state, sched
      ensures Valid() && Abs() == After(old(Abs()), Route(routed))
      ensures OthersStay(old(sched.waiting), sched.waiting, task)
      ensures ok <==> POSTINIT in old(state) && routed
    {
      StepKeeps(Abs(), Route(routed));
      hide Sched.Valid, Waits, OnePhase;
      if POSTINIT !in state || !routed {
        return false;
      }
      BaseSchedule(0);
      return true;
    }

    method UnroutePort() returns (ok: bool)
      requires Valid() && stage.Active?
      modifies this`state, sched
      ensures Valid() && Abs() == After(old(Abs()), Unroute)
      ensures OthersStay(old(sched.waiting), sched.waiting, task)
      ensures ok <==> POSTINIT in old(state)
    {
      StepKeeps(Abs(), Unroute);
      hide Sched.Valid, Waits, OnePhase;
      if POSTINIT !in state {
        return false;
      }
      BaseCancel();
      state := state - {OUTPUT_SETUP};
      return true;
    }

    /** A flush of the input port (0) or of the output port. */
    method FlushPort(port: nat) returns (ok: bool)
      requires Valid() && stage.Active?
      modifies this`state, sched
      ensures Valid() && Abs() == After(old(Abs()), if port == 0 then FlushInput else FlushOutput)
      ensures OthersStay(old(sched.waiting), sched.waiting, task)
      ensures ok <==> POSTINIT in old(state)
    {
      StepKeeps(Abs(), if port == 0 then FlushInput else FlushOutput);
      hide Sched.Valid, Waits, OnePhase;
      if POSTINIT !in state {
        return false;
      }
      if port == 0 {
        BaseCancel();
        state := state - {INPUT_SETUP};
      } else {
        state := state - {OUTPUT_SETUP};
      }
      return true;
    }

    /** Sets up the buffers; without data the execution ends here. */
    method Preprocess(x: Execution) returns (ok: bool)
      modifies this`state
      ensures state == SetUp(old(state), x)
      ensures ok <==> OUTPUT_SETUP in state && INPUT_SETUP in state
    {
      if OUTPUT_SETUP !in state {
        if !x.outputSet {
          return false;
        }
        state := Xor(state, {OUTPUT_SETUP});
      }
      if INPUT_SETUP !in state {
        if !x.inputSet {
          return false;
        }
        state := Xor(state, {INPUT_SETUP});
      }
      return true;
    }

    /** Moves to the next phase when the plugin reports the end of the current one. */
    method EndPhase(done: bool)
      modifies this`state
      ensures state == Advance(old(state), done)
    {
      if RUNTIME_INIT in state {
        if done {
          state := Xor(state, {RUNTIME_INIT, EXECUTION});
        }
      } else if EXECUTION in state {
        if done {
          state := Xor(state, {EXECUTION, COMPLETED});
        }
      }
    }

    /** Maintains the buffers and schedules the next execution. */
    method Postprocess(x: Execution, dts: nat)
      requires task != NIL && sched.Valid() && dts < HALF && x.posted
      requires SCHEDULE !in state && !Waits(sched.waiting, task)
      modifies this`state, sched
      ensures sched.Valid() && sched.now == old(sched.now) && OthersStay(old(sched.waiting), sched.waiting, task)
      ensures var c := old(Abs()).(flags := Settle(old(state), x));
              Abs() == if x.done
                       then c.(flags := if EXECUTION in c.flags && x.prepared
                                        then c.flags - {INPUT_SETUP, OUTPUT_SETUP} else c.flags)
                       else if x.ready then Schedule(c) else c
    {
      hide Sched.Valid, Waits;
      if x.consumed {
        state := Xor(state, {INPUT_SETUP});
      }
      if x.produced {
        state := Xor(state, {OUTPUT_SETUP});
      }
      if x.done {
        if EXECUTION in state {
          if x.prepared {
            state := state - {INPUT_SETUP, OUTPUT_SETUP};
          }
        }
        return;
      }
      if x.ready {
        BaseSchedule(dts);
      }
    }

    /** One execution of the task that the scheduler has handed out; dts is the duration of what was
        produced. */
    method Process(x: Execution, dts: nat)
      requires task != NIL && sched.Valid() && dts < HALF && stage.Active? && OnePhase(state)
      requires SCHEDULE in state && !Waits(sched.waiting, task)
      modifies this`state, sched
      ensures sched.Valid() && Abs() == AfterExecution(Control(old(state), 1, stage), x)
      ensures sched.now == old(sched.now) && OthersStay(old(sched.waiting), sched.waiting, task)
    {
      WithoutSetup(state, SCHEDULE);
      hide Sched.Valid, Waits, OnePhase, SetUp, Advance, Settle;
      state := state - {SCHEDULE};
      SetUpKeeps(state, x);
      var ok := Preprocess(x);
      if !ok || !x.executed {
        return;
      }
      AdvanceKeeps(state, x.done);
      EndPhase(x.done);
      if !x.posted {
        return;
      }
      Postprocess(x, dts);
    }

    /** The core takes the next task from the scheduler; if it is this one, it is executed. */
    method Service(x: Execution, dts: nat) returns (t: nat)
      requires Valid() && dts < HALF
      modifies this`state, sched
      ensures Valid()
      ensures t == task ==> Enabled(old(Abs()), Execute(x)) && Abs() == After(old(Abs()), Execute(x))
      ensures t != task ==> Abs() == old(Abs())
    {
      ghost var w, c := sched.waiting, Abs();
      DistinctInside();
      t := sched.Get();
      hide Sched.Valid, OnePhase;
      if t != NIL {
        OneLeaves(w, t);
        ghost var i: nat :| Deadlines.Next(w, i) && w[i] == Entry(t, sched.now);
        assert Waits(w, t);
      }
      hide Waits, OthersStay;
      if t == task {
        ExecutionKeeps(c, x);
        Process(x, dts);
      }
    }

    /** First stage of the destruction; `idle`: the output port needs no flush. */
    method Terminate(idle: bool)
      requires Valid() && stage.Active?
      modifies this, sched
      ensures Valid() && Abs() == After(old(Abs()), Cleanup(idle)) && !Waits(sched.waiting, task)
      ensures OthersStay(old(sched.waiting), sched.waiting, task)
    {
      StepKeeps(Abs(), Cleanup(idle));
      CancelKeeps(Abs());
      hide Sched.Valid, Waits, OnePhase;
      BaseCancel();
      stage := if idle then Destroyed else Terminating;
    }

    /** Second stage: the control message of the output port is back. */
    method Destroy()
      requires Valid() && stage.Terminating?
      modifies this`stage
      ensures Valid() && Abs() == After(old(Abs()), FlushReturned) && !Waits(sched.waiting, task)
    {
      StepKeeps(Abs(), FlushReturned);
      hide Sched.Valid, Waits, OnePhase;
      stage := Destroyed;
    }
  }
}
