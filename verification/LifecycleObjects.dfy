// imp.go and internal/lifecycle/state.go as they run: the atomic state holder,
// the once, the stored error and the stopped channel, updated in place by the
// callers of Run and Shutdown as they take turns. Every action is proved to be
// the step that Lifecycle.dfy takes.
module LifecycleObjects {
  import opened Wrappers
  import opened Lifecycle
  import opened LifecycleVerdict

  /** The atomic state holder: Set takes any target, CompareAndSwap only moves from the expected state. */
  class Machine {
    var state: State

    constructor ()
      ensures state == Created
    {
      state := Created;
    }

    method Set(next: State) returns (prev: State)
      modifies this
      ensures prev == old(state) && state == next
    {
      prev := state;
      state := next;
    }

    method CompareAndSwap(prev: State, next: State) returns (ok: bool)
      modifies this
      ensures ok <==> old(state) == prev
      ensures state == if ok then next else old(state)
    {
      ok := state == prev;
      if ok { state := next; }
    }
  }

  class Runtime {
    const machine: Machine
    const isRun: seq<bool>
    var once: Once
    var shutdownErr: Option<bool>
    var stopped: bool
    var callers: seq<Pc>
    ghost var view: Sys

    ghost predicate Valid()
      reads this, machine
    {
      && view.state == machine.state && view.once == once && view.err == shutdownErr && view.closed == stopped
      && view.isRun == isRun && view.pcs == callers && |callers| == |isRun|
    }

    /** A booted runtime, and the callers about to enter Run or Shutdown. */
    constructor (isRun: seq<bool>)
      ensures Valid() && Booted(view) && this.isRun == isRun && fresh(machine)
    {
      this.isRun := isRun;
      machine := new Machine();
      once, shutdownErr, stopped := Unused, None, false;
      callers := seq(|isRun|, i requires 0 <= i < |isRun| => if isRun[i] then Swap else Enter);
      view := Sys(Created, Unused, false, None, isRun,
                  seq(|isRun|, i requires 0 <= i < |isRun| => if isRun[i] then Swap else Enter), [Created], None, None);
    }

    /** Caller i goes on to its next action. */
    method Goto(i: nat, pc: Pc)
      requires i < |callers|
      modifies this`callers
      ensures callers == old(callers)[i := pc]
    {
      callers := callers[i := pc];
    }

    /** Waiting on the stopped channel, then returning the stored error. */
    method AwaitStopped(i: nat)
      requires i < |callers|
      modifies this`callers
      ensures callers == if stopped && shutdownErr.Some? then old(callers)[i := Returned(shutdownErr.value)] else old(callers)
    {
      if stopped && shutdownErr.Some? { Goto(i, Returned(shutdownErr.value)); }
    }

    /** The next action of a caller in Run. */
    method ActInRun(i: nat, choice: bool)
      requires Valid() && i < |callers| && (callers[i].Swap? || OfRun(callers[i]))
      modifies this, machine
      ensures Valid() && view == Step(old(view), i, choice)
    {
      view := Step(view, i, choice);
      match callers[i] {
        case Swap =>
          var ok := machine.CompareAndSwap(Created, Starting);
          Goto(i, if ok then Binding else Rejected);
        case Binding =>
          Goto(i, if choice then MarkFailed else MarkRunning);
        case MarkRunning =>
          var _ := machine.Set(Running);
          Goto(i, Waiting);
        case MarkFailed =>
          var _ := machine.Set(Failed);
          Goto(i, FailedOut);
        case Waiting =>
          if choice { Goto(i, Enter); } else { AwaitStopped(i); }
        case FailedOut =>
      }
    }

    /** The next action of a caller in the body of Shutdown. */
    method ActInBody(i: nat, choice: bool)
      requires Valid() && i < |callers| && BodyStage(callers[i]) > 0
      modifies this, machine
      ensures Valid() && view == Step(old(view), i, choice)
    {
      view := Step(view, i, choice);
      match callers[i] {
        case MarkDraining =>
          var _ := machine.Set(Draining);
          Goto(i, Unwinding);
        case Unwinding => Goto(i, Cancelling);
        case Cancelling => Goto(i, WaitingDrain);
        case WaitingDrain =>
          shutdownErr := Some(choice);
          Goto(i, MarkStopped);
        case MarkStopped =>
          var _ := machine.Set(Stopped);
          Goto(i, Closing);
        case Closing =>
          stopped := true;
          Goto(i, Leaving);
        case Leaving =>
          once := Over;
          Goto(i, Awaiting);
      }
    }

    /** The next action of caller i; choice is what the action does not decide itself. */
    method Act(i: nat, choice: bool)
      requires Valid() && i < |callers|
      modifies this, machine
      ensures Valid() && view == Step(old(view), i, choice)
    {
      if callers[i].Swap? || OfRun(callers[i]) {
        ActInRun(i, choice);
      } else if BodyStage(callers[i]) > 0 {
        ActInBody(i, choice);
      } else {
        view := Step(view, i, choice);
        match callers[i] {
          case Enter =>
            match once {
              case Unused =>
                once := Busy(i);
                Goto(i, MarkDraining);
              case Busy(_) =>
              case Over => Goto(i, Awaiting);
            }
          case Awaiting => AwaitStopped(i);
          case _ =>
        }
      }
    }

    /**
     * Callers that take turns in any order do what the model's run does; the
     * state holder is at the last state seen, has held no state twice, and has gone
     * through the documented order exactly when Draining, if marked, was marked from Running;
     * and every caller that has returned did so with what the drain wait found.
     */
    method Drive(sched: seq<Move>)
      requires Valid() && Booted(view) && Schedule(view, sched)
      modifies this, machine
      ensures Valid() && view == Run(old(view), sched)
      ensures view.seen != [] && machine.state == view.seen[|view.seen| - 1]
      ensures forall x: State :: multiset(view.seen)[x] <= 1
      ensures forall k, i :: 0 <= k < |sched| && DrainEnds(old(view), sched, k) && 0 <= i < |callers| && callers[i].Returned? ==>
                callers[i] == Returned(sched[k].choice)
      ensures Documented(view.seen) <==> DrainedWhileRunning(view)
    {
      ghost var was := view;
      for k := 0 to |sched|
        invariant Valid() && |callers| == |was.pcs|
        invariant Run(was, sched) == Run(view, sched[k..])
      {
        assert sched[k..][1..] == sched[k + 1..];
        Act(sched[k].caller, sched[k].choice);
      }
      assert sched[|sched|..] == [];
      EachStateOnce(was, sched);
      ReturnsWhatTheDrainFound(was, sched);
      DocumentedIffDrainedWhileRunning(was, sched);
    }
  }
}
