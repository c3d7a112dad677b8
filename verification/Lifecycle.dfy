// The lifecycle of imp.go: any number of concurrent Run and Shutdown callers
// after a successful boot, one atomic step at a time, over the state holder of
// internal/lifecycle/state.go.
module Lifecycle {
  import opened Wrappers

  datatype State = Created | Starting | Running | Draining | Stopped | Failed

  /** Where a caller stands: first the steps of Run, then those of Shutdown. */
  datatype Pc =
    | Swap | Rejected | Binding | MarkRunning | MarkFailed | FailedOut | Waiting
    | Enter | MarkDraining | Unwinding | Cancelling | WaitingDrain | MarkStopped | Closing | Leaving
    | Awaiting | Returned(timedOut: bool)

  datatype Once = Unused | Busy(caller: nat) | Over

  /**
   * The shared state. seen is every state the holder has held, runner the Run
   * that won the swap, drainAt the position of Draining in seen: history only.
   */
  datatype Sys = Sys(
    state: State, once: Once, closed: bool, err: Option<bool>, isRun: seq<bool>, pcs: seq<Pc>,
    seen: seq<State>, runner: Option<nat>, drainAt: Option<nat>)

  ghost predicate WellFormed(s: Sys) {
    |s.pcs| == |s.isRun|
  }

  function To(s: Sys, i: nat, pc: Pc): Sys
    requires i < |s.pcs|
  {
    s.(pcs := s.pcs[i := pc])
  }

  function Put(s: Sys, next: State): Sys {
    s.(state := next, seen := s.seen + [next])
  }

  /**
   * Caller i makes its next step. choice stands for what the step does not
   * decide itself: whether binding fails, whether the context is done, whether
   * the drain window ran out.
   */
  function Step(s: Sys, i: nat, choice: bool): (s': Sys)
    requires i < |s.pcs|
    ensures |s'.pcs| == |s.pcs| && s'.isRun == s.isRun
  {
    match s.pcs[i]
    case Swap => if s.state == Created then To(Put(s, Starting), i, Binding).(runner := Some(i)) else To(s, i, Rejected)
    case Binding => To(s, i, if choice then MarkFailed else MarkRunning)
    case MarkRunning => To(Put(s, Running), i, Waiting)
    case MarkFailed => To(Put(s, Failed), i, FailedOut)
    case Waiting =>
      if choice then To(s, i, Enter)
      else if s.closed && s.err.Some? then To(s, i, Returned(s.err.value))
      else s
    case Enter =>
      (match s.once
       case Unused => To(s, i, MarkDraining).(once := Busy(i))
       case Busy(_) => s
       case Over => To(s, i, Awaiting))
    case MarkDraining => To(Put(s, Draining), i, Unwinding).(drainAt := Some(|s.seen|))
    case Unwinding => To(s, i, Cancelling)
    case Cancelling => To(s, i, WaitingDrain)
    case WaitingDrain => To(s, i, MarkStopped).(err := Some(choice))
    case MarkStopped => To(Put(s, Stopped), i, Closing)
    case Closing => To(s, i, Leaving).(closed := true)
    case Leaving => To(s, i, Awaiting).(once := Over)
    case Awaiting => if s.closed && s.err.Some? then To(s, i, Returned(s.err.value)) else s
    case _ => s
  }

  /** No caller has moved since boot. */
  ghost predicate Booted(s: Sys) {
    && WellFormed(s)
    && s.state == Created && s.once == Unused && !s.closed && s.err == None
    && s.seen == [Created] && s.runner == None && s.drainAt == None
    && forall i :: 0 <= i < |s.pcs| ==> s.pcs[i] == if s.isRun[i] then Swap else Enter
  }

  datatype Move = Move(caller: nat, choice: bool)

  ghost predicate Schedule(s: Sys, sched: seq<Move>) {
    forall k :: 0 <= k < |sched| ==> sched[k].caller < |s.pcs|
  }

  ghost function Run(s: Sys, sched: seq<Move>): (s': Sys)
    requires Schedule(s, sched)
    ensures |s'.pcs| == |s.pcs|
    decreases |sched|
  {
    if sched == [] then s else Run(Step(s, sched[0].caller, sched[0].choice), sched[1..])
  }

  // ---- the documented order ----

  /** The documented order: Created, Starting, then Running, Draining, Stopped, or Failed. */
  ghost predicate Documented(seen: seq<State>) {
    seen <= [Created, Starting, Running, Draining, Stopped] || seen <= [Created, Starting, Failed]
  }

  /** Draining, if the imp is draining at all, was entered from Running. */
  ghost predicate DrainedWhileRunning(s: Sys) {
    s.drainAt.Some? ==> 0 < s.drainAt.value < |s.seen| && s.seen[s.drainAt.value - 1] == Running
  }

  /** How far a caller is in the body of Shutdown; 0 outside it. */
  function BodyStage(pc: Pc): nat {
    match pc
    case MarkDraining => 1
    case Unwinding => 2
    case Cancelling => 3
    case WaitingDrain => 4
    case MarkStopped => 5
    case Closing => 6
    case Leaving => 7
    case _ => 0
  }

  predicate OfRun(pc: Pc) {
    pc.Binding? || pc.MarkRunning? || pc.MarkFailed? || pc.FailedOut? || pc.Waiting?
  }

  /** One caller: only the winner of the swap is past it, only the caller in the once is in the body. */
  ghost predicate CallerOk(i: nat, isRun: bool, pc: Pc, runner: Option<nat>, once: Once, err: Option<bool>, closed: bool) {
    && (pc.Swap? || pc.Rejected? || OfRun(pc) ==> isRun)
    && (isRun ==> (runner == Some(i) <==> !(pc.Swap? || pc.Rejected?)))
    && (runner == Some(i) ==> isRun)
    && (BodyStage(pc) > 0 <==> once == Busy(i))
    && (pc.Returned? ==> closed && err == Some(pc.timedOut))
  }

  ghost predicate Callers(s: Sys) {
    && WellFormed(s)
    && (s.once.Busy? ==> s.once.caller < |s.pcs|)
    && (s.runner.Some? ==> s.runner.value < |s.pcs|)
    && forall i :: 0 <= i < |s.pcs| ==> CallerOk(i, s.isRun[i], s.pcs[i], s.runner, s.once, s.err, s.closed)
  }

  /** How far the one shutdown body has come: 0 not begun, 8 left. */
  ghost function Body(s: Sys): nat
    requires s.once.Busy? ==> s.once.caller < |s.pcs|
  {
    match s.once
    case Unused => 0
    case Busy(c) => BodyStage(s.pcs[c])
    case Over => 8
  }

  /** How far the one Run has come: 0 not begun, 1 binding, 2 failed, 3 running or later. */
  ghost function Runner(s: Sys): nat
    requires s.runner.Some? ==> s.runner.value < |s.pcs|
  {
    if s.runner.None? then 0
    else match s.pcs[s.runner.value]
         case Binding => 1
         case MarkRunning => 1
         case MarkFailed => 1
         case FailedOut => 2
         case _ => 3
  }

  /** The marks the two leave behind, in every run. */
  ghost predicate Marks(s: Sys)
    requires Callers(s)
  {
    && s.seen != [] && s.state == s.seen[|s.seen| - 1]
    && (s.state == Created ==> s.runner.None? && s.seen == [Created])
    && (s.drainAt.Some? <==> Body(s) >= 2)
    && (s.drainAt.Some? ==> 0 < s.drainAt.value < |s.seen| && s.seen[s.drainAt.value] == Draining)
    && (s.err.Some? <==> Body(s) >= 5)
    && (Body(s) >= 6 ==> Stopped in s.seen)
    && (s.closed <==> Body(s) >= 7)
  }

  /** The states seen while everything is in order, by how far Run and the shutdown body have come. */
  ghost function Expected(runner: nat, body: nat): seq<State> {
    if body >= 6 then [Created, Starting, Running, Draining, Stopped]
    else if body >= 2 then [Created, Starting, Running, Draining]
    else if runner == 0 then [Created]
    else if runner == 1 then [Created, Starting]
    else if runner == 2 then [Created, Starting, Failed]
    else [Created, Starting, Running]
  }

  ghost predicate InOrder(s: Sys)
    requires Callers(s)
  {
    DrainedWhileRunning(s) ==> s.seen == Expected(Runner(s), Body(s)) && (Body(s) >= 2 ==> Runner(s) == 3)
  }

  ghost predicate Good(s: Sys) {
    Callers(s) && Marks(s) && InOrder(s)
  }

  lemma BootedGood(s: Sys)
    requires Booted(s)
    ensures Good(s)
  {
  }

  lemma StepCallers(s: Sys, i: nat, choice: bool)
    requires i < |s.pcs| && Callers(s) && Marks(s)
    ensures Callers(Step(s, i, choice))
  {
    var s' := Step(s, i, choice);
    StepMover(s, i, choice);
    forall j | 0 <= j < |s.pcs|
      ensures CallerOk(j, s'.isRun[j], s'.pcs[j], s'.runner, s'.once, s'.err, s'.closed)
    {
      StepCaller(s, i, choice, j);
    }
  }

  /** What a step can change for the callers that do not move. */
  lemma StepFrame(s: Sys, i: nat, choice: bool, j: nat)
    requires i < |s.pcs| && j < |s.pcs| && j != i && Callers(s) && Marks(s)
    ensures var s' := Step(s, i, choice);
            && s'.pcs[j] == s.pcs[j]
            && (s'.runner == Some(j) <==> s.runner == Some(j))
            && (s'.once == Busy(j) <==> s.once == Busy(j))
            && (s.closed ==> s'.closed && s'.err == s.err)
  {
    assert CallerOk(i, s.isRun[i], s.pcs[i], s.runner, s.once, s.err, s.closed);
  }

  ghost predicate MoverOk(s: Sys, i: nat)
    requires i < |s.pcs| == |s.isRun|
  {
    && CallerOk(i, s.isRun[i], s.pcs[i], s.runner, s.once, s.err, s.closed)
    && (s.once.Busy? ==> s.once.caller < |s.pcs|)
    && (s.runner.Some? ==> s.runner.value < |s.pcs|)
  }

  lemma StepMoverOfRun(s: Sys, i: nat, choice: bool)
    requires i < |s.pcs| == |s.isRun| && MoverOk(s, i) && (s.state == Created ==> s.runner.None?)
    requires BodyStage(s.pcs[i]) == 0
    ensures MoverOk(Step(s, i, choice), i)
  {
  }

  lemma StepMoverInBody(s: Sys, i: nat, choice: bool)
    requires i < |s.pcs| == |s.isRun| && MoverOk(s, i)
    requires BodyStage(s.pcs[i]) > 0
    ensures MoverOk(Step(s, i, choice), i)
  {
  }

  lemma StepMover(s: Sys, i: nat, choice: bool)
    requires i < |s.pcs| && Callers(s) && Marks(s)
    ensures MoverOk(Step(s, i, choice), i)
  {
    assert CallerOk(i, s.isRun[i], s.pcs[i], s.runner, s.once, s.err, s.closed);
    if BodyStage(s.pcs[i]) == 0 {
      StepMoverOfRun(s, i, choice);
    } else {
      StepMoverInBody(s, i, choice);
    }
  }

  lemma StepCaller(s: Sys, i: nat, choice: bool, j: nat)
    requires i < |s.pcs| && j < |s.pcs| && Callers(s) && Marks(s)
    ensures var s' := Step(s, i, choice);
            CallerOk(j, s'.isRun[j], s'.pcs[j], s'.runner, s'.once, s'.err, s'.closed)
  {
    if j == i {
      StepMover(s, i, choice);
    } else {
      assert CallerOk(j, s.isRun[j], s.pcs[j], s.runner, s.once, s.err, s.closed);
      StepFrame(s, i, choice, j);
    }
  }

  lemma StepBodyStage(s: Sys, i: nat, choice: bool)
    requires i < |s.pcs| && Callers(s) && Marks(s) && Callers(Step(s, i, choice))
    ensures BodyStage(s.pcs[i]) > 0 ==> Body(s) == BodyStage(s.pcs[i])
    ensures Body(Step(s, i, choice)) ==
              if BodyStage(s.pcs[i]) > 0 || (s.pcs[i].Enter? && s.once.Unused?) then Body(s) + 1 else Body(s)
  {
    assert CallerOk(i, s.isRun[i], s.pcs[i], s.runner, s.once, s.err, s.closed);
  }

  /** A caller that is not past the swap does not move the one that is. */
  lemma StepRunnerOther(s: Sys, i: nat, choice: bool)
    requires i < |s.pcs| && Callers(s) && Marks(s) && Callers(Step(s, i, choice)) && s.runner != Some(i) && !s.pcs[i].Swap?
    ensures !OfRun(s.pcs[i]) && Runner(Step(s, i, choice)) == Runner(s)
  {
    assert CallerOk(i, s.isRun[i], s.pcs[i], s.runner, s.once, s.err, s.closed);
  }

  lemma StepRunnerOwn(s: Sys, i: nat, choice: bool)
    requires i < |s.pcs| && Callers(s) && Marks(s) && Callers(Step(s, i, choice)) && (s.runner == Some(i) || s.pcs[i].Swap?)
    ensures OfRun(s.pcs[i]) ==> s.runner == Some(i)
    ensures s.pcs[i].Swap? ==> Runner(Step(s, i, choice)) == if s.state == Created then 1 else Runner(s)
    ensures s.pcs[i].MarkRunning? ==> Runner(Step(s, i, choice)) == 3
    ensures s.pcs[i].MarkFailed? ==> Runner(Step(s, i, choice)) == 2
    ensures !s.pcs[i].Swap? && !s.pcs[i].MarkRunning? && !s.pcs[i].MarkFailed? ==> Runner(Step(s, i, choice)) == Runner(s)
  {
    assert CallerOk(i, s.isRun[i], s.pcs[i], s.runner, s.once, s.err, s.closed);
  }

  lemma StepRunnerStage(s: Sys, i: nat, choice: bool)
    requires i < |s.pcs| && Callers(s) && Marks(s) && Callers(Step(s, i, choice))
    ensures OfRun(s.pcs[i]) ==> s.runner == Some(i)
    ensures Runner(Step(s, i, choice)) ==
              match s.pcs[i]
              case Swap => if s.state == Created then 1 else Runner(s)
              case MarkRunning => 3
              case MarkFailed => 2
              case _ => Runner(s)
  {
    if s.runner == Some(i) || s.pcs[i].Swap? {
      StepRunnerOwn(s, i, choice);
    } else {
      StepRunnerOther(s, i, choice);
    }
  }

  /** How one step moves the two stages. */
  lemma StepStages(s: Sys, i: nat, choice: bool)
    requires i < |s.pcs| && Callers(s) && Marks(s) && Callers(Step(s, i, choice))
    ensures BodyStage(s.pcs[i]) > 0 ==> Body(s) == BodyStage(s.pcs[i])
    ensures OfRun(s.pcs[i]) ==> s.runner == Some(i)
    ensures Body(Step(s, i, choice)) ==
              if BodyStage(s.pcs[i]) > 0 || (s.pcs[i].Enter? && s.once.Unused?) then Body(s) + 1 else Body(s)
    ensures Runner(Step(s, i, choice)) ==
              match s.pcs[i]
              case Swap => if s.state == Created then 1 else Runner(s)
              case MarkRunning => 3
              case MarkFailed => 2
              case _ => Runner(s)
  {
    StepBodyStage(s, i, choice);
    StepRunnerStage(s, i, choice);
  }

  lemma StepMarks(s: Sys, i: nat, choice: bool)
    requires i < |s.pcs| && Callers(s) && Marks(s) && Callers(Step(s, i, choice))
    ensures Marks(Step(s, i, choice))
  {
    StepStages(s, i, choice);
  }

  /** While in order, a step that writes the state extends the expected states by what it writes. */
  lemma StepExpected(s: Sys, i: nat, choice: bool)
    requires i < |s.pcs| && Good(s) && Callers(Step(s, i, choice)) && Marks(Step(s, i, choice))
    requires DrainedWhileRunning(s) && DrainedWhileRunning(Step(s, i, choice))
    ensures Step(s, i, choice).seen == Expected(Runner(Step(s, i, choice)), Body(Step(s, i, choice)))
    ensures Body(Step(s, i, choice)) >= 2 ==> Runner(Step(s, i, choice)) == 3
  {
    StepBodyStage(s, i, choice);
    StepRunnerStage(s, i, choice);
  }

  /** Draining marked from another state stays marked so. */
  lemma StepKeepsDrainMark(s: Sys, i: nat, choice: bool)
    requires i < |s.pcs| && Callers(s) && Marks(s) && DrainedWhileRunning(Step(s, i, choice))
    ensures DrainedWhileRunning(s)
  {
    StepMover(s, i, choice);
    assert CallerOk(i, s.isRun[i], s.pcs[i], s.runner, s.once, s.err, s.closed);
  }

  lemma StepInOrder(s: Sys, i: nat, choice: bool)
    requires i < |s.pcs| && Good(s) && Callers(Step(s, i, choice)) && Marks(Step(s, i, choice))
    ensures InOrder(Step(s, i, choice))
  {
    if DrainedWhileRunning(Step(s, i, choice)) {
      StepKeepsDrainMark(s, i, choice);
      StepExpected(s, i, choice);
    }
  }

  lemma StepGood(s: Sys, i: nat, choice: bool)
    requires i < |s.pcs| && Good(s)
    ensures Good(Step(s, i, choice))
  {
    StepCallers(s, i, choice);
    StepMarks(s, i, choice);
    StepInOrder(s, i, choice);
  }

  lemma {:induction false} RunGood(s: Sys, sched: seq<Move>)
    requires Schedule(s, sched) && Good(s)
    ensures Good(Run(s, sched)) && Run(s, sched).isRun == s.isRun
    decreases |sched|
  {
    if sched != [] {
      StepGood(s, sched[0].caller, sched[0].choice);
      RunGood(Step(s, sched[0].caller, sched[0].choice), sched[1..]);
    }
  }

  /**
   * In every run, of any number of concurrent callers: the states seen follow
   * the documented order exactly when the shutdown body marked Draining from
   * Running (or has not marked it yet).
   */
  lemma DocumentedIffDrainedWhileRunning(s: Sys, sched: seq<Move>)
    requires Booted(s) && Schedule(s, sched)
    ensures Documented(Run(s, sched).seen) <==> DrainedWhileRunning(Run(s, sched))
  {
    BootedGood(s);
    RunGood(s, sched);
    var s' := Run(s, sched);
    if Documented(s'.seen) && s'.drainAt.Some? {
      assert s'.seen[s'.drainAt.value] == Draining;
      assert s'.drainAt.value == 3;
    }
  }

  function Indicator(b: bool): nat {
    if b then 1 else 0
  }

  /** How often each state has been held: once for every mark that Run and the shutdown body have passed. */
  ghost predicate Counted(s: Sys)
    requires Callers(s)
  {
    && multiset(s.seen)[Created] == 1
    && multiset(s.seen)[Starting] == Indicator(Runner(s) >= 1)
    && multiset(s.seen)[Running] == Indicator(Runner(s) == 3)
    && multiset(s.seen)[Failed] == Indicator(Runner(s) == 2)
    && multiset(s.seen)[Draining] == Indicator(Body(s) >= 2)
    && multiset(s.seen)[Stopped] == Indicator(Body(s) >= 6)
  }

  lemma StepWrites(s: Sys, i: nat, choice: bool)
    requires i < |s.pcs|
    ensures Step(s, i, choice).seen == s.seen +
              match s.pcs[i]
              case Swap => if s.state == Created then [Starting] else []
              case MarkRunning => [Running]
              case MarkFailed => [Failed]
              case MarkDraining => [Draining]
              case MarkStopped => [Stopped]
              case _ => []
  {
  }

  lemma StepCounted(s: Sys, i: nat, choice: bool)
    requires i < |s.pcs| && Good(s) && Callers(Step(s, i, choice)) && Counted(s)
    ensures Counted(Step(s, i, choice))
  {
    StepWrites(s, i, choice);
    StepStages(s, i, choice);
  }

  lemma {:induction false} RunCounted(s: Sys, sched: seq<Move>)
    requires Schedule(s, sched) && Good(s) && Counted(s)
    ensures Good(Run(s, sched)) && Counted(Run(s, sched))
    decreases |sched|
  {
    if sched != [] {
      StepGood(s, sched[0].caller, sched[0].choice);
      StepCounted(s, sched[0].caller, sched[0].choice);
      RunCounted(Step(s, sched[0].caller, sched[0].choice), sched[1..]);
    }
  }

  /**
   * The shutdown body runs at most once in a run, and so does the one start: no
   * state is ever held twice. Every caller that has returned did so after the
   * body had run, once.
   */
  lemma EachStateOnce(s: Sys, sched: seq<Move>)
    requires Booted(s) && Schedule(s, sched)
    ensures Good(Run(s, sched))
    ensures forall x: State :: multiset(Run(s, sched).seen)[x] <= 1
    ensures forall i :: 0 <= i < |s.pcs| && Run(s, sched).pcs[i].Returned? ==>
              multiset(Run(s, sched).seen)[Draining] == 1 && multiset(Run(s, sched).seen)[Stopped] == 1
  {
    BootedGood(s);
    RunCounted(s, sched);
    var s' := Run(s, sched);
    forall x: State
      ensures multiset(s'.seen)[x] <= 1
    {
      match x
      case Created =>
      case Starting =>
      case Running =>
      case Draining =>
      case Stopped =>
      case Failed =>
    }
  }

  /**
   * In every run: at most one Run passes the swap, no two callers are in the
   * shutdown body at a time, and whoever returns does so after Stopped was
   * reached, all with the same error.
   */
  lemma OnceAndForAll(s: Sys, sched: seq<Move>, i: nat, j: nat)
    requires Booted(s) && Schedule(s, sched) && i < |s.pcs| && j < |s.pcs|
    ensures var s' := Run(s, sched);
            && (s.isRun[i] && s.isRun[j] && i != j ==>
                  s'.pcs[i].Swap? || s'.pcs[i].Rejected? || s'.pcs[j].Swap? || s'.pcs[j].Rejected?)
            && (BodyStage(s'.pcs[i]) > 0 && BodyStage(s'.pcs[j]) > 0 ==> i == j)
            && (s'.pcs[i].Returned? ==> Stopped in s'.seen)
            && (s'.pcs[i].Returned? && s'.pcs[j].Returned? ==> s'.pcs[i] == s'.pcs[j])
  {
    BootedGood(s);
    RunGood(s, sched);
    var s' := Run(s, sched);
    assert CallerOk(i, s'.isRun[i], s'.pcs[i], s'.runner, s'.once, s'.err, s'.closed);
    assert CallerOk(j, s'.isRun[j], s'.pcs[j], s'.runner, s'.once, s'.err, s'.closed);
  }

  // ---- Shutdown only once running ----

  /** Nobody enters Shutdown before the imp is running. */
  ghost predicate Patient(s: Sys, sched: seq<Move>)
    requires Schedule(s, sched)
    decreases |sched|
  {
    sched == [] ||
    (&& (s.pcs[sched[0].caller].Enter? ==> s.state == Running || s.state == Draining || s.state == Stopped)
     && Patient(Step(s, sched[0].caller, sched[0].choice), sched[1..]))
  }

  /** Whoever is about to mark Draining finds the imp running. */
  ghost predicate Safe(s: Sys)
    requires Callers(s)
  {
    && DrainedWhileRunning(s)
    && (Body(s) == 1 ==> s.state == Running)
  }

  lemma StepSafe(s: Sys, i: nat, choice: bool)
    requires i < |s.pcs| && Good(s) && Good(Step(s, i, choice)) && Safe(s)
    requires s.pcs[i].Enter? ==> s.state == Running || s.state == Draining || s.state == Stopped
    ensures Safe(Step(s, i, choice))
  {
    StepStages(s, i, choice);
    assert CallerOk(i, s.isRun[i], s.pcs[i], s.runner, s.once, s.err, s.closed);
  }

  lemma {:induction false} RunSafe(s: Sys, sched: seq<Move>)
    requires Schedule(s, sched) && Good(s) && Safe(s) && Patient(s, sched)
    ensures Good(Run(s, sched)) && Safe(Run(s, sched))
    decreases |sched|
  {
    if sched != [] {
      StepGood(s, sched[0].caller, sched[0].choice);
      StepSafe(s, sched[0].caller, sched[0].choice);
      RunSafe(Step(s, sched[0].caller, sched[0].choice), sched[1..]);
    }
  }

  /** If nobody enters Shutdown before the imp is running, every run follows the documented order. */
  lemma PatientRunsAreDocumented(s: Sys, sched: seq<Move>)
    requires Booted(s) && Schedule(s, sched) && Patient(s, sched)
    ensures Documented(Run(s, sched).seen)
  {
    BootedGood(s);
    RunSafe(s, sched);
  }

  // ---- two runs outside the documented order ----

  lemma RunCons(s: Sys, m: Move, s1: Sys, rest: seq<Move>, s': Sys)
    requires m.caller < |s.pcs| && s1 == Step(s, m.caller, m.choice) && Schedule(s1, rest) && Run(s1, rest) == s'
    ensures Schedule(s, [m] + rest) && Run(s, [m] + rest) == s'
  {
    var sched := [m] + rest;
    assert sched[0] == m && sched[1..] == rest;
  }

  /** A second caller that enters Shutdown at state s and marks Draining. */
  lemma EnterAndMark(s: Sys) returns (s': Sys)
    requires |s.pcs| == 2 && s.pcs[1] == Enter && s.once == Unused
    ensures s' == s.(once := Busy(1), pcs := [s.pcs[0], Unwinding], state := Draining, seen := s.seen + [Draining], drainAt := Some(|s.seen|))
    ensures Schedule(s, [Move(1, false), Move(1, false)]) && Run(s, [Move(1, false), Move(1, false)]) == s'
  {
    var s1 := s.(once := Busy(1), pcs := [s.pcs[0], MarkDraining]);
    s' := s1.(pcs := [s.pcs[0], Unwinding], state := Draining, seen := s.seen + [Draining], drainAt := Some(|s.seen|));
    RunCons(s1, Move(1, false), s', [], s');
    RunCons(s, Move(1, false), s1, [Move(1, false)], s');
    assert [Move(1, false)] + [Move(1, false)] == [Move(1, false), Move(1, false)];
  }

  /** Shutdown after a failed start moves Failed to Draining. */
  lemma ShutdownAfterFailure() returns (s: Sys, sched: seq<Move>)
    ensures Booted(s) && Schedule(s, sched)
    ensures Run(s, sched).seen == [Created, Starting, Failed, Draining]
  {
    s := Sys(Created, Unused, false, None, [true, false], [Swap, Enter], [Created], None, None);
    var s1 := Sys(Starting, Unused, false, None, [true, false], [Binding, Enter], [Created, Starting], Some(0), None);
    var s2 := Sys(Starting, Unused, false, None, [true, false], [MarkFailed, Enter], [Created, Starting], Some(0), None);
    var s3 := Sys(Failed, Unused, false, None, [true, false], [FailedOut, Enter], [Created, Starting, Failed], Some(0), None);
    var s' := EnterAndMark(s3);
    sched := [Move(1, false), Move(1, false)];
    RunCons(s2, Move(0, false), s3, sched, s');
    sched := [Move(0, false)] + sched;
    RunCons(s1, Move(0, true), s2, sched, s');
    sched := [Move(0, true)] + sched;
    RunCons(s, Move(0, false), s1, sched, s');
    sched := [Move(0, false)] + sched;
  }

  lemma {:induction false} RunAppend(s: Sys, a: seq<Move>, b: seq<Move>)
    requires Schedule(s, a) && Schedule(s, b)
    ensures Schedule(s, a + b) && Run(s, a + b) == Run(Run(s, a), b)
    decreases |a|
  {
    if a == [] {
      assert a + b == b;
    } else {
      RunAppend(Step(s, a[0].caller, a[0].choice), a[1..], b);
      assert (a + b)[1..] == a[1..] + b;
    }
  }

  /** From a marked Draining to Stopped, while Run is still binding. */
  lemma DrainToStopped(s: Sys) returns (s': Sys, sched: seq<Move>)
    requires |s.pcs| == 2 && s.pcs == [Binding, Unwinding]
    ensures Schedule(s, sched) && Run(s, sched) == s'
    ensures s' == s.(pcs := [Binding, Closing], err := Some(false), state := Stopped, seen := s.seen + [Stopped])
  {
    var s1 := s.(pcs := [Binding, Cancelling]);
    var s2 := s.(pcs := [Binding, WaitingDrain]);
    var s3 := s.(pcs := [Binding, MarkStopped], err := Some(false));
    s' := s3.(pcs := [Binding, Closing], state := Stopped, seen := s.seen + [Stopped]);
    var go := Move(1, false);
    RunCons(s3, go, s', [], s');
    RunCons(s2, go, s3, [go] + [], s');
    RunCons(s1, go, s2, [go] + ([go] + []), s');
    sched := [go] + ([go] + ([go] + ([go] + [])));
    RunCons(s, go, s1, [go] + ([go] + ([go] + [])), s');
  }

  /** Run finishes binding after Stopped. */
  lemma StopThenRun(s: Sys) returns (s': Sys, sched: seq<Move>)
    requires |s.pcs| == 2 && s.pcs == [Binding, Unwinding]
    ensures Schedule(s, sched) && Run(s, sched) == s'
    ensures s'.seen == s.seen + [Stopped, Running] && s'.state == Running
  {
    var s1, first := DrainToStopped(s);
    var s2 := s1.(pcs := [MarkRunning, Closing]);
    s' := s1.(pcs := [Waiting, Closing], state := Running, seen := s1.seen + [Running]);
    var mine := Move(0, false);
    RunCons(s2, mine, s', [], s');
    RunCons(s1, mine, s2, [mine] + [], s');
    RunAppend(s, first, [mine] + ([mine] + []));
    sched := first + ([mine] + ([mine] + []));
  }

  /** Shutdown while start is still binding: the state goes through Stopped and ends as Running. */
  lemma ShutdownWhileStarting() returns (s: Sys, sched: seq<Move>)
    ensures Booted(s) && Schedule(s, sched)
    ensures Run(s, sched).seen == [Created, Starting, Draining, Stopped, Running]
    ensures Run(s, sched).state == Running
  {
    s := Sys(Created, Unused, false, None, [true, false], [Swap, Enter], [Created], None, None);
    var s1 := Sys(Starting, Unused, false, None, [true, false], [Binding, Enter], [Created, Starting], Some(0), None);
    var s2 := EnterAndMark(s1);
    var s', tail := StopThenRun(s2);
    RunAppend(s1, [Move(1, false), Move(1, false)], tail);
    sched := [Move(1, false), Move(1, false)] + tail;
    RunCons(s, Move(0, false), s1, sched, s');
    sched := [Move(0, false)] + sched;
  }
}
