// Who wins the swap in Run, and that everybody who enters Shutdown returns: the
// liveness half of Lifecycle.dfy, under every interleaving.
module LifecycleProgress {
  import opened Wrappers
  import opened Lifecycle

  // ---- who passes the swap ----

  /** The swap was won from Created, or Shutdown took Created away. */
  ghost predicate Taken(s: Sys) {
    && s.seen != [] && s.seen[0] == Created
    && (s.runner.Some? ==> s.drainAt != Some(1) && |s.seen| >= 2 && s.seen[1] == Starting)
    && (s.runner.None? && s.state != Created ==> s.drainAt == Some(1))
    && (forall i :: 0 <= i < |s.pcs| && s.pcs[i].Rejected? ==> s.state != Created)
  }

  lemma StepTaken(s: Sys, i: nat, choice: bool)
    requires i < |s.pcs| && Good(s) && Good(Step(s, i, choice)) && Taken(s)
    ensures Taken(Step(s, i, choice))
  {
    StepWrites(s, i, choice);
    StepStages(s, i, choice);
    var s' := Step(s, i, choice);
    assert forall j :: 0 <= j < |s.pcs| && j != i ==> s'.pcs[j] == s.pcs[j];
  }

  lemma {:induction false} RunTaken(s: Sys, sched: seq<Move>)
    requires Schedule(s, sched) && Good(s) && Taken(s)
    ensures Good(Run(s, sched)) && Taken(Run(s, sched))
    decreases |sched|
  {
    if sched != [] {
      StepGood(s, sched[0].caller, sched[0].choice);
      StepTaken(s, sched[0].caller, sched[0].choice);
      RunTaken(Step(s, sched[0].caller, sched[0].choice), sched[1..]);
    }
  }

  /**
   * In every run, once the state has left Created, and so once any Run has been
   * rejected, some Run has passed the swap exactly when Shutdown did not mark
   * Draining from Created; whoever passed is the only one.
   */
  lemma {:induction false} WinnerIff(s: Sys, sched: seq<Move>)
    requires Booted(s) && Schedule(s, sched)
    ensures var s' := Run(s, sched);
            && |s'.isRun| == |s'.pcs|
            && (s'.state != Created ==> (s'.runner.Some? <==> s'.drainAt != Some(1)))
            && (forall i :: 0 <= i < |s'.pcs| && s'.pcs[i].Rejected? ==> s'.state != Created)
            && (forall i :: 0 <= i < |s'.pcs| && s'.isRun[i] && !s'.pcs[i].Swap? && !s'.pcs[i].Rejected? ==> s'.runner == Some(i))
            && (s'.runner.Some? ==> s'.runner.value < |s'.pcs| && s'.isRun[s'.runner.value]
                                    && !s'.pcs[s'.runner.value].Swap? && !s'.pcs[s'.runner.value].Rejected?)
  {
    BootedGood(s);
    RunTaken(s, sched);
    var s' := Run(s, sched);
    forall i | 0 <= i < |s'.pcs|
      ensures CallerOk(i, s'.isRun[i], s'.pcs[i], s'.runner, s'.once, s'.err, s'.closed)
    {
    }
  }

  /** If nobody enters Shutdown before the imp is running, exactly one Run passes as soon as any Run has tried. */
  lemma {:induction false} PatientRunsHaveAWinner(s: Sys, sched: seq<Move>, i: nat)
    requires Booted(s) && Schedule(s, sched) && Patient(s, sched) && i < |s.pcs| && s.isRun[i]
    ensures !Run(s, sched).pcs[i].Swap? ==> Run(s, sched).runner.Some?
  {
    BootedGood(s);
    RunTaken(s, sched);
    RunGood(s, sched);
    RunSafe(s, sched);
    var s' := Run(s, sched);
    assert CallerOk(i, s'.isRun[i], s'.pcs[i], s'.runner, s'.once, s'.err, s'.closed);
  }

  /** A Shutdown that comes before Run: the only Run is rejected, and nobody wins. */
  lemma RejectedWithoutAWinner() returns (s: Sys, sched: seq<Move>)
    ensures Booted(s) && s.isRun == [true, false] && Schedule(s, sched)
    ensures Run(s, sched).pcs[0] == Rejected && Run(s, sched).runner == None
  {
    s := Sys(Created, Unused, false, None, [true, false], [Swap, Enter], [Created], None, None);
    var s1 := EnterAndMark(s);
    var mine := Move(0, false);
    RunCons(s1, mine, Step(s1, 0, false), [], Step(s1, 0, false));
    RunAppend(s, [Move(1, false), Move(1, false)], [mine] + []);
    sched := [Move(1, false), Move(1, false)] + ([mine] + []);
  }

  // ---- everybody who enters Shutdown returns ----

  /** Steps a caller has at most before it. */
  function Left(pc: Pc): nat {
    match pc
    case Swap => 14
    case Binding => 13
    case MarkRunning => 12
    case MarkFailed => 12
    case Waiting => 11
    case Enter => 10
    case MarkDraining => 9
    case Unwinding => 8
    case Cancelling => 7
    case WaitingDrain => 6
    case MarkStopped => 5
    case Closing => 4
    case Leaving => 3
    case Awaiting => 2
    case _ => 0
  }

  /** A step moves one caller, and only forwards; where it does not, it changes nothing. */
  lemma StepForwards(s: Sys, i: nat, choice: bool)
    requires i < |s.pcs|
    ensures var s' := Step(s, i, choice);
            s'.pcs == s.pcs[i := s'.pcs[i]] && (s' == s || Left(s'.pcs[i]) < Left(s.pcs[i]))
  {
    var s' := Step(s, i, choice);
    if s'.pcs[i] == s.pcs[i] {
      assert s.pcs[i := s.pcs[i]] == s.pcs;
    }
  }

  /** Every step that is not a wait brings somebody closer to the end. */
  lemma StepLowersLeft(s: Sys, i: nat, choice: bool)
    requires i < |s.pcs|
    ensures Step(s, i, choice) == s || Total(Step(s, i, choice).pcs, Left) < Total(s.pcs, Left)
  {
    StepForwards(s, i, choice);
    TotalUpdate(s.pcs, i, Step(s, i, choice).pcs[i], Left);
  }

  /** Every move of the schedule does something. */
  ghost predicate Busily(s: Sys, sched: seq<Move>)
    requires Schedule(s, sched)
    decreases |sched|
  {
    sched == [] ||
    (&& Step(s, sched[0].caller, sched[0].choice) != s
     && Busily(Step(s, sched[0].caller, sched[0].choice), sched[1..]))
  }

  lemma {:induction false} BusyIsShort(s: Sys, sched: seq<Move>)
    requires Schedule(s, sched) && Busily(s, sched)
    ensures |sched| + Total(Run(s, sched).pcs, Left) <= Total(s.pcs, Left)
    decreases |sched|
  {
    if sched != [] {
      StepLowersLeft(s, sched[0].caller, sched[0].choice);
      BusyIsShort(Step(s, sched[0].caller, sched[0].choice), sched[1..]);
    }
  }

  /** Whoever waits for the end in Shutdown found the body over. */
  ghost predicate AwaitsOver(s: Sys) {
    forall i :: 0 <= i < |s.pcs| && s.pcs[i].Awaiting? ==> s.once.Over?
  }

  lemma {:induction false} RunAwaitsOver(s: Sys, sched: seq<Move>)
    requires Schedule(s, sched) && AwaitsOver(s)
    ensures AwaitsOver(Run(s, sched))
    decreases |sched|
  {
    if sched != [] {
      RunAwaitsOver(Step(s, sched[0].caller, sched[0].choice), sched[1..]);
    }
  }

  /** Nobody can move: not even with the drain window over, short of somebody's context being done. */
  ghost predicate Still(s: Sys) {
    forall i :: 0 <= i < |s.pcs| ==> Step(s, i, false) == s
  }

  /** Is this caller in Shutdown, on its own account or from Run? */
  predicate InShutdown(pc: Pc) {
    pc.Enter? || BodyStage(pc) > 0 || pc.Awaiting? || pc.Returned?
  }

  lemma StillCaller(s: Sys, i: nat)
    requires Good(s) && AwaitsOver(s) && Still(s) && i < |s.pcs|
    ensures s.pcs[i].Rejected? || s.pcs[i].FailedOut? || s.pcs[i].Waiting? || s.pcs[i].Returned?
    ensures s.pcs[i].Waiting? ==> s.once == Unused
  {
    assert Step(s, i, false) == s;
    assert Step(s, i, false).pcs[i] == s.pcs[i];
    assert CallerOk(i, s.isRun[i], s.pcs[i], s.runner, s.once, s.err, s.closed);
    if s.once.Busy? {
      var c := s.once.caller;
      assert CallerOk(c, s.isRun[c], s.pcs[c], s.runner, s.once, s.err, s.closed);
      assert Step(s, c, false).pcs[c] == s.pcs[c];
    }
  }

  /**
   * Progress: N callers take at most 14 N steps that change anything, under
   * every schedule; and once nobody can move, every caller that entered Shutdown
   * has returned, and if any did, so has the Run that was waiting.
   */
  lemma {:induction false} EverybodyReturns(s: Sys, sched: seq<Move>, i: nat)
    requires Booted(s) && Schedule(s, sched) && i < |s.pcs|
    ensures Busily(s, sched) ==> |sched| <= 14 * |s.pcs|
    ensures var s' := Run(s, sched);
            Still(s') ==>
              && (InShutdown(s'.pcs[i]) ==> s'.pcs[i].Returned?)
              && (s'.pcs[i].Rejected? || s'.pcs[i].FailedOut? || s'.pcs[i].Returned? || (s'.pcs[i].Waiting? && s'.once == Unused))
  {
    if Busily(s, sched) {
      BusyIsShort(s, sched);
      var most := (pc: Pc) => 14;
      TotalBound(s.pcs, Left, most);
      TotalConst(s.pcs, most, 14);
    }
    BootedGood(s);
    RunGood(s, sched);
    RunAwaitsOver(s, sched);
    if Still(Run(s, sched)) {
      StillCaller(Run(s, sched), i);
    }
  }
}
