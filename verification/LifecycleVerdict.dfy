// What Shutdown reports: the one drain wait of a run decides the error that every
// caller returns, under every interleaving.
module LifecycleVerdict {
  import opened Wrappers
  import opened Lifecycle

  /** At step k of the schedule, a caller ends its drain wait. */
  ghost predicate DrainEnds(s: Sys, sched: seq<Move>, k: nat)
    requires Schedule(s, sched) && k < |sched|
  {
    Run(s, sched[..k]).pcs[sched[k].caller].WaitingDrain?
  }

  /** Only the end of the drain wait sets the error, and it finds none. */
  lemma StepErr(s: Sys, i: nat, choice: bool)
    requires i < |s.pcs| && Good(s)
    ensures s.pcs[i].WaitingDrain? ==> s.err.None?
    ensures Step(s, i, choice).err == if s.pcs[i].WaitingDrain? then Some(choice) else s.err
  {
    assert CallerOk(i, s.isRun[i], s.pcs[i], s.runner, s.once, s.err, s.closed);
  }

  lemma {:induction false} ErrStays(s: Sys, sched: seq<Move>)
    requires Schedule(s, sched) && Good(s) && s.err.Some?
    ensures Run(s, sched).err == s.err
    decreases |sched|
  {
    if sched != [] {
      StepGood(s, sched[0].caller, sched[0].choice);
      StepErr(s, sched[0].caller, sched[0].choice);
      ErrStays(Step(s, sched[0].caller, sched[0].choice), sched[1..]);
    }
  }

  lemma DrainEndsLater(s: Sys, sched: seq<Move>, k: nat)
    requires Schedule(s, sched) && 0 < k < |sched|
    ensures DrainEnds(s, sched, k) <==> DrainEnds(Step(s, sched[0].caller, sched[0].choice), sched[1..], k - 1)
    ensures Run(s, sched[..k]) == Run(Step(s, sched[0].caller, sched[0].choice), sched[1..][..k - 1])
  {
    assert sched[..k][1..] == sched[1..][..k - 1];
  }

  /** If the error is set at the end, some drain wait ended with it; and until a drain wait ends, it is not. */
  lemma {:induction false} ErrIff(s: Sys, sched: seq<Move>)
    requires Schedule(s, sched) && Good(s) && s.err.None?
    ensures Run(s, sched).err.None? ==> forall k :: 0 <= k < |sched| ==> !DrainEnds(s, sched, k)
    ensures Run(s, sched).err.Some? ==>
              exists k :: 0 <= k < |sched| && DrainEnds(s, sched, k) && sched[k].choice == Run(s, sched).err.value
    decreases |sched|
  {
    if sched != [] {
      var s1 := Step(s, sched[0].caller, sched[0].choice);
      StepGood(s, sched[0].caller, sched[0].choice);
      StepErr(s, sched[0].caller, sched[0].choice);
      assert DrainEnds(s, sched, 0) <==> s.pcs[sched[0].caller].WaitingDrain?;
      if s1.err.Some? {
        ErrStays(s1, sched[1..]);
      } else {
        ErrIff(s1, sched[1..]);
        forall k | 0 < k < |sched|
          ensures DrainEnds(s, sched, k) <==> DrainEnds(s1, sched[1..], k - 1)
        {
          DrainEndsLater(s, sched, k);
        }
        if Run(s1, sched[1..]).err.Some? {
          var k :| 0 <= k < |sched| - 1 && DrainEnds(s1, sched[1..], k) && sched[1..][k].choice == Run(s1, sched[1..]).err.value;
          assert DrainEnds(s, sched, k + 1);
        }
      }
    }
  }

  /** The drain wait that ends at step k leaves what it found, for good; no error was set before. */
  lemma {:induction false} DrainDecides(s: Sys, sched: seq<Move>, k: nat)
    requires Schedule(s, sched) && Good(s) && k < |sched| && DrainEnds(s, sched, k)
    ensures Run(s, sched[..k]).err.None? && Run(s, sched).err == Some(sched[k].choice)
    decreases k
  {
    var s1 := Step(s, sched[0].caller, sched[0].choice);
    StepGood(s, sched[0].caller, sched[0].choice);
    if k == 0 {
      StepErr(s, sched[0].caller, sched[0].choice);
      ErrStays(s1, sched[1..]);
    } else {
      DrainEndsLater(s, sched, k);
      DrainDecides(s1, sched[1..], k - 1);
    }
  }

  /**
   * In every run: at most one drain wait ends; before it the error is not set,
   * and whoever has returned at the end returned what that wait found, true if
   * the window ran out. Nobody returns unless it has ended.
   */
  lemma {:induction false} ReturnsWhatTheDrainFound(s: Sys, sched: seq<Move>)
    requires Booted(s) && Schedule(s, sched)
    ensures forall k, j :: 0 <= j <= k < |sched| && DrainEnds(s, sched, k) ==> Run(s, sched[..j]).err.None?
    ensures forall k, i :: 0 <= k < |sched| && DrainEnds(s, sched, k) && 0 <= i < |s.pcs| && Run(s, sched).pcs[i].Returned? ==>
              Run(s, sched).pcs[i] == Returned(sched[k].choice)
    ensures forall i :: 0 <= i < |s.pcs| && Run(s, sched).pcs[i].Returned? ==> exists k :: 0 <= k < |sched| && DrainEnds(s, sched, k)
  {
    BootedGood(s);
    RunGood(s, sched);
    var s' := Run(s, sched);
    forall k, j | 0 <= j <= k < |sched| && DrainEnds(s, sched, k)
      ensures Run(s, sched[..j]).err.None?
    {
      NoneBefore(s, sched, j, k);
    }
    forall k | 0 <= k < |sched| && DrainEnds(s, sched, k)
      ensures s'.err == Some(sched[k].choice)
    {
      DrainDecides(s, sched, k);
    }
    ErrIff(s, sched);
    forall i | 0 <= i < |s.pcs|
      ensures CallerOk(i, s'.isRun[i], s'.pcs[i], s'.runner, s'.once, s'.err, s'.closed)
    {
    }
  }

  lemma NoneBefore(s: Sys, sched: seq<Move>, j: nat, k: nat)
    requires Schedule(s, sched) && Good(s) && j <= k < |sched| && DrainEnds(s, sched, k)
    ensures Run(s, sched[..j]).err.None?
  {
    DrainDecides(s, sched, k);
    RunGood(s, sched[..j]);
    assert sched[..k] == sched[..j] + sched[j..k];
    RunAppend(s, sched[..j], sched[j..k]);
    if Run(s, sched[..j]).err.Some? {
      ErrStays(Run(s, sched[..j]), sched[j..k]);
    }
  }
}
