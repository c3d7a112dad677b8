// Two calls of unwind at once (Run rolling a failed start back while Shutdown
// unwinds): the teardown loop of stream.go with its check of streamConsume, its
// call of Stop and its clearing of the field as separate steps, and exactly when
// Stop can be called on a field another call has cleared.
module ReleaseRace {
  import opened Wrappers

  /** A loop's next access at channel k: the check, the call of Stop, or the clearing. */
  datatype Pc = Checking(k: nat) | Stopping(k: nat) | Clearing(k: nat)

  /** live says which channels still have their consume loop in the field; crashed, that Stop met an empty field. */
  datatype Sys = Sys(live: seq<bool>, pcs: seq<Pc>, crashed: bool)

  ghost predicate WellFormed(s: Sys) {
    forall i :: 0 <= i < |s.pcs| && !s.pcs[i].Checking? ==> s.pcs[i].k < |s.live|
  }

  function To(s: Sys, i: nat, pc: Pc): Sys
    requires i < |s.pcs|
  {
    s.(pcs := s.pcs[i := pc])
  }

  /** Loop i makes its next access; a crash ends the process. */
  function Step(s: Sys, i: nat): (s': Sys)
    requires i < |s.pcs|
    ensures |s'.pcs| == |s.pcs| && |s'.live| == |s.live|
  {
    if s.crashed || s.pcs[i].k >= |s.live| then s
    else
      match s.pcs[i]
      case Checking(k) => To(s, i, if s.live[k] then Stopping(k) else Checking(k + 1))
      case Stopping(k) => if s.live[k] then To(s, i, Clearing(k)) else s.(crashed := true)
      case Clearing(k) => To(s, i, Checking(k + 1)).(live := s.live[k := false])
  }

  ghost predicate Schedule(s: Sys, sched: seq<nat>) {
    forall k :: 0 <= k < |sched| ==> sched[k] < |s.pcs|
  }

  ghost function Run(s: Sys, sched: seq<nat>): (s': Sys)
    requires Schedule(s, sched)
    ensures |s'.pcs| == |s.pcs| && |s'.live| == |s.live|
    decreases |sched|
  {
    if sched == [] then s else Run(Step(s, sched[0]), sched[1..])
  }

  // ---- when a crash is possible ----

  /** Has this loop still to come to the call of Stop for channel j, if the field is left alone? */
  predicate CanStop(pc: Pc, j: nat) {
    pc.k < j || (pc.k == j && !pc.Clearing?)
  }

  predicate CanClear(pc: Pc, j: nat) {
    pc.k <= j
  }

  /** Loop a is about to call Stop on an empty field, or loops a and b have the same consume loop still to stop and to clear. */
  ghost predicate Race(s: Sys, j: nat, a: nat, b: nat) {
    && j < |s.live| && a < |s.pcs| && b < |s.pcs|
    && if s.live[j] then a != b && CanStop(s.pcs[a], j) && CanClear(s.pcs[b], j)
       else s.pcs[a] == Stopping(j)
  }

  ghost predicate Danger(s: Sys) {
    s.crashed || exists j: nat, a: nat, b: nat :: Race(s, j, a, b)
  }

  ghost predicate CanCrash(s: Sys) {
    exists sched :: Schedule(s, sched) && Run(s, sched).crashed
  }

  lemma RaceWas(s: Sys, i: nat, j: nat, a: nat, b: nat)
    requires i < |s.pcs| && WellFormed(s) && !s.crashed && Race(Step(s, i), j, a, b)
    ensures Race(s, j, a, b) || Race(s, j, a, i)
  {
  }

  /** No step brings danger where there was none. */
  lemma StepDanger(s: Sys, i: nat)
    requires i < |s.pcs| && WellFormed(s)
    ensures WellFormed(Step(s, i))
    ensures Danger(Step(s, i)) ==> Danger(s)
  {
    var s' := Step(s, i);
    if !s.crashed && s'.crashed {
      assert Race(s, s.pcs[i].k, i, i);
    } else if !s.crashed && Danger(s') {
      var j: nat, a: nat, b: nat :| Race(s', j, a, b);
      RaceWas(s, i, j, a, b);
    }
  }

  lemma {:induction false} RunDanger(s: Sys, sched: seq<nat>)
    requires Schedule(s, sched) && WellFormed(s) && Run(s, sched).crashed
    ensures Danger(s)
    decreases |sched|
  {
    if sched != [] {
      StepDanger(s, sched[0]);
      RunDanger(Step(s, sched[0]), sched[1..]);
    }
  }

  // ---- and that it then happens in some run ----

  lemma RunCons(s: Sys, i: nat, rest: seq<nat>)
    requires i < |s.pcs| && Schedule(Step(s, i), rest)
    ensures Schedule(s, [i] + rest) && Run(s, [i] + rest) == Run(Step(s, i), rest)
  {
    assert ([i] + rest)[1..] == rest;
  }

  lemma {:induction false} RunAppend(s: Sys, a: seq<nat>, b: seq<nat>)
    requires Schedule(s, a) && Schedule(s, b)
    ensures Schedule(s, a + b) && Run(s, a + b) == Run(Run(s, a), b)
    decreases |a|
  {
    if a == [] {
      assert a + b == b;
    } else {
      RunAppend(Step(s, a[0]), a[1..], b);
      assert (a + b)[1..] == a[1..] + b;
    }
  }

  lemma {:induction false} StaysCrashed(s: Sys, sched: seq<nat>)
    requires Schedule(s, sched) && s.crashed
    ensures Run(s, sched) == s
    decreases |sched|
  {
    if sched != [] {
      StaysCrashed(s, sched[1..]);
    }
  }

  /** How far a loop has come, in accesses. */
  function Position(pc: Pc): nat {
    3 * pc.k + match pc case Checking(_) => 0 case Stopping(_) => 1 case Clearing(_) => 2
  }

  /** Loop a moves alone up to the call of Stop for channel j, unless it crashes before. */
  lemma {:induction false} ComesToStop(s: Sys, a: nat, j: nat) returns (sched: seq<nat>)
    requires WellFormed(s) && a < |s.pcs| && j < |s.live| && s.live[j] && CanStop(s.pcs[a], j) && !s.crashed
    ensures Schedule(s, sched)
    ensures var s' := Run(s, sched);
            s'.crashed || (WellFormed(s') && s'.live[j] && s'.pcs == s.pcs[a := Stopping(j)])
    decreases 3 * j + 1 - Position(s.pcs[a])
  {
    sched := [];
    if s.pcs[a] != Stopping(j) {
      var s1 := Step(s, a);
      StepDanger(s, a);
      if s1.crashed {
        RunCons(s, a, []);
        sched := [a] + [];
      } else {
        var rest := ComesToStop(s1, a, j);
        RunCons(s, a, rest);
        sched := [a] + rest;
      }
    }
  }

  /** Loop b moves alone until it has cleared channel j, unless it crashes before. */
  lemma {:induction false} ComesToClear(s: Sys, b: nat, j: nat) returns (sched: seq<nat>)
    requires WellFormed(s) && b < |s.pcs| && j < |s.live| && s.live[j] && CanClear(s.pcs[b], j) && !s.crashed
    ensures Schedule(s, sched)
    ensures var s' := Run(s, sched);
            s'.crashed || (!s'.live[j] && forall i :: 0 <= i < |s.pcs| && i != b ==> s'.pcs[i] == s.pcs[i])
    decreases 3 * j + 3 - Position(s.pcs[b])
  {
    var s1 := Step(s, b);
    StepDanger(s, b);
    if s1.crashed || s.pcs[b] == Clearing(j) {
      RunCons(s, b, []);
      sched := [b] + [];
    } else {
      var rest := ComesToClear(s1, b, j);
      RunCons(s, b, rest);
      sched := [b] + rest;
    }
  }

  lemma RaceCrashes(s: Sys, j: nat, a: nat, b: nat) returns (sched: seq<nat>)
    requires WellFormed(s) && !s.crashed && Race(s, j, a, b)
    ensures Schedule(s, sched) && Run(s, sched).crashed
  {
    RunCons(Run(s, []), a, []);
    sched := [a] + [];
    if s.live[j] {
      var first := ComesToStop(s, a, j);
      sched := first;
      var s1 := Run(s, first);
      if !s1.crashed {
        var second := ComesToClear(s1, b, j);
        RunAppend(s, first, second);
        sched := first + second;
        var s2 := Run(s1, second);
        if !s2.crashed {
          RunCons(s2, a, []);
          RunAppend(s, sched, [a] + []);
          sched := sched + ([a] + []);
        }
      }
    }
  }

  /**
   * From any state of any number of loops, Stop can come to be called on a field
   * another call of unwind has cleared exactly when some loop is about to, or
   * two of them have the same live consume loop still before them.
   */
  lemma CrashIff(s: Sys)
    requires WellFormed(s)
    ensures CanCrash(s) <==> Danger(s)
  {
    if s.crashed {
      assert Schedule(s, []) && Run(s, []).crashed;
    } else if Danger(s) {
      var j: nat, a: nat, b: nat :| Race(s, j, a, b);
      var sched := RaceCrashes(s, j, a, b);
    }
    if CanCrash(s) {
      var sched :| Schedule(s, sched) && Run(s, sched).crashed;
      RunDanger(s, sched);
    }
  }

  /** Loops that are all about to begin can crash exactly when there are at least two of them and some consume loop is live. */
  lemma BeginningCrashIff(s: Sys)
    requires !s.crashed && forall i :: 0 <= i < |s.pcs| ==> s.pcs[i] == Checking(0)
    ensures CanCrash(s) <==> |s.pcs| >= 2 && true in s.live
  {
    CrashIff(s);
    if |s.pcs| >= 2 && true in s.live {
      var j: nat :| j < |s.live| && s.live[j];
      assert Race(s, j, 0, 1);
    }
  }
}
