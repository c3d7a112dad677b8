// Thinking goroutines and the drain wait of thinking.go and imp.go, under every
// interleaving: the gauge, the wait group, the outcome counters and waitDrain.
module Drain {
  import opened Wrappers

  /** How a thinking function ends. */
  datatype Outcome = Fine | Errored | Panicked

  /** A think's next action: gauge up, wait group up and go, run and record, gauge down, wait group down. */
  datatype Pc = Queued | Gauged | Running | Recorded | Lowered | Gone

  datatype Think = Think(outcome: Outcome, pc: Pc)

  /** waitDrain: not called, waiting on the group, the group was seen empty, returned. */
  datatype Wait = Idle | Waiting | SawEmpty | ReturnedNil | TimedOut

  datatype Sys = Sys(gauge: int, group: int, errors: nat, panics: nat, thinks: seq<Think>, wait: Wait)

  datatype Move = OfThink(i: nat) | Begin | Observe | Finish | Expire

  ghost predicate Enabled(s: Sys, m: Move) {
    match m
    case OfThink(i) => i < |s.thinks|
    case Begin => s.wait.Idle?
    case Observe => s.wait.Waiting? && s.group == 0
    case Finish => s.wait.SawEmpty?
    case Expire => s.wait.Waiting? || s.wait.SawEmpty?
  }

  function To(s: Sys, i: nat, pc: Pc): Sys
    requires i < |s.thinks|
  {
    s.(thinks := s.thinks[i := s.thinks[i].(pc := pc)])
  }

  function StepThink(s: Sys, i: nat): Sys
    requires i < |s.thinks|
  {
    var t := s.thinks[i];
    match t.pc
    case Queued => To(s, i, Gauged).(gauge := s.gauge + 1)
    case Gauged => To(s, i, Running).(group := s.group + 1)
    case Running =>
      To(s, i, Recorded).(errors := s.errors + if t.outcome.Errored? then 1 else 0,
                          panics := s.panics + if t.outcome.Panicked? then 1 else 0)
    case Recorded => To(s, i, Lowered).(gauge := s.gauge - 1)
    case Lowered => To(s, i, Gone).(group := s.group - 1)
    case Gone => s
  }

  function Step(s: Sys, m: Move): Sys
    requires Enabled(s, m)
  {
    match m
    case OfThink(i) => StepThink(s, i)
    case Begin => s.(wait := Waiting)
    case Observe => s.(wait := SawEmpty)
    case Finish => s.(wait := ReturnedNil)
    case Expire => s.(wait := TimedOut)
  }

  /** Nothing has been launched and nobody waits. */
  ghost predicate Initial(s: Sys) {
    && s.gauge == 0 && s.group == 0 && s.errors == 0 && s.panics == 0 && s.wait == Idle
    && forall i :: 0 <= i < |s.thinks| ==> s.thinks[i].pc == Queued
  }

  /** Consecutive states joined by enabled moves. */
  ghost predicate Path(run: seq<Sys>) {
    run != [] && forall k :: 0 < k < |run| ==> Next(run[k - 1], run[k])
  }

  /** A run: a path from an initial state. */
  ghost predicate Behaviour(run: seq<Sys>) {
    Path(run) && Initial(run[0])
  }

  ghost predicate Next(s: Sys, s': Sys) {
    exists m :: Enabled(s, m) && s' == Step(s, m)
  }

  // ---- counting ----

  function Raised(t: Think): nat {
    if t.pc.Gauged? || t.pc.Running? || t.pc.Recorded? then 1 else 0
  }

  function Grouped(t: Think): nat {
    if t.pc.Running? || t.pc.Recorded? || t.pc.Lowered? then 1 else 0
  }

  predicate Settled(t: Think) {
    t.pc.Recorded? || t.pc.Lowered? || t.pc.Gone?
  }

  function CountsError(t: Think): nat {
    if Settled(t) && t.outcome.Errored? then 1 else 0
  }

  function CountsPanic(t: Think): nat {
    if Settled(t) && t.outcome.Panicked? then 1 else 0
  }

  ghost predicate Counted(s: Sys) {
    && s.gauge == Total(s.thinks, Raised)
    && s.group == Total(s.thinks, Grouped)
    && s.errors == Total(s.thinks, CountsError)
    && s.panics == Total(s.thinks, CountsPanic)
  }

  lemma StepCounted(s: Sys, m: Move)
    requires Enabled(s, m) && Counted(s)
    ensures Counted(Step(s, m))
  {
    if m.OfThink? {
      var t' := Step(s, m).thinks[m.i];
      TotalUpdate(s.thinks, m.i, t', Raised);
      TotalUpdate(s.thinks, m.i, t', Grouped);
      TotalUpdate(s.thinks, m.i, t', CountsError);
      TotalUpdate(s.thinks, m.i, t', CountsPanic);
      assert Step(s, m).thinks == s.thinks[m.i := t'];
    }
  }

  lemma {:induction false} AlwaysCounted(run: seq<Sys>, n: nat)
    requires Behaviour(run) && n < |run|
    ensures Counted(run[n])
  {
    if n == 0 {
      TotalConst(run[0].thinks, Raised, 0);
      TotalConst(run[0].thinks, Grouped, 0);
      TotalConst(run[0].thinks, CountsError, 0);
      TotalConst(run[0].thinks, CountsPanic, 0);
    } else {
      AlwaysCounted(run, n - 1);
      assert Next(run[n - 1], run[n]);
      var m :| Enabled(run[n - 1], m) && run[n] == Step(run[n - 1], m);
      StepCounted(run[n - 1], m);
    }
  }

  /**
   * At every moment of every run the gauge is the thinks launched and not yet
   * lowered, and the two outcome counters together count each think that has
   * recorded at most once, by its own outcome.
   */
  lemma GaugeAndOutcomes(run: seq<Sys>, n: nat)
    requires Behaviour(run) && n < |run|
    ensures var s := run[n];
            && s.gauge == Total(s.thinks, Raised)
            && s.errors == Total(s.thinks, CountsError)
            && s.panics == Total(s.thinks, CountsPanic)
            && s.errors + s.panics <= Total(s.thinks, (t: Think) => if Settled(t) then 1 else 0)
  {
    AlwaysCounted(run, n);
    var s := run[n];
    var settled := (t: Think) => if Settled(t) then 1 else 0;
    var either := (t: Think) => CountsError(t) + CountsPanic(t);
    TotalPlus(s.thinks, CountsError, CountsPanic, either);
    TotalBound(s.thinks, either, settled);
  }

  function EndsInError(t: Think): nat {
    if t.outcome.Errored? then 1 else 0
  }

  function EndsInPanic(t: Think): nat {
    if t.outcome.Panicked? then 1 else 0
  }

  /** Once every think is gone, gauge and group are zero and each think has been counted exactly by how it ended. */
  lemma AllGoneAllCounted(run: seq<Sys>, n: nat)
    requires Behaviour(run) && n < |run| && forall i :: 0 <= i < |run[n].thinks| ==> run[n].thinks[i].pc.Gone?
    ensures var s := run[n];
            && s.gauge == 0 && s.group == 0
            && s.errors == Total(s.thinks, EndsInError) && s.panics == Total(s.thinks, EndsInPanic)
  {
    AlwaysCounted(run, n);
    var s := run[n];
    TotalConst(s.thinks, Raised, 0);
    TotalConst(s.thinks, Grouped, 0);
    TotalBound(s.thinks, CountsError, EndsInError);
    TotalBound(s.thinks, EndsInError, CountsError);
    TotalBound(s.thinks, CountsPanic, EndsInPanic);
    TotalBound(s.thinks, EndsInPanic, CountsPanic);
  }

  /** Every think launched so far has recorded its outcome and lowered the gauge. */
  ghost predicate Quiet(s: Sys) {
    forall i :: 0 <= i < |s.thinks| ==> s.thinks[i].pc.Queued? || s.thinks[i].pc.Gauged? || s.thinks[i].pc.Gone?
  }

  lemma {:induction false} EmptyGroupIsQuiet(thinks: seq<Think>, i: nat)
    requires Total(thinks, Grouped) == 0 && i < |thinks|
    ensures thinks[i].pc.Queued? || thinks[i].pc.Gauged? || thinks[i].pc.Gone?
  {
    TotalAtLeast(thinks, i, Grouped);
  }

  /** The moment the waiter saw the group empty. */
  lemma {:induction false} SawQuiet(run: seq<Sys>, n: nat) returns (k: nat)
    requires Behaviour(run) && n < |run| && (run[n].wait.SawEmpty? || run[n].wait.ReturnedNil?)
    ensures k < n && run[k].wait.Waiting? && Quiet(run[k])
  {
    var s, s' := run[n - 1], run[n];
    assert Next(s, s');
    var m :| Enabled(s, m) && s' == Step(s, m);
    if m.Observe? {
      k := n - 1;
      AlwaysCounted(run, k);
      forall i | 0 <= i < |s.thinks|
        ensures s.thinks[i].pc.Queued? || s.thinks[i].pc.Gauged? || s.thinks[i].pc.Gone?
      {
        EmptyGroupIsQuiet(s.thinks, i);
      }
    } else {
      k := SawQuiet(run, n - 1);
    }
  }

  /**
   * Drain soundness: if waitDrain returned nil, there was a moment during the
   * wait at which every goroutine launched so far had recorded its outcome,
   * lowered the gauge and left the group; the gauge then counted only launches
   * still on their way to the wait group.
   */
  lemma NilMeansDrained(run: seq<Sys>, n: nat) returns (k: nat)
    requires Behaviour(run) && n < |run| && run[n].wait.ReturnedNil?
    ensures k < n && run[k].wait.Waiting? && Quiet(run[k])
    ensures run[k].gauge == Total(run[k].thinks, (t: Think) => if t.pc.Gauged? then 1 else 0)
  {
    k := SawQuiet(run, n);
    AlwaysCounted(run, k);
    var gauged := (t: Think) => if t.pc.Gauged? then 1 else 0;
    TotalBound(run[k].thinks, Raised, gauged);
    TotalBound(run[k].thinks, gauged, Raised);
  }

  /** A nil return does not mean that nothing is thinking when it returns: a dispatch under way may launch after the group was seen empty. */
  lemma NilDoesNotMeanIdle() returns (run: seq<Sys>)
    ensures Behaviour(run)
    ensures var s := run[|run| - 1]; s.wait.ReturnedNil? && s.gauge == 1 && s.thinks == [Think(Fine, Running)]
  {
    var s0 := Sys(0, 0, 0, 0, [Think(Fine, Queued)], Idle);
    var s1 := s0.(wait := Waiting);
    var s2 := s0.(wait := SawEmpty);
    var s3 := Sys(1, 0, 0, 0, [Think(Fine, Gauged)], SawEmpty);
    var s4 := Sys(1, 1, 0, 0, [Think(Fine, Running)], SawEmpty);
    var s5 := s4.(wait := ReturnedNil);
    assert Enabled(s0, Begin) && s1 == Step(s0, Begin);
    assert Enabled(s1, Observe) && s2 == Step(s1, Observe);
    assert Enabled(s2, OfThink(0)) && s3 == Step(s2, OfThink(0));
    assert Enabled(s3, OfThink(0)) && s4 == Step(s3, OfThink(0));
    assert Enabled(s4, Finish) && s5 == Step(s4, Finish);
    run := [s0, s1, s2, s3, s4, s5];
  }

  // ---- the window ends the wait ----

  /** waitDrain has returned. */
  predicate Answered(w: Wait) {
    w.ReturnedNil? || w.TimedOut?
  }

  /** At step k the window ran out on a waiter that had not returned. */
  ghost predicate RunsOut(run: seq<Sys>, k: nat)
    requires k + 1 < |run|
  {
    (run[k].wait.Waiting? || run[k].wait.SawEmpty?) && run[k + 1] == run[k].(wait := TimedOut)
  }

  lemma {:induction false} AnswerStays(run: seq<Sys>, k: nat, n: nat)
    requires Path(run) && k <= n < |run| && Answered(run[k].wait)
    ensures run[n].wait == run[k].wait
    decreases n
  {
    if k < n {
      AnswerStays(run, k, n - 1);
      assert Next(run[n - 1], run[n]);
    }
  }

  lemma {:induction false} TimedOutOnlyByRunningOut(run: seq<Sys>, n: nat) returns (k: nat)
    requires Behaviour(run) && n < |run| && run[n].wait.TimedOut?
    ensures k < n && RunsOut(run, k)
    decreases n
  {
    assert Next(run[n - 1], run[n]);
    var m :| Enabled(run[n - 1], m) && run[n] == Step(run[n - 1], m);
    if m.Expire? {
      k := n - 1;
    } else {
      k := TimedOutOnlyByRunningOut(run, n - 1);
    }
  }

  /**
   * The drain window ends the wait: while waitDrain waits, whatever the thinks
   * do, the window can run out, and the error is then its answer for good; the
   * answer is the error exactly when the window ran out on it; and a waiter that
   * can no longer move has answered.
   */
  lemma WindowEndsTheWait(run: seq<Sys>, n: nat)
    requires Behaviour(run) && n < |run|
    ensures run[n].wait.TimedOut? <==> exists k :: 0 <= k < n && RunsOut(run, k)
    ensures run[n].wait.Waiting? || run[n].wait.SawEmpty? ==> Next(run[n], run[n].(wait := TimedOut))
    ensures !Enabled(run[n], Begin) && !Enabled(run[n], Observe) && !Enabled(run[n], Finish) && !Enabled(run[n], Expire) ==>
              Answered(run[n].wait)
  {
    var s := run[n];
    if s.wait.TimedOut? {
      var k := TimedOutOnlyByRunningOut(run, n);
    }
    if k :| 0 <= k < n && RunsOut(run, k) {
      AnswerStays(run, k + 1, n);
    }
    if s.wait.Waiting? || s.wait.SawEmpty? {
      assert Enabled(s, Expire) && Step(s, Expire) == s.(wait := TimedOut);
    }
  }

  // ---- exactly when nil means that all thinking has completed ----

  /** Between joining the group and leaving it. */
  predicate Active(t: Think) {
    t.pc.Running? || t.pc.Recorded? || t.pc.Lowered?
  }

  /** Nothing is thinking. */
  ghost predicate AllIdle(s: Sys) {
    forall i :: 0 <= i < |s.thinks| ==> !Active(s.thinks[i])
  }

  ghost function End(path: seq<Sys>): Sys
    requires path != []
  {
    path[|path| - 1]
  }

  /** The documented meaning of nil, from here on: however the run goes on, when waitDrain returns nil nothing is thinking. */
  ghost predicate NilMeansIdle(s: Sys) {
    forall path: seq<Sys> :: Path(path) && path[0] == s && End(path).wait.ReturnedNil? ==> AllIdle(End(path))
  }

  /** No dispatch has a launch still to make; and once the group was seen empty, nothing it let through is unfinished. */
  ghost predicate NoLaunchLeft(s: Sys) {
    forall i :: 0 <= i < |s.thinks| ==>
      && !s.thinks[i].pc.Queued? && !s.thinks[i].pc.Gauged?
      && (s.wait.SawEmpty? || s.wait.ReturnedNil? ==> s.thinks[i].pc.Gone?)
  }

  lemma StepNoLaunchLeft(s: Sys, m: Move)
    requires Enabled(s, m) && Counted(s) && NoLaunchLeft(s)
    ensures NoLaunchLeft(Step(s, m)) && |Step(s, m).thinks| == |s.thinks|
  {
    if m.Observe? {
      forall i | 0 <= i < |s.thinks|
        ensures s.thinks[i].pc.Gone?
      {
        EmptyGroupIsQuiet(s.thinks, i);
      }
    }
  }

  lemma {:induction false} PathNoLaunchLeft(path: seq<Sys>, n: nat)
    requires Path(path) && n < |path| && Counted(path[0]) && NoLaunchLeft(path[0])
    ensures Counted(path[n]) && NoLaunchLeft(path[n]) && |path[n].thinks| == |path[0].thinks|
  {
    if n > 0 {
      PathNoLaunchLeft(path, n - 1);
      assert Next(path[n - 1], path[n]);
      var m :| Enabled(path[n - 1], m) && path[n] == Step(path[n - 1], m);
      StepCounted(path[n - 1], m);
      StepNoLaunchLeft(path[n - 1], m);
    }
  }

  /** Actions a think has left. */
  function Left(t: Think): nat {
    match t.pc
    case Queued => 5
    case Gauged => 4
    case Running => 3
    case Recorded => 2
    case Lowered => 1
    case Gone => 0
  }

  function WaitLeft(w: Wait): nat {
    match w
    case Idle => 3
    case Waiting => 2
    case SawEmpty => 1
    case _ => 0
  }

  lemma StepLeft(s: Sys, i: nat)
    requires i < |s.thinks| && !s.thinks[i].pc.Gone?
    ensures Total(StepThink(s, i).thinks, Left) < Total(s.thinks, Left)
  {
    TotalUpdate(s.thinks, i, StepThink(s, i).thinks[i], Left);
  }

  lemma {:induction false} SomeGrouped(thinks: seq<Think>) returns (i: nat)
    requires Total(thinks, Grouped) > 0
    ensures i < |thinks| && Active(thinks[i])
  {
    if Active(thinks[0]) {
      i := 0;
    } else {
      i := SomeGrouped(thinks[1..]);
      i := i + 1;
    }
  }

  /** The move that lets a launch still to be made slip past the wait: drain, see the group empty, launch, return. */
  lemma SlipMove(s: Sys, late: nat) returns (m: Move)
    requires Counted(s) && late < |s.thinks| && WaitLeft(s.wait) > 0
    requires s.thinks[late].pc.Queued? || s.thinks[late].pc.Gauged? || (s.wait.SawEmpty? && Active(s.thinks[late]))
    ensures Enabled(s, m)
    ensures m.OfThink? ==> !s.thinks[m.i].pc.Gone? && (m.i == late ==> s.wait.SawEmpty? && !Active(s.thinks[late]))
    ensures !m.Expire?
    ensures m.Finish? ==> Active(s.thinks[late])
  {
    match s.wait
    case Idle => m := Begin;
    case Waiting =>
      if s.group == 0 {
        m := Observe;
      } else {
        var i := SomeGrouped(s.thinks);
        m := OfThink(i);
      }
    case SawEmpty => m := if Active(s.thinks[late]) then Finish else OfThink(late);
    case _ =>
  }

  lemma PathCons(s: Sys, m: Move, rest: seq<Sys>)
    requires Enabled(s, m) && Path(rest) && rest[0] == Step(s, m)
    ensures Path([s] + rest) && End([s] + rest) == End(rest)
  {
    var path := [s] + rest;
    forall k | 0 < k < |path|
      ensures Next(path[k - 1], path[k])
    {
      assert k > 1 ==> Next(rest[k - 2], rest[k - 1]);
    }
  }

  /** A launch still to be made can end up active when nil is returned. */
  lemma {:induction false} Slips(s: Sys, late: nat) returns (path: seq<Sys>)
    requires Counted(s) && late < |s.thinks| && WaitLeft(s.wait) > 0
    requires s.thinks[late].pc.Queued? || s.thinks[late].pc.Gauged? || (s.wait.SawEmpty? && Active(s.thinks[late]))
    ensures Path(path) && path[0] == s
    ensures var last := End(path);
            last.wait.ReturnedNil? && |last.thinks| == |s.thinks| && Active(last.thinks[late])
    decreases Total(s.thinks, Left), WaitLeft(s.wait)
  {
    var m := SlipMove(s, late);
    var s' := Step(s, m);
    if m.Finish? {
      PathCons(s, m, [s']);
      path := [s] + [s'];
    } else {
      StepCounted(s, m);
      if m.OfThink? { StepLeft(s, m.i); }
      var rest := Slips(s', late);
      PathCons(s, m, rest);
      path := [s] + rest;
    }
  }

  /**
   * At every moment of every run at which waitDrain can still return nil, nil is
   * bound to mean that no think is under way exactly when no dispatch has a
   * launch still to make (and, once the group was seen empty, no launch slipped
   * in since).
   */
  lemma NilMeansIdleIff(run: seq<Sys>, n: nat)
    requires Behaviour(run) && n < |run| && WaitLeft(run[n].wait) > 0
    ensures NilMeansIdle(run[n]) <==> NoLaunchLeft(run[n])
  {
    AlwaysCounted(run, n);
    var s := run[n];
    if NoLaunchLeft(s) {
      forall path: seq<Sys> | Path(path) && path[0] == s && End(path).wait.ReturnedNil?
        ensures AllIdle(End(path))
      {
        PathNoLaunchLeft(path, |path| - 1);
      }
    } else {
      var late :| 0 <= late < |s.thinks| &&
        (s.thinks[late].pc.Queued? || s.thinks[late].pc.Gauged? || (s.wait.SawEmpty? && Active(s.thinks[late])));
      var path := Slips(s, late);
      assert !AllIdle(End(path));
    }
  }
}
