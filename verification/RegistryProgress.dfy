// The compare-and-swap loop makes progress: a measure over the whole shape that
// every step of every unfinished call lowers, and a bound on each call's rounds.
module RegistryProgress {
  import opened Wrappers
  import opened Registry

  // ---- every schedule finishes ----

  /** How often a call can still change the counter. */
  function Left(c: Call): nat {
    match c.pc
    case Start => 2
    case Reading => 2
    case Swapping(_) => 2
    case Storing => 1
    case Returning(_) => 1
    case _ => 0
  }

  /** Steps a call is from finishing if nobody else moves the counter; a stale reading costs a retry. */
  function Ahead(c: Call, count: int): nat {
    match c.pc
    case Start => 3
    case Reading => 2
    case Swapping(seen) => if seen == count then 1 else 3
    case Storing => 2
    case Returning(_) => 1
    case _ => 0
  }

  function AheadOf(count: int): Call -> nat {
    c => Ahead(c, count)
  }

  ghost function Measure(s: Shape): nat {
    (2 * |s.calls| + 1) * Total(s.calls, Left) + Total(s.calls, AheadOf(s.count))
  }

  /** A change of the counter makes each of the other calls at most two steps longer. */
  lemma {:induction false} RecountCosts(calls: seq<Call>, i: nat, a: int, b: int)
    requires i < |calls| && !calls[i].pc.Swapping?
    ensures Total(calls, AheadOf(b)) <= Total(calls, AheadOf(a)) + 2 * (|calls| - 1)
  {
    if i > 0 {
      RecountCosts(calls[1..], i - 1, a, b);
    } else {
      RecountAll(calls[1..], a, b);
    }
  }

  lemma {:induction false} RecountAll(calls: seq<Call>, a: int, b: int)
    ensures Total(calls, AheadOf(b)) <= Total(calls, AheadOf(a)) + 2 * |calls|
  {
    if calls != [] {
      RecountAll(calls[1..], a, b);
    }
  }

  /** A step that changes the counter leaves its call one change fewer; any other brings it closer. */
  lemma StepOfCall(s: Shape, i: nat)
    requires i < |s.calls| && !Finished(s.calls[i])
    ensures var (c, c', n, n') := (s.calls[i], Step(s, i).calls[i], s.count, Step(s, i).count);
            if n != n' then Left(c') < Left(c) && Ahead(c', n) < Ahead(c, n) + 2 && !c'.pc.Swapping?
            else Left(c') <= Left(c) && Ahead(c', n) < Ahead(c, n)
  {
  }

  lemma StepLowersMeasure(s: Shape, i: nat)
    requires i < |s.calls| && !Finished(s.calls[i])
    ensures Measure(Step(s, i)) < Measure(s)
  {
    var s' := Step(s, i);
    StepOfCall(s, i);
    StepKeepsEntities(s, i);
    TotalUpdate(s.calls, i, s'.calls[i], Left);
    TotalUpdate(s.calls, i, s'.calls[i], AheadOf(s.count));
    var n := |s.calls|;
    if s'.count != s.count {
      RecountCosts(s'.calls, i, s.count, s'.count);
      Outweighs(2 * n + 1, Total(s'.calls, Left), Total(s.calls, Left));
    } else {
      MonotoneTimes(2 * n + 1, Total(s'.calls, Left), Total(s.calls, Left));
    }
  }

  lemma Outweighs(k: nat, x: nat, y: nat)
    requires x < y
    ensures k * x + k <= k * y
  {
    MonotoneTimes(k, x + 1, y);
  }

  lemma MonotoneTimes(k: nat, x: nat, y: nat)
    requires x <= y
    ensures k * x <= k * y
  {
  }

  /** Every entry of the schedule moves a call that has not finished. */
  ghost predicate Busy(s: Shape, sched: seq<nat>)
    requires Schedule(s, sched)
    decreases |sched|
  {
    sched == [] || (!Finished(s.calls[sched[0]]) && Busy(Step(s, sched[0]), sched[1..]))
  }

  lemma {:induction false} BusyIsBounded(s: Shape, sched: seq<nat>)
    requires Schedule(s, sched) && Busy(s, sched)
    ensures |sched| + Measure(Run(s, sched)) <= Measure(s)
    decreases |sched|
  {
    if sched != [] {
      StepLowersMeasure(s, sched[0]);
      BusyIsBounded(Step(s, sched[0]), sched[1..]);
    }
  }

  /**
   * Termination: N concurrent calls finish within (2N + 1) 2N + 3N steps in all,
   * under every schedule, whatever state the slots and the counter are in.
   */
  lemma EveryScheduleFinishes(s: Shape, sched: seq<nat>)
    requires Schedule(s, sched) && Busy(s, sched)
    requires forall i :: 0 <= i < |s.calls| ==> s.calls[i].pc == Start
    ensures var n := |s.calls|; |sched| <= (2 * n + 1) * (2 * n) + 3 * n
  {
    BusyIsBounded(s, sched);
    TotalConst(s.calls, Left, 2);
    TotalConst(s.calls, AheadOf(s.count), 3);
  }

  // ---- rounds of the loop ----

  /** How often a call has changed the counter so far. */
  function Made(c: Call): nat {
    match c.pc
    case Storing => 1
    case Panicked => 1
    case Returning(_) => 1
    case Done(_, how) => if how.Hit? then 0 else if how.Won? then 1 else 2
    case _ => 0
  }

  ghost function OthersMade(s: Shape, i: nat): int
    requires i < |s.calls|
  {
    Total(s.calls, Made) - Made(s.calls[i])
  }

  /** Every round but the last was undone by a change some other call made to the counter. */
  ghost predicate Paid(s: Shape, i: nat)
    requires i < |s.calls|
  {
    var c := s.calls[i];
    match c.pc
    case Start => c.rounds == 0
    case Reading => c.rounds <= OthersMade(s, i)
    case Swapping(seen) => c.rounds <= OthersMade(s, i) + if seen == s.count then 1 else 0
    case _ => c.rounds <= OthersMade(s, i) + 1
  }

  lemma OthersMadeStep(s: Shape, j: nat, i: nat)
    requires i < |s.calls| && j < |s.calls|
    ensures OthersMade(Step(s, j), i) ==
              OthersMade(s, i) + if j != i then Made(Step(s, j).calls[j]) - Made(s.calls[j]) else 0
    ensures OthersMade(s, i) >= 0
  {
    StepKeepsEntities(s, j);
    TotalUpdate(s.calls, j, Step(s, j).calls[j], Made);
    TotalAtLeast(s.calls, i, Made);
  }

  lemma StepPaid(s: Shape, j: nat, i: nat)
    requires i < |s.calls| && j < |s.calls| && Paid(s, i)
    ensures Paid(Step(s, j), i)
  {
    OthersMadeStep(s, j, i);
    StepKeepsEntities(s, j);
  }

  lemma {:induction false} RunPaid(s: Shape, sched: seq<nat>, i: nat)
    requires Schedule(s, sched) && i < |s.calls| && Paid(s, i)
    ensures Paid(Run(s, sched), i)
    decreases |sched|
  {
    if sched != [] {
      StepPaid(s, sched[0], i);
      RunPaid(Step(s, sched[0]), sched[1..], i);
    }
  }

  /** Each other call changes the counter at most twice. */
  lemma OthersMadeBound(s: Shape, i: nat)
    requires i < |s.calls|
    ensures 0 <= OthersMade(s, i) <= 2 * (|s.calls| - 1)
  {
    var rest := (c: Call) => 2 - Made(c);
    var two := (c: Call) => 2;
    TotalPlus(s.calls, Made, rest, two);
    TotalConst(s.calls, two, 2);
    TotalAtLeast(s.calls, i, rest);
    TotalAtLeast(s.calls, i, Made);
  }

  /** N concurrent calls: at every moment of every schedule, no call has gone round its loop more than 2(N-1)+1 times. */
  lemma RoundsAreBounded(s: Shape, sched: seq<nat>, i: nat)
    requires Schedule(s, sched) && i < |s.calls|
    requires forall k :: 0 <= k < |s.calls| ==> s.calls[k].pc == Start && s.calls[k].rounds == 0
    ensures Run(s, sched).calls[i].rounds <= 2 * (|s.calls| - 1) + 1
  {
    RunPaid(s, sched, i);
    OthersMadeBound(Run(s, sched), i);
  }
}
