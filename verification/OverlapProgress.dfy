// Binding and unwinding come to an end: the channel-by-channel runs of
// Overlap.dfy finish, and when nobody can move the question of what is left live
// is settled.
module OverlapProgress {
  import opened Wrappers
  import opened Resources
  import opened Overlap
  import L = Lifecycle
  import LP = LifecycleProgress

  /** Actions one call of unwind has at most before it, with n channels at most. */
  function UnwindLeft(u: Unwinder, n: nat): int {
    match u
    case Idle => 2 * n + 3
    case Unsubscribing(k, n1) => n1 - k + n + 2
    case Tearing(_, k, n2) => n2 - k + 1
    case Over(_, _) => 0
  }

  ghost function Left(p: Plan, s: Sys): int {
    Total(s.life.pcs, LP.Left) + (|p.srcs| - |s.held|) + UnwindLeft(s.rollback, |p.srcs|) + UnwindLeft(s.shutdown, |p.srcs|)
  }

  lemma AdvanceLowers(st: Stuck, net: Net, held: seq<Handle>, u: Unwinder, n: nat)
    requires Swept(u, held) && |held| <= n
    ensures UnwindLeft(u, n) >= 0 && UnwindLeft(Advance(net, st, held, u).u, n) >= 0
    ensures !u.Over? ==> UnwindLeft(Advance(net, st, held, u).u, n) < UnwindLeft(u, n)
    ensures u.Over? ==> Advance(net, st, held, u) == Unwinding(net, held, u)
  {
  }

  lemma BindingLowers(p: Plan, s: Sys, i: nat, choice: bool)
    requires i < |s.life.pcs| && |p.srcs| == |p.lucks| && s.life.pcs[i].Binding?
    ensures Left(p, Step(p, s, i, choice)) < Left(p, s)
  {
    LP.StepLowersLeft(s.life, i, false);
    LP.StepLowersLeft(s.life, i, true);
    Moves(s.life, i);
  }

  /** Every step that changes anything brings the run closer to its end. */
  lemma StepLowersLeft(p: Plan, s: Sys, i: nat, choice: bool)
    requires i < |s.life.pcs| && Inv(p, s)
    ensures Step(p, s, i, choice) == s || Left(p, Step(p, s, i, choice)) < Left(p, s)
  {
    if s.life.pcs[i].Binding? {
      BindingLowers(p, s, i, choice);
    } else {
      AdvanceLowers(p.st, s.net, s.held, s.rollback, |p.srcs|);
      AdvanceLowers(p.st, s.net, s.held, s.shutdown, |p.srcs|);
      LP.StepLowersLeft(s.life, i, choice);
    }
  }

  /** A caller that binds, or is to unwind, can always go on. */
  lemma Moves(life: L.Sys, i: nat)
    requires i < |life.pcs| && (life.pcs[i].Binding? || life.pcs[i].Unwinding?)
    ensures forall choice :: L.Step(life, i, choice) != life
  {
    assert forall choice :: L.Step(life, i, choice).pcs[i] != life.pcs[i];
  }

  /** Every move of the schedule does something. */
  ghost predicate Busily(p: Plan, s: Sys, sched: seq<L.Move>)
    requires |p.srcs| == |p.lucks| && Schedule(s, sched)
    decreases |sched|
  {
    sched == [] ||
    (&& Step(p, s, sched[0].caller, sched[0].choice) != s
     && Busily(p, Step(p, s, sched[0].caller, sched[0].choice), sched[1..]))
  }

  lemma LeftIsNatural(p: Plan, s: Sys)
    requires Inv(p, s)
    ensures Left(p, s) >= 0
  {
    AdvanceLowers(p.st, s.net, s.held, s.rollback, |p.srcs|);
    AdvanceLowers(p.st, s.net, s.held, s.shutdown, |p.srcs|);
  }

  lemma {:induction false} BusyIsShort(p: Plan, s: Sys, sched: seq<L.Move>)
    requires Inv(p, s) && Schedule(s, sched) && Busily(p, s, sched)
    ensures |sched| <= Left(p, s)
    decreases |sched|
  {
    if sched == [] {
      LeftIsNatural(p, s);
    } else {
      StepInv(p, s, sched[0].caller, sched[0].choice);
      StepLowersLeft(p, s, sched[0].caller, sched[0].choice);
      BusyIsShort(p, Step(p, s, sched[0].caller, sched[0].choice), sched[1..]);
    }
  }

  /** Nobody can move, short of somebody's context being done. */
  ghost predicate Still(p: Plan, s: Sys)
    requires |p.srcs| == |p.lucks|
  {
    forall i :: 0 <= i < |s.life.pcs| ==> Step(p, s, i, false) == s
  }

  /** Where one caller stands when nobody can move: not binding, and not before the end of unwinding. */
  lemma StillCaller(p: Plan, s: Sys, i: nat)
    requires Inv(p, s) && Still(p, s) && i < |s.life.pcs|
    ensures !s.life.pcs[i].Binding? && !s.life.pcs[i].Unwinding? && L.Step(s.life, i, false) == s.life
    ensures s.life.pcs[i].FailedOut? ==> s.rollback.Over?
  {
    assert Step(p, s, i, false) == s;
    AdvanceLowers(p.st, s.net, s.held, s.rollback, |p.srcs|);
    AdvanceLowers(p.st, s.net, s.held, s.shutdown, |p.srcs|);
    if s.life.pcs[i].Binding? || s.life.pcs[i].Unwinding? {
      Moves(s.life, i);
    }
  }

  lemma StillLife(p: Plan, s: Sys)
    requires Inv(p, s) && Still(p, s)
    ensures LP.Still(s.life)
  {
    forall i | 0 <= i < |s.life.pcs|
      ensures L.Step(s.life, i, false) == s.life
    {
      StillCaller(p, s, i);
    }
  }

  /** When nobody can move, everything is settled, or the imp runs and nobody has entered Shutdown, or nobody has done anything at all. */
  lemma StillIsSettled(p: Plan, s: Sys)
    requires Inv(p, s) && Still(p, s) && LP.AwaitsOver(s.life)
    ensures Settled(s) || (s.life.once == L.Unused && !StartFailed(s))
  {
    StillLife(p, s);
    if s.life.runner.Some? {
      LP.StillCaller(s.life, s.life.runner.value);
      StillCaller(p, s, s.life.runner.value);
      assert L.CallerOk(s.life.runner.value, s.life.isRun[s.life.runner.value], s.life.pcs[s.life.runner.value],
                        s.life.runner, s.life.once, s.life.err, s.life.closed);
    }
    if s.life.once.Busy? {
      LP.StillCaller(s.life, s.life.once.caller);
      assert L.CallerOk(s.life.once.caller, s.life.isRun[s.life.once.caller], s.life.pcs[s.life.once.caller],
                        s.life.runner, s.life.once, s.life.err, s.life.closed);
    }
  }

  /** N callers and C channels take at most 14 N + 5 C + 6 steps that change anything, under every schedule. */
  lemma {:induction false} EveryRunEnds(p: Plan, s: Sys, sched: seq<L.Move>)
    requires Booted(p, s) && Schedule(s, sched) && Busily(p, s, sched)
    ensures |sched| <= 14 * |s.life.pcs| + 5 * |p.srcs| + 6
  {
    BootedInv(p, s);
    BusyIsShort(p, s, sched);
    var most := (pc: L.Pc) => 14;
    TotalBound(s.life.pcs, LP.Left, most);
    TotalConst(s.life.pcs, most, 14);
  }

  lemma StillReturned(p: Plan, s: Sys, i: nat)
    requires Inv(p, s) && Still(p, s) && LP.AwaitsOver(s.life) && i < |s.life.pcs| && LP.InShutdown(s.life.pcs[i])
    ensures s.life.pcs[i].Returned?
  {
    StillLife(p, s);
    LP.StillCaller(s.life, i);
  }

  /**
   * Once nobody can move, a failed start has been rolled back, whoever entered
   * Shutdown has returned, and Shutdown's unwind has come past everything it saw;
   * unless nobody entered Shutdown and no start failed.
   */
  lemma {:induction false} EverythingSettles(p: Plan, s: Sys, sched: seq<L.Move>)
    requires Booted(p, s) && Schedule(s, sched) && Still(p, Run(p, s, sched))
    ensures var s' := Run(p, s, sched);
            && L.Callers(s'.life) && (Settled(s') || (s'.life.once == L.Unused && !StartFailed(s')))
            && forall i :: 0 <= i < |s'.life.pcs| && LP.InShutdown(s'.life.pcs[i]) ==> s'.life.pcs[i].Returned?
  {
    BootedInv(p, s);
    RunInv(p, s, sched);
    var s' := Run(p, s, sched);
    var moves := IsLifecycleRun(p, s, sched);
    LP.RunAwaitsOver(s.life, moves);
    StillIsSettled(p, s');
    forall i | 0 <= i < |s'.life.pcs| && LP.InShutdown(s'.life.pcs[i])
      ensures s'.life.pcs[i].Returned?
    {
      StillReturned(p, s', i);
    }
  }
}
