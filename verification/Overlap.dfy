// Shutdown may come while start is still binding, or while Run rolls a failed
// start back: the lifecycle of imp.go with binding and unwinding taken channel by
// channel, under every interleaving, and exactly when something stays live.
module Overlap {
  import opened Wrappers
  import opened Resources
  import D = Durable
  import L = Lifecycle

  /** What a run is given: the substrate before it, the releases that will fail, the channels, the luck of each bind. */
  datatype Plan = Plan(n0: Net, st: Stuck, srcs: seq<Source>, lucks: seq<Luck>)

  /**
   * How far one call of unwind has come. Each of its two loops ranges over the
   * channels there are when it begins: the first n1, then the first n2.
   */
  datatype Unwinder = Idle | Unsubscribing(k: nat, n1: nat) | Tearing(n1: nat, k: nat, n2: nat) | Over(n1: nat, n2: nat)

  /** The lifecycle, the substrate, the channel records, Run's rollback and Shutdown's unwind. */
  datatype Sys = Sys(life: L.Sys, net: Net, held: seq<Handle>, rollback: Unwinder, shutdown: Unwinder)

  datatype Unwinding = Unwinding(net: Net, held: seq<Handle>, u: Unwinder)

  /** The next action of unwind. */
  function Advance(net: Net, st: Stuck, held: seq<Handle>, u: Unwinder): (r: Unwinding)
    ensures |r.held| == |held|
  {
    match u
    case Idle => Unwinding(net, held, Unsubscribing(0, |held|))
    case Unsubscribing(k, n1) =>
      if k < n1 && k < |held| then
        Unwinding(Unsubscribe(net, st, held[k]), held[k := held[k].(sub := None)], Unsubscribing(k + 1, n1))
      else Unwinding(net, held, if net.js then Tearing(n1, 0, |held|) else Over(n1, |held|))
    case Tearing(n1, k, n2) =>
      if k < n2 && k < |held| then
        Unwinding(Teardown(net, st, held[k]), held[k := held[k].(loop := None, ephemeral := None)], Tearing(n1, k + 1, n2))
      else Unwinding(net, held, Over(n1, n2))
    case Over(_, _) => Unwinding(net, held, u)
  }

  /** Caller i makes its next action: one channel bound, one channel released, or a step of the lifecycle. */
  function Step(p: Plan, s: Sys, i: nat, choice: bool): (s': Sys)
    requires i < |s.life.pcs| && |p.srcs| == |p.lucks|
    ensures |s'.life.pcs| == |s.life.pcs|
  {
    match s.life.pcs[i]
    case Binding =>
      if |s.held| >= |p.srcs| then s.(life := L.Step(s.life, i, false))
      else
        var b := Bind(s.net, p.st, p.srcs[|s.held|], p.lucks[|s.held|]);
        if b.handle.None? then s.(life := L.Step(s.life, i, true), net := b.n)
        else s.(net := b.n, held := s.held + [b.handle.value])
    case FailedOut =>
      var r := Advance(s.net, p.st, s.held, s.rollback);
      s.(net := r.net, held := r.held, rollback := r.u)
    case Unwinding =>
      if s.shutdown.Over? then s.(life := L.Step(s.life, i, choice))
      else
        var r := Advance(s.net, p.st, s.held, s.shutdown);
        s.(net := r.net, held := r.held, shutdown := r.u)
    case _ => s.(life := L.Step(s.life, i, choice))
  }

  ghost predicate Schedule(s: Sys, sched: seq<L.Move>) {
    L.Schedule(s.life, sched)
  }

  ghost function Run(p: Plan, s: Sys, sched: seq<L.Move>): (s': Sys)
    requires |p.srcs| == |p.lucks| && Schedule(s, sched)
    ensures |s'.life.pcs| == |s.life.pcs|
    decreases |sched|
  {
    if sched == [] then s else Run(p, Step(p, s, sched[0].caller, sched[0].choice), sched[1..])
  }

  ghost predicate Booted(p: Plan, s: Sys) {
    && |p.srcs| == |p.lucks| && Untouched(p.n0)
    && s.net == p.n0 && s.held == [] && s.rollback == Idle && s.shutdown == Idle
    && L.Booted(s.life)
  }

  /** Every run here is a run of the lifecycle, so what is proved of those holds of these. */
  lemma {:induction false} IsLifecycleRun(p: Plan, s: Sys, sched: seq<L.Move>) returns (moves: seq<L.Move>)
    requires |p.srcs| == |p.lucks| && Schedule(s, sched)
    ensures L.Schedule(s.life, moves) && L.Run(s.life, moves) == Run(p, s, sched).life
    decreases |sched|
  {
    moves := [];
    if sched != [] {
      var i := sched[0].caller;
      var s1 := Step(p, s, i, sched[0].choice);
      moves := IsLifecycleRun(p, s1, sched[1..]);
      if s1.life != s.life {
        var m := L.Move(i, if s.life.pcs[i].Binding? then |s.held| < |p.srcs| else sched[0].choice);
        L.RunCons(s.life, m, s1.life, moves, Run(p, s, sched).life);
        moves := [m] + moves;
      }
    }
  }

  // ---- handles are unique, so releasing one releases no other ----

  ghost predicate Unique(held: seq<Handle>) {
    forall i, j :: 0 <= i < j < |held| ==>
      && (held[i].sub.Some? ==> held[i].sub != held[j].sub)
      && (held[i].loop.Some? ==> held[i].loop != held[j].loop)
      && (held[i].ephemeral.Some? ==> held[i].ephemeral != held[j].ephemeral)
  }

  lemma HeldOne(held: seq<Handle>, i: nat)
    requires i < |held|
    ensures Just(held[i].sub) <= SubsOf(held)
    ensures Just(held[i].loop) <= LoopsOf(held)
    ensures Just(held[i].ephemeral) <= EphemeralsOf(held)
  {
    assert held[i] in held;
  }

  lemma UniqueSnoc(held: seq<Handle>, h: Handle)
    requires Unique(held) && Just(h.sub) !! SubsOf(held) && Just(h.loop) !! LoopsOf(held) && Just(h.ephemeral) !! EphemeralsOf(held)
    ensures Unique(held + [h])
  {
    forall i | 0 <= i < |held|
      ensures held[i].sub.Some? ==> held[i].sub != h.sub
      ensures held[i].loop.Some? ==> held[i].loop != h.loop
      ensures held[i].ephemeral.Some? ==> held[i].ephemeral != h.ephemeral
    {
      HeldOne(held, i);
    }
  }

  lemma SubCleared(held: seq<Handle>, k: nat)
    requires Unique(held) && k < |held|
    ensures var held' := held[k := held[k].(sub := None)];
            && Unique(held') && SubsOf(held') == SubsOf(held) - Just(held[k].sub)
            && LoopsOf(held') == LoopsOf(held) && EphemeralsOf(held') == EphemeralsOf(held)
  {
    var held' := held[k := held[k].(sub := None)];
    forall h | h in held
      ensures h == held[k] || h in held'
    {
      var i :| 0 <= i < |held| && held[i] == h;
      assert i != k ==> held'[i] == h;
    }
    assert held'[k] in held' && held[k] in held;
    forall h | h in held'
      ensures h == held'[k] || (h in held && (h.sub.Some? ==> h.sub != held[k].sub))
    {
      var i :| 0 <= i < |held'| && held'[i] == h;
    }
  }

  lemma StreamCleared(held: seq<Handle>, k: nat)
    requires Unique(held) && k < |held|
    ensures var held' := held[k := held[k].(loop := None, ephemeral := None)];
            && Unique(held') && SubsOf(held') == SubsOf(held)
            && LoopsOf(held') == LoopsOf(held) - Just(held[k].loop)
            && EphemeralsOf(held') == EphemeralsOf(held) - Just(held[k].ephemeral)
  {
    var held' := held[k := held[k].(loop := None, ephemeral := None)];
    forall h | h in held
      ensures h == held[k] || h in held'
    {
      var i :| 0 <= i < |held| && held[i] == h;
      assert i != k ==> held'[i] == h;
    }
    assert held'[k] in held' && held[k] in held;
    forall h | h in held'
      ensures h == held'[k] || (h in held && (h.loop.Some? ==> h.loop != held[k].loop)
                                          && (h.ephemeral.Some? ==> h.ephemeral != held[k].ephemeral))
    {
      var i :| 0 <= i < |held'| && held'[i] == h;
    }
  }

  lemma UnsubscribeSound(n0: Net, st: Stuck, n: Net, held: seq<Handle>, k: nat)
    requires Sound(n0, st, n, held) && Unique(held) && k < |held|
    ensures Sound(n0, st, Unsubscribe(n, st, held[k]), held[k := held[k].(sub := None)])
  {
    SubCleared(held, k);
    HeldOne(held, k);
  }

  lemma TeardownSound(n0: Net, st: Stuck, n: Net, held: seq<Handle>, k: nat)
    requires Sound(n0, st, n, held) && Unique(held) && k < |held|
    ensures Sound(n0, st, Teardown(n, st, held[k]), held[k := held[k].(loop := None, ephemeral := None)])
  {
    StreamCleared(held, k);
    HeldOne(held, k);
  }

  // ---- what one call of unwind keeps ----

  /** How many channels the first, and the second, loop has come past. */
  function Past1(u: Unwinder): nat {
    match u
    case Idle => 0
    case Unsubscribing(k, _) => k
    case Tearing(n1, _, _) => n1
    case Over(n1, _) => n1
  }

  function Past2(u: Unwinder): nat {
    match u
    case Tearing(_, k, _) => k
    case Over(_, n2) => n2
    case _ => 0
  }

  /** Each loop that has begun ranges over the first m channels. */
  ghost predicate Full(u: Unwinder, m: nat) {
    match u
    case Idle => true
    case Unsubscribing(_, n1) => n1 == m
    case Tearing(n1, _, n2) => n1 == m && n2 == m
    case Over(n1, n2) => n1 == m && n2 == m
  }

  predicate Bare(h: Handle) {
    h.loop.None? && h.ephemeral.None?
  }

  /** What the loops have come past is released. */
  ghost predicate Swept(u: Unwinder, held: seq<Handle>) {
    && Past1(u) <= |held| && Past2(u) <= |held|
    && (u.Unsubscribing? ==> u.k <= u.n1 <= |held|)
    && (u.Tearing? ==> u.k <= u.n2 <= |held|)
    && (forall j :: 0 <= j < Past1(u) ==> held[j].sub.None?)
    && (forall j :: 0 <= j < Past2(u) ==> Bare(held[j]))
  }

  /** What the loops have not come past is still held. */
  ghost predicate Kept(srcs: seq<Source>, held: seq<Handle>, u: Unwinder)
    requires |held| <= |srcs|
  {
    && (forall j :: Past1(u) <= j < |held| && srcs[j].Subject? ==> held[j].sub.Some?)
    && (forall j :: Past2(u) <= j < |held| && srcs[j].Stream? ==> held[j].loop.Some?)
  }

  /** A channel holds what its kind calls for, or nothing. */
  ghost predicate Fits(srcs: seq<Source>, held: seq<Handle>) {
    && |held| <= |srcs|
    && forall j :: 0 <= j < |held| ==>
         && (held[j].sub.Some? ==> srcs[j].Subject?)
         && (!Bare(held[j]) ==> srcs[j].Stream?)
  }

  lemma AdvanceSound(n0: Net, st: Stuck, net: Net, held: seq<Handle>, u: Unwinder)
    requires Sound(n0, st, net, held) && Unique(held)
    ensures var r := Advance(net, st, held, u); Sound(n0, st, r.net, r.held) && Unique(r.held)
  {
    if u.Unsubscribing? && u.k < u.n1 && u.k < |held| {
      UnsubscribeSound(n0, st, net, held, u.k);
      SubCleared(held, u.k);
    } else if u.Tearing? && u.k < u.n2 && u.k < |held| {
      TeardownSound(n0, st, net, held, u.k);
      StreamCleared(held, u.k);
    }
  }

  /** Without a JetStream context no stream channel is held. */
  lemma NoStreams(n0: Net, net: Net, held: seq<Handle>, j: nat)
    requires Owned(n0, net, held) && !net.js && j < |held|
    ensures Bare(held[j])
  {
    HeldOne(held, j);
  }

  lemma AdvanceSweeps(n0: Net, st: Stuck, net: Net, held: seq<Handle>, u: Unwinder, other: Unwinder)
    requires Owned(n0, net, held) && Swept(u, held) && Swept(other, held)
    ensures var r := Advance(net, st, held, u); Swept(r.u, r.held) && Swept(other, r.held)
  {
    if !net.js {
      forall j | 0 <= j < |held|
        ensures Bare(held[j])
      {
        NoStreams(n0, net, held, j);
      }
    }
  }

  lemma AdvanceFits(srcs: seq<Source>, st: Stuck, net: Net, held: seq<Handle>, u: Unwinder)
    requires Fits(srcs, held) && Swept(u, held)
    ensures var r := Advance(net, st, held, u);
            && Fits(srcs, r.held) && (Kept(srcs, held, u) ==> Kept(srcs, r.held, r.u))
            && (Full(u, |held|) ==> Full(r.u, |held|))
  {
  }

  // ---- binding one more channel ----

  /** What binding leaves behind for a channel of each kind, new to the channels held. */
  lemma BindShape(n0: Net, st: Stuck, n: Net, held: seq<Handle>, src: Source, luck: Luck)
    requires Sound(n0, st, n, held)
    ensures var b := Bind(n, st, src, luck);
            b.handle.Some? ==>
              var h := b.handle.value;
              && (src.Subject? ==> h.sub.Some? && Bare(h))
              && (src.Stream? ==> h.sub.None? && h.loop.Some?)
              && !src.Unsupported?
              && Just(h.sub) !! SubsOf(held) && Just(h.loop) !! LoopsOf(held) && Just(h.ephemeral) !! EphemeralsOf(held)
  {
    var b := Bind(n, st, src, luck);
    if src.Stream? && b.handle.Some? {
      var r := Resolve(n.(js := true), src.stream, src.durable, D.Built(src.declared, src.filter), luck);
      assert r.n.next == n.next && (r.ephemeral ==> (src.stream, r.name) !in n.consumers);
    }
  }

  lemma BindSound(n0: Net, st: Stuck, n: Net, held: seq<Handle>, src: Source, luck: Luck)
    requires Sound(n0, st, n, held)
    ensures var b := Bind(n, st, src, luck);
            Sound(n0, st, b.n, if b.handle.Some? then held + [b.handle.value] else held)
  {
    match src
    case Subject => BindSubjectSound(n0, st, n, held, luck);
    case Stream(stream, durable, filter, declared) => BindStreamSound(n0, st, n, held, stream, durable, D.Built(declared, filter), luck);
    case Unsupported =>
  }

  // ---- every run ----

  ghost predicate Records(p: Plan, s: Sys) {
    && Sound(p.n0, p.st, s.net, s.held) && Unique(s.held) && Fits(p.srcs, s.held)
    && Swept(s.rollback, s.held) && Swept(s.shutdown, s.held)
    && (s.rollback.Idle? ==> Kept(p.srcs, s.held, s.shutdown))
  }

  /** Where the records stand, by how far Run and the shutdown body have come. */
  ghost predicate Stages(p: Plan, s: Sys)
    requires L.Callers(s.life)
  {
    var run, body := L.Runner(s.life), L.Body(s.life);
    && (run == 0 ==> s.held == [])
    && (run == 3 ==> |s.held| == |p.srcs|)
    && (forall i :: 0 <= i < |s.life.pcs| && s.life.pcs[i].MarkRunning? ==> |s.held| == |p.srcs|)
    && (s.rollback.Idle? || run == 2) && Full(s.rollback, |s.held|)
    && (s.shutdown.Idle? || body >= 2) && (body >= 3 ==> s.shutdown.Over?)
    && (L.DrainedWhileRunning(s.life) ==> Full(s.shutdown, |s.held|))
  }

  ghost predicate Inv(p: Plan, s: Sys) {
    && |p.srcs| == |p.lucks| && L.Good(s.life)
    && Records(p, s) && Stages(p, s)
  }

  /** One more channel changes nothing for the channels before it. */
  lemma SnocRecords(srcs: seq<Source>, held: seq<Handle>, h: Handle, rollback: Unwinder, shutdown: Unwinder)
    requires Fits(srcs, held) && Swept(rollback, held) && Swept(shutdown, held) && |held| < |srcs|
    requires h.sub.Some? ==> srcs[|held|].Subject?
    requires !Bare(h) ==> srcs[|held|].Stream?
    ensures Fits(srcs, held + [h]) && Swept(rollback, held + [h]) && Swept(shutdown, held + [h])
  {
  }

  lemma SnocKept(srcs: seq<Source>, held: seq<Handle>, h: Handle, u: Unwinder)
    requires |held| < |srcs| && Kept(srcs, held, u)
    requires srcs[|held|].Subject? ==> h.sub.Some?
    requires srcs[|held|].Stream? ==> h.loop.Some?
    ensures Kept(srcs, held + [h], u)
  {
  }

  /** One more channel bound. */
  lemma BoundRecords(p: Plan, s: Sys)
    requires |p.srcs| == |p.lucks| && Records(p, s) && |s.held| < |p.srcs|
    ensures var b := Bind(s.net, p.st, p.srcs[|s.held|], p.lucks[|s.held|]);
            Records(p, s.(net := b.n, held := if b.handle.Some? then s.held + [b.handle.value] else s.held))
  {
    var k := |s.held|;
    var b := Bind(s.net, p.st, p.srcs[k], p.lucks[k]);
    BindSound(p.n0, p.st, s.net, s.held, p.srcs[k], p.lucks[k]);
    BindShape(p.n0, p.st, s.net, s.held, p.srcs[k], p.lucks[k]);
    if b.handle.Some? {
      UniqueSnoc(s.held, b.handle.value);
      SnocRecords(p.srcs, s.held, b.handle.value, s.rollback, s.shutdown);
      if s.rollback.Idle? { SnocKept(p.srcs, s.held, b.handle.value, s.shutdown); }
    }
  }

  lemma RolledBackRecords(p: Plan, s: Sys)
    requires Records(p, s)
    ensures var r := Advance(s.net, p.st, s.held, s.rollback);
            Records(p, s.(net := r.net, held := r.held, rollback := r.u))
  {
    AdvanceSound(p.n0, p.st, s.net, s.held, s.rollback);
    AdvanceSweeps(p.n0, p.st, s.net, s.held, s.rollback, s.shutdown);
    AdvanceFits(p.srcs, p.st, s.net, s.held, s.rollback);
  }

  lemma ShutDownRecords(p: Plan, s: Sys)
    requires Records(p, s)
    ensures var r := Advance(s.net, p.st, s.held, s.shutdown);
            Records(p, s.(net := r.net, held := r.held, shutdown := r.u))
  {
    AdvanceSound(p.n0, p.st, s.net, s.held, s.shutdown);
    AdvanceSweeps(p.n0, p.st, s.net, s.held, s.shutdown, s.rollback);
    AdvanceFits(p.srcs, p.st, s.net, s.held, s.shutdown);
  }

  /** Only a caller that has bound everything is about to mark Running. */
  lemma LifeMarks(life: L.Sys, i: nat, choice: bool, all: bool)
    requires i < |life.pcs| && (life.pcs[i].Binding? && !choice ==> all)
    requires forall j :: 0 <= j < |life.pcs| && life.pcs[j].MarkRunning? ==> all
    ensures forall j :: 0 <= j < |life.pcs| && L.Step(life, i, choice).pcs[j].MarkRunning? ==> all
  {
    var life' := L.Step(life, i, choice);
    assert forall j :: 0 <= j < |life.pcs| && j != i ==> life'.pcs[j] == life.pcs[j];
  }

  /** A step of the lifecycle that binds and releases nothing. */
  lemma LifeStages(p: Plan, s: Sys, i: nat, choice: bool)
    requires i < |s.life.pcs| && Inv(p, s)
    requires s.life.pcs[i].Binding? && !choice ==> |s.held| == |p.srcs|
    requires s.life.pcs[i].Unwinding? ==> s.shutdown.Over?
    requires L.Good(L.Step(s.life, i, choice))
    ensures Stages(p, s.(life := L.Step(s.life, i, choice)))
  {
    L.StepStages(s.life, i, choice);
    var life' := L.Step(s.life, i, choice);
    if L.DrainedWhileRunning(life') {
      L.StepKeepsDrainMark(s.life, i, choice);
    }
    LifeMarks(s.life, i, choice, |s.held| == |p.srcs|);
  }

  lemma LifeInv(p: Plan, s: Sys, i: nat, choice: bool)
    requires i < |s.life.pcs| && Inv(p, s)
    requires s.life.pcs[i].Binding? && !choice ==> |s.held| == |p.srcs|
    requires s.life.pcs[i].Unwinding? ==> s.shutdown.Over?
    ensures Inv(p, s.(life := L.Step(s.life, i, choice)))
  {
    L.StepGood(s.life, i, choice);
    LifeStages(p, s, i, choice);
  }

  /** While start is binding, unwind has not begun, or was begun by a Shutdown that did not wait for Running. */
  lemma BindingStages(p: Plan, s: Sys, i: nat, net: Net, held: seq<Handle>)
    requires i < |s.life.pcs| && L.Good(s.life) && Stages(p, s) && s.life.pcs[i].Binding?
    ensures s.rollback.Idle? && Stages(p, s.(net := net, held := held))
  {
    L.StepRunnerStage(s.life, i, false);
    assert L.CallerOk(i, s.life.isRun[i], s.life.pcs[i], s.life.runner, s.life.once, s.life.err, s.life.closed);
    assert forall j :: 0 <= j < |s.life.pcs| && s.life.pcs[j].MarkRunning? ==>
        L.CallerOk(j, s.life.isRun[j], s.life.pcs[j], s.life.runner, s.life.once, s.life.err, s.life.closed);
  }

  lemma BindingInv(p: Plan, s: Sys, i: nat, choice: bool)
    requires i < |s.life.pcs| && Inv(p, s) && s.life.pcs[i].Binding?
    ensures Inv(p, Step(p, s, i, choice))
  {
    if |s.held| == |p.srcs| {
      LifeInv(p, s, i, false);
    } else {
      var b := Bind(s.net, p.st, p.srcs[|s.held|], p.lucks[|s.held|]);
      var s1 := s.(net := b.n, held := if b.handle.Some? then s.held + [b.handle.value] else s.held);
      BoundRecords(p, s);
      BindingStages(p, s, i, s1.net, s1.held);
      if b.handle.None? {
        LifeInv(p, s1, i, true);
      }
    }
  }

  lemma RollbackInv(p: Plan, s: Sys, i: nat, choice: bool)
    requires i < |s.life.pcs| && Inv(p, s) && s.life.pcs[i].FailedOut?
    ensures Inv(p, Step(p, s, i, choice))
  {
    L.StepRunnerStage(s.life, i, choice);
    RolledBackRecords(p, s);
    AdvanceFits(p.srcs, p.st, s.net, s.held, s.rollback);
  }

  lemma ShutdownInv(p: Plan, s: Sys, i: nat, choice: bool)
    requires i < |s.life.pcs| && Inv(p, s) && s.life.pcs[i].Unwinding? && !s.shutdown.Over?
    ensures Inv(p, Step(p, s, i, choice))
  {
    L.StepStages(s.life, i, choice);
    ShutDownRecords(p, s);
    AdvanceFits(p.srcs, p.st, s.net, s.held, s.shutdown);
  }

  lemma StepInv(p: Plan, s: Sys, i: nat, choice: bool)
    requires i < |s.life.pcs| && Inv(p, s)
    ensures Inv(p, Step(p, s, i, choice))
  {
    match s.life.pcs[i]
    case Binding => BindingInv(p, s, i, choice);
    case FailedOut => RollbackInv(p, s, i, choice);
    case Unwinding =>
      if s.shutdown.Over? {
        LifeInv(p, s, i, choice);
      } else {
        ShutdownInv(p, s, i, choice);
      }
    case _ => LifeInv(p, s, i, choice);
  }

  lemma {:induction false} RunInv(p: Plan, s: Sys, sched: seq<L.Move>)
    requires Inv(p, s) && Schedule(s, sched)
    ensures Inv(p, Run(p, s, sched))
    decreases |sched|
  {
    if sched != [] {
      StepInv(p, s, sched[0].caller, sched[0].choice);
      RunInv(p, Step(p, s, sched[0].caller, sched[0].choice), sched[1..]);
    }
  }

  lemma BootedInv(p: Plan, s: Sys)
    requires Booted(p, s)
    ensures Inv(p, s)
  {
    L.BootedGood(s.life);
    assert SubsOf([]) == {} && LoopsOf([]) == {} && EphemeralsOf([]) == {};
  }

  // ---- exactly when something stays live ----

  /** The start failed. */
  ghost predicate StartFailed(s: Sys)
    requires L.Callers(s.life)
  {
    L.Runner(s.life) == 2
  }

  /** Start is over, and so is the unwinding that answers for it: Run's after a failure, Shutdown's otherwise. */
  ghost predicate Settled(s: Sys)
    requires L.Callers(s.life)
  {
    L.Runner(s.life) != 1 && if StartFailed(s) then s.rollback.Over? else s.shutdown.Over?
  }

  /** Shutdown's loops began with every channel of their kind bound. */
  ghost predicate SawAll(p: Plan, s: Sys)
    requires |s.held| <= |p.srcs|
  {
    && (forall j :: Past1(s.shutdown) <= j < |s.held| ==> !p.srcs[j].Subject?)
    && (forall j :: Past2(s.shutdown) <= j < |s.held| ==> !p.srcs[j].Stream?)
  }

  ghost predicate NothingHeld(held: seq<Handle>) {
    forall j :: 0 <= j < |held| ==> held[j].sub.None? && Bare(held[j])
  }

  /** Live is what was live before, created durables, and what could not be released. */
  ghost predicate Conserved(n0: Net, st: Stuck, n: Net) {
    && n.subs == n0.subs + (n.subscribed * st.subs)
    && n.loops == n0.loops
    && n.consumers == n0.consumers + n.durables + (n.ephemerals * st.consumers)
  }

  lemma HeldIff(p: Plan, s: Sys)
    requires Inv(p, s) && Settled(s)
    ensures NothingHeld(s.held) <==> StartFailed(s) || SawAll(p, s)
  {
  }

  lemma NothingHeldConserves(p: Plan, s: Sys)
    requires Sound(p.n0, p.st, s.net, s.held)
    ensures NothingHeld(s.held) ==> Conserved(p.n0, p.st, s.net)
    ensures p.st == Stuck({}, {}) && Conserved(p.n0, p.st, s.net) ==> NothingHeld(s.held)
  {
    if NothingHeld(s.held) {
      assert SubsOf(s.held) == {} && LoopsOf(s.held) == {} && EphemeralsOf(s.held) == {};
    } else if p.st == Stuck({}, {}) {
      var j :| 0 <= j < |s.held| && !(s.held[j].sub.None? && Bare(s.held[j]));
      HeldOne(s.held, j);
    }
  }

  /**
   * Under every interleaving of Run and Shutdown, down to single channels: once
   * start and the unwinding that answers for it are over, nothing is left live
   * exactly when start failed, or every channel was bound before the loop of
   * unwind that releases its kind began.
   */
  lemma LeaksIff(p: Plan, s: Sys, sched: seq<L.Move>)
    requires Booted(p, s) && Schedule(s, sched)
    ensures var s' := Run(p, s, sched);
            L.Callers(s'.life) && |s'.held| <= |p.srcs| &&
            (Settled(s') ==>
               && (NothingHeld(s'.held) <==> StartFailed(s') || SawAll(p, s'))
               && (StartFailed(s') || SawAll(p, s') ==> Conserved(p.n0, p.st, s'.net))
               && (p.st == Stuck({}, {}) ==> (Conserved(p.n0, p.st, s'.net) <==> StartFailed(s') || SawAll(p, s'))))
  {
    BootedInv(p, s);
    RunInv(p, s, sched);
    var s' := Run(p, s, sched);
    if Settled(s') {
      HeldIff(p, s');
      NothingHeldConserves(p, s');
    }
  }

  // ---- what the loops of unwind range over ----

  lemma {:induction false} RunSnoc(p: Plan, s: Sys, sched: seq<L.Move>, n: nat)
    requires |p.srcs| == |p.lucks| && Schedule(s, sched) && n < |sched|
    ensures Run(p, s, sched[..n + 1]) == Step(p, Run(p, s, sched[..n]), sched[n].caller, sched[n].choice)
    decreases n
  {
    if n == 0 {
      assert sched[..1][1..] == [];
    } else {
      var s1 := Step(p, s, sched[0].caller, sched[0].choice);
      RunSnoc(p, s1, sched[1..], n - 1);
      assert sched[..n + 1][1..] == sched[1..][..n] && sched[..n][1..] == sched[1..][..n - 1];
    }
  }

  /** What the first, and the second, loop ranges over, once it has begun. */
  function Range1(u: Unwinder): Option<nat> {
    match u
    case Idle => None
    case Unsubscribing(_, n1) => Some(n1)
    case Tearing(n1, _, _) => Some(n1)
    case Over(n1, _) => Some(n1)
  }

  function Range2(u: Unwinder): Option<nat> {
    match u
    case Tearing(_, _, n2) => Some(n2)
    case Over(_, n2) => Some(n2)
    case _ => None
  }

  /** A loop of Shutdown's unwind begins with what is bound at that moment, and ranges over that to its end. */
  lemma StepRanges(p: Plan, s: Sys, i: nat, choice: bool)
    requires |p.srcs| == |p.lucks| && i < |s.life.pcs|
    ensures var s' := Step(p, s, i, choice);
            && (Range1(s'.shutdown) == Range1(s.shutdown) || (Range1(s.shutdown).None? && Range1(s'.shutdown) == Some(|s.held|)))
            && (Range2(s'.shutdown) == Range2(s.shutdown) || (Range2(s.shutdown).None? && Range2(s'.shutdown) == Some(|s.held|)))
  {
  }

  /** At step k the first, or the second, loop of Shutdown's unwind begins. */
  ghost predicate Begins1(p: Plan, s: Sys, sched: seq<L.Move>, k: nat)
    requires |p.srcs| == |p.lucks| && Schedule(s, sched) && k < |sched|
  {
    Range1(Run(p, s, sched[..k]).shutdown).None? && Range1(Run(p, s, sched[..k + 1]).shutdown).Some?
  }

  ghost predicate Begins2(p: Plan, s: Sys, sched: seq<L.Move>, k: nat)
    requires |p.srcs| == |p.lucks| && Schedule(s, sched) && k < |sched|
  {
    Range2(Run(p, s, sched[..k]).shutdown).None? && Range2(Run(p, s, sched[..k + 1]).shutdown).Some?
  }

  lemma {:induction false} RangeFrom1(p: Plan, s: Sys, sched: seq<L.Move>, n: nat) returns (k: nat)
    requires |p.srcs| == |p.lucks| && Schedule(s, sched) && n <= |sched| && s.shutdown.Idle?
    requires Range1(Run(p, s, sched[..n]).shutdown).Some?
    ensures k < n && Begins1(p, s, sched, k)
    ensures Range1(Run(p, s, sched[..n]).shutdown) == Some(|Run(p, s, sched[..k]).held|)
    decreases n
  {
    assert sched[..0] == [];
    RunSnoc(p, s, sched, n - 1);
    StepRanges(p, Run(p, s, sched[..n - 1]), sched[n - 1].caller, sched[n - 1].choice);
    if Range1(Run(p, s, sched[..n - 1]).shutdown).Some? {
      k := RangeFrom1(p, s, sched, n - 1);
    } else {
      k := n - 1;
    }
  }

  lemma {:induction false} RangeFrom2(p: Plan, s: Sys, sched: seq<L.Move>, n: nat) returns (k: nat)
    requires |p.srcs| == |p.lucks| && Schedule(s, sched) && n <= |sched| && s.shutdown.Idle?
    requires Range2(Run(p, s, sched[..n]).shutdown).Some?
    ensures k < n && Begins2(p, s, sched, k)
    ensures Range2(Run(p, s, sched[..n]).shutdown) == Some(|Run(p, s, sched[..k]).held|)
    decreases n
  {
    assert sched[..0] == [];
    RunSnoc(p, s, sched, n - 1);
    StepRanges(p, Run(p, s, sched[..n - 1]), sched[n - 1].caller, sched[n - 1].choice);
    if Range2(Run(p, s, sched[..n - 1]).shutdown).Some? {
      k := RangeFrom2(p, s, sched, n - 1);
    } else {
      k := n - 1;
    }
  }

  /**
   * When Shutdown's unwind is over, its first loop has ranged over exactly the
   * channels bound when that loop began, and its second over those bound when the
   * second began, later: start may bind channels in between.
   */
  lemma LoopsRangeOverWhatIsBound(p: Plan, s: Sys, sched: seq<L.Move>) returns (k1: nat, k2: nat)
    requires Booted(p, s) && Schedule(s, sched) && Run(p, s, sched).shutdown.Over?
    ensures k1 < |sched| && k2 < |sched| && Begins1(p, s, sched, k1) && Begins2(p, s, sched, k2)
    ensures Run(p, s, sched).shutdown == Over(|Run(p, s, sched[..k1]).held|, |Run(p, s, sched[..k2]).held|)
  {
    assert sched[..|sched|] == sched;
    k1 := RangeFrom1(p, s, sched, |sched|);
    k2 := RangeFrom2(p, s, sched, |sched|);
  }

  /** Run's rollback and Shutdown's unwind are both under way only if start failed. */
  lemma TwoUnwindersOnlyAfterFailure(p: Plan, s: Sys, sched: seq<L.Move>)
    requires Booted(p, s) && Schedule(s, sched)
    ensures var s' := Run(p, s, sched);
            L.Callers(s'.life) && (!s'.rollback.Idle? && !s'.shutdown.Idle? ==> StartFailed(s'))
  {
    BootedInv(p, s);
    RunInv(p, s, sched);
  }

  /**
   * In every run whose Draining was marked from Running, and in every run whose
   * start failed, whenever Shutdown came, nothing is leaked.
   */
  lemma InOrderNothingIsLeaked(p: Plan, s: Sys, sched: seq<L.Move>)
    requires Booted(p, s) && Schedule(s, sched)
    ensures var s' := Run(p, s, sched);
            L.Callers(s'.life) &&
            (Settled(s') && (L.DrainedWhileRunning(s'.life) || StartFailed(s')) ==> Conserved(p.n0, p.st, s'.net))
  {
    BootedInv(p, s);
    RunInv(p, s, sched);
    LeaksIff(p, s, sched);
  }

  lemma RunCons(p: Plan, s: Sys, m: L.Move, s1: Sys, rest: seq<L.Move>, s': Sys)
    requires |p.srcs| == |p.lucks| && m.caller < |s.life.pcs| && s1 == Step(p, s, m.caller, m.choice)
    requires Schedule(s1, rest) && Run(p, s1, rest) == s'
    ensures Schedule(s, [m] + rest) && Run(p, s, [m] + rest) == s'
  {
    assert ([m] + rest)[1..] == rest;
  }

  /** The substrate with nothing live. */
  const Empty := Net({}, {}, {}, 0, false, {}, {}, {})

  const OneSubject := Plan(Empty, Stuck({}, {}), [Subject], [Luck(true, true, Found, true, true, "c", None, true)])

  /** Start binds its one channel after unwind has been through none, and marks Running. */
  lemma BindLate(life: L.Sys) returns (s: Sys, s': Sys, sched: seq<L.Move>)
    requires life.pcs == [L.Binding, L.Unwinding]
    ensures s == Sys(life, Empty, [], Idle, Idle) && Schedule(s, sched) && Run(OneSubject, s, sched) == s'
    ensures s'.life.pcs == [L.Waiting, L.Unwinding] && s'.life.runner == life.runner && s'.shutdown == Over(0, 0)
    ensures s'.net.subs == {0} && s'.rollback == Idle
  {
    var p, mine, other := OneSubject, L.Move(0, false), L.Move(1, false);
    s := Sys(life, Empty, [], Idle, Idle);
    var s1 := s.(shutdown := Unsubscribing(0, 0));
    var s2 := s.(shutdown := Over(0, 0));
    var s3 := s2.(net := Empty.(subs := {0}, subscribed := {0}, next := 1), held := [Handle(Some(0), None, None)]);
    var s4 := s3.(life := L.Step(life, 0, false));
    s' := s4.(life := L.Step(s4.life, 0, false));
    RunCons(p, s4, mine, s', [], s');
    RunCons(p, s3, mine, s4, [mine] + [], s');
    RunCons(p, s2, mine, s3, [mine] + ([mine] + []), s');
    RunCons(p, s1, other, s2, [mine] + ([mine] + ([mine] + [])), s');
    sched := [other] + ([other] + ([mine] + ([mine] + ([mine] + []))));
    RunCons(p, s, other, s1, [other] + ([mine] + ([mine] + ([mine] + []))), s');
  }

  /** A Shutdown that overtakes start: unwind finds no channel, and the one bound afterwards stays subscribed. */
  lemma ShutdownOvertakesStart() returns (s: Sys, sched: seq<L.Move>)
    ensures Booted(OneSubject, s) && Schedule(s, sched)
    ensures var s' := Run(OneSubject, s, sched);
            L.Callers(s'.life) && Settled(s') && s'.net.subs == {0} && !Conserved(OneSubject.n0, OneSubject.st, s'.net)
  {
    var p := OneSubject;
    var life := L.Sys(L.Created, L.Unused, false, None, [true, false], [L.Swap, L.Enter], [L.Created], None, None);
    var life1 := L.Step(life, 0, false);
    var life2 := L.Step(life1, 1, false);
    var life3 := L.Step(life2, 1, false);
    s := Sys(life, Empty, [], Idle, Idle);
    var s3, s', tail := BindLate(life3);
    RunCons(p, s3.(life := life2), L.Move(1, false), s3, tail, s');
    sched := [L.Move(1, false)] + tail;
    RunCons(p, s3.(life := life1), L.Move(1, false), s3.(life := life2), sched, s');
    sched := [L.Move(1, false)] + sched;
    RunCons(p, s, L.Move(0, false), s3.(life := life1), sched, s');
    sched := [L.Move(0, false)] + sched;
    LeaksIff(p, s, sched);
  }
}
