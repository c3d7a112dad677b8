// Recency: the store's list is always the front of the list an unbounded store
// would keep, so eviction is exactly least-recently-used, and a larger bound
// never holds less.
module StoreLru {
  import opened Wrappers
  import opened StoreSpec

  /** The unbounded move-to-front list after one call: loaded entities move up, deleted ones leave. */
  ghost function Recency<T>(cfg: Config<T>, m: Model<T>, call: Call<T>, all: seq<Entity>): seq<Entity>
    requires Inv(cfg, m) && ValidCall(call)
  {
    var e := call.op.entity;
    if call.op.Delete? then
      if Step(cfg, m, call).out.err.None? then Without(all, e) else all
    else
      if Load(cfg, Before(m, call), e, call.env).out.err.None? then ToFront(all, e) else all
  }

  ghost function RecencyOver<T(!new)>(cfg: Config<T>, m: Model<T>, script: seq<Call<T>>, all: seq<Entity>): seq<Entity>
    requires Inv(cfg, m) && Faithful(cfg) && ValidScript(script)
    decreases |script|
  {
    if script == [] then all else
      StepKeeps(cfg, m, script[0]);
      RecencyOver(cfg, Step(cfg, m, script[0]).m, script[1..], Recency(cfg, m, script[0], all))
  }

  lemma {:induction false} WithoutPrefix(s: seq<Entity>, t: seq<Entity>, e: Entity)
    requires s <= t
    ensures Without(s, e) <= Without(t, e)
  {
    if s != [] {
      assert s[1..] <= t[1..];
      WithoutPrefix(s[1..], t[1..], e);
    }
  }

  lemma TakeFrontPrefix(s: seq<Entity>, t: seq<Entity>, e: Entity, n: nat)
    requires s <= t
    ensures Take(ToFront(s, e), n) <= ToFront(t, e)
  {
    WithoutPrefix(s, t, e);
  }

  /** How one call moves the list: the loaded entity goes first and the list is cut at the bound. */
  lemma StepOrder<T(!new)>(cfg: Config<T>, m: Model<T>, call: Call<T>)
    requires Inv(cfg, m) && Faithful(cfg) && ValidCall(call)
    ensures var b, r := Before(m, call), Step(cfg, m, call);
            r.m.bound == b.bound &&
            r.m.order ==
              if call.op.Delete? then (if r.out.err.None? then Without(b.order, call.op.entity) else b.order)
              else if Load(cfg, b, call.op.entity, call.env).out.err.None? then Take(ToFront(b.order, call.op.entity), b.bound)
              else b.order
  {
    ReopenKeeps(cfg, m, call);
    var b := Before(m, call);
    var e := call.op.entity;
    if call.op.Delete? {
      DeleteKeeps(cfg, b, e, call.env);
    } else {
      LoadKeeps(cfg, b, e, call.env);
      var loaded := Load(cfg, b, e, call.env);
      if call.op.Update? && loaded.out.err.None? {
        CommitKeeps(cfg, loaded.m, e, call.op.fn(loaded.out.value), call.env);
        HeadStays(b.order, e, b.bound);
      }
    }
  }

  lemma HeadStays(s: seq<Entity>, e: Entity, n: nat)
    requires Distinct(s) && n >= 1
    ensures ToFront(Take(ToFront(s, e), n), e) == Take(ToFront(s, e), n)
  {
    ToFrontKeeps(s, e);
    var t := Take(ToFront(s, e), n);
    WithoutAt(t, 0);
  }

  lemma StepPrefix<T(!new)>(cfg: Config<T>, m: Model<T>, call: Call<T>, all: seq<Entity>)
    requires Inv(cfg, m) && Faithful(cfg) && ValidCall(call) && m.order <= all
    ensures Step(cfg, m, call).m.order <= Recency(cfg, m, call, all)
  {
    StepOrder(cfg, m, call);
    var b, e := Before(m, call), call.op.entity;
    assert b.order <= all;
    TakeFrontPrefix(b.order, all, e, b.bound);
    WithoutPrefix(b.order, all, e);
  }

  /**
   * Least recently used, over every run: the residents, hottest first, are the
   * front of the unbounded move-to-front list, and never more than the bound.
   */
  lemma {:induction false} ResidentsAreTheMostRecent<T(!new)>(cfg: Config<T>, m: Model<T>, script: seq<Call<T>>, all: seq<Entity>)
    requires Inv(cfg, m) && Faithful(cfg) && ValidScript(script) && m.order <= all
    ensures var m' := Run(cfg, m, script);
            && m'.order <= RecencyOver(cfg, m, script, all)
            && |m'.order| <= m'.bound
            && Distinct(m'.order) && forall e :: e in m'.order <==> e in m'.cells
    decreases |script|
  {
    if script != [] {
      OutputsHead(cfg, m, script);
      StepPrefix(cfg, m, script[0], all);
      ResidentsAreTheMostRecent(cfg, Step(cfg, m, script[0]).m, script[1..], Recency(cfg, m, script[0], all));
    }
  }

  lemma InsertEvicts<T>(m: Model<T>, logged: Model<T>, e: Entity, c: Cell<T>, r: Model<T>)
    requires InStep(m) && e !in m.cells && logged == m.(wakes := logged.wakes) && r == Insert(logged, e, c)
    ensures e in r.cells
    ensures m.cells.Keys - r.cells.Keys == if |m.order| == m.bound then {m.order[|m.order| - 1]} else {}
  {
    if |m.order| == m.bound {
      var coldest := m.order[m.bound - 1];
      assert Trim(logged, m.bound - 1).cells == m.cells - {coldest};
      assert coldest in m.order;
    }
  }

  lemma LoadEvicts<T>(cfg: Config<T>, m: Model<T>, e: Entity, env: Env, r: Model<T>)
    requires Inv(cfg, m) && Load(cfg, m, e, env).out.err.None? && e !in m.cells && r == Load(cfg, m, e, env).m
    ensures e in r.cells
    ensures m.cells.Keys - r.cells.Keys == if |m.order| == m.bound then {m.order[|m.order| - 1]} else {}
  {
    LoadFromDisk(cfg, m, e, env);
    if Key(cfg.name, e) !in m.disk {
      InsertEvicts(m, m, e, Cell(cfg.zero, NeverSeen), r);
    } else {
      var (p, stamp) := Stored(cfg, m.disk, e).value;
      InsertEvicts(m, LogWake(cfg, m, WakeCall(e, env.wakeAt - stamp, p)), e,
                   Cell(Woken(cfg, e, env.wakeAt - stamp, p), Rehydrated(env.wakeAt)), r);
    }
  }

  /** One load evicts nothing unless the store is full and the entity is new; then it evicts the coldest, and only it. */
  lemma EvictsOnlyTheColdest<T>(cfg: Config<T>, m: Model<T>, e: Entity, env: Env)
    requires Inv(cfg, m) && Load(cfg, m, e, env).out.err.None?
    ensures var r := Load(cfg, m, e, env);
            && e in r.m.cells
            && m.cells.Keys - r.m.cells.Keys ==
                 if e !in m.cells && |m.order| == m.bound then {m.order[|m.order| - 1]} else {}
  {
    if e !in m.cells {
      LoadEvicts(cfg, m, e, env, Load(cfg, m, e, env).m);
    }
  }

  // ---- a larger bound holds at least as much ----

  /** The smaller store's list is the front of the larger store's. */
  ghost predicate Nested<T>(small: Model<T>, large: Model<T>) {
    small.bound <= large.bound && small.order <= large.order
  }

  lemma NestedTouch(s: seq<Entity>, t: seq<Entity>, e: Entity, p: nat, q: nat)
    requires s <= t && p <= q && |s| <= p && |t| <= q && Distinct(t)
    ensures Take(ToFront(s, e), p) <= Take(ToFront(t, e), q)
  {
    TakeFrontPrefix(s, t, e, p);
    WithoutMembers(s, e);
    WithoutMembers(t, e);
    if e in t && e !in s {
      assert |s| < |t|;
      WithoutShrinksByOne(t, e);
    } else if e in t {
      WithoutShrinksByOne(t, e);
      WithoutShrinksByOne(s, e);
    }
  }

  lemma WithoutShrinksByOne(s: seq<Entity>, e: Entity)
    requires Distinct(s) && e in s
    ensures |Without(s, e)| == |s| - 1
  {
    var i :| 0 <= i < |s| && s[i] == e;
    WithoutAt(s, i);
  }

  /**
   * Two calls for the two stores: both load or both delete the same entity,
   * reads are up, and writes are equally up where that decides a delete. What
   * the updates apply, and whether their writes succeed, may differ.
   */
  ghost predicate Alongside<T>(a: Call<T>, b: Call<T>) {
    && a.op.entity == b.op.entity && (a.op.Delete? <==> b.op.Delete?)
    && a.env.readUp && b.env.readUp && (a.op.Delete? ==> a.env.writeUp == b.env.writeUp)
    && (b.rebuild.Some? ==> a.rebuild.Some?)
  }

  function BoundAfter<T>(bound: nat, call: Call<T>): nat {
    if call.rebuild.Some? then call.rebuild.value else bound
  }

  /** Two scripts side by side, from bounds p and q: the smaller store may be rebuilt alone, but its bound never passes the other's. */
  ghost predicate SideBySide<T>(p: nat, q: nat, s1: seq<Call<T>>, s2: seq<Call<T>>)
    decreases |s1|
  {
    && |s1| == |s2|
    && (s1 == [] ||
          (&& Alongside(s1[0], s2[0]) && BoundAfter(p, s1[0]) <= BoundAfter(q, s2[0])
           && SideBySide(BoundAfter(p, s1[0]), BoundAfter(q, s2[0]), s1[1..], s2[1..])))
  }

  /** What does not decode on one backend does not on the other. */
  ghost predicate GarbledAlike<T>(cfg: Config<T>, small: Model<T>, large: Model<T>) {
    forall e :: Garbled(cfg, small.disk, e) <==> Garbled(cfg, large.disk, e)
  }

  lemma StepNested<T(!new)>(cfg: Config<T>, small: Model<T>, large: Model<T>, a: Call<T>, b: Call<T>)
    requires Inv(cfg, small) && Inv(cfg, large) && Faithful(cfg) && GarbledAlike(cfg, small, large)
    requires ValidCall(a) && ValidCall(b) && Alongside(a, b) && Nested(small, large)
    requires BoundAfter(small.bound, a) <= BoundAfter(large.bound, b)
    ensures Nested(Step(cfg, small, a).m, Step(cfg, large, b).m)
    ensures Step(cfg, small, a).m.bound == BoundAfter(small.bound, a) && Step(cfg, large, b).m.bound == BoundAfter(large.bound, b)
  {
    StepOrder(cfg, small, a);
    StepOrder(cfg, large, b);
    ReopenKeeps(cfg, small, a);
    ReopenKeeps(cfg, large, b);
    var s, l, e := Before(small, a), Before(large, b), a.op.entity;
    if a.op.Delete? {
      WithoutPrefix(s.order, l.order, e);
    } else {
      LoadFailsIff(cfg, s, e, a.env);
      LoadFailsIff(cfg, l, e, b.env);
      NestedTouch(s.order, l.order, e, s.bound, l.bound);
    }
  }

  /**
   * Inclusion: while backend reads are up, a store with a larger bound that
   * loads and deletes the same entities holds, at every moment, at least the
   * same residents in the same recency order: whatever the updates apply and
   * whichever writes fail, through deletes, rebuilds, and entities whose stored
   * bytes do not decode, as long as they are the same in both.
   */
  lemma {:induction false} LargerBoundHoldsMore<T(!new)>(cfg: Config<T>, small: Model<T>, large: Model<T>, s1: seq<Call<T>>, s2: seq<Call<T>>)
    requires Inv(cfg, small) && Inv(cfg, large) && Faithful(cfg) && GarbledAlike(cfg, small, large)
    requires ValidScript(s1) && ValidScript(s2) && SideBySide(small.bound, large.bound, s1, s2)
    requires Nested(small, large)
    ensures var s, l := Run(cfg, small, s1), Run(cfg, large, s2);
            s.order <= l.order && s.cells.Keys <= l.cells.Keys
    decreases |s1|
  {
    if s1 == [] {
      assert forall e :: e in small.cells ==> e in small.order && e in large.order;
    } else {
      OutputsHead(cfg, small, s1);
      OutputsHead(cfg, large, s2);
      StepGarbled(cfg, small, s1[0]);
      StepGarbled(cfg, large, s2[0]);
      StepNested(cfg, small, large, s1[0], s2[0]);
      LargerBoundHoldsMore(cfg, Step(cfg, small, s1[0]).m, Step(cfg, large, s2[0]).m, s1[1..], s2[1..]);
    }
  }
}
