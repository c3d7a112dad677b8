// Without a wake hook the store is the plain map it speeds up, whatever the
// bound, the backend failures, and however often it is rebuilt.
module StoreRefinement {
  import opened Wrappers
  import opened StoreSpec

  /** The plain map a backend stands for: every entity whose stored bytes decode. */
  ghost predicate Represents<T>(cfg: Config<T>, disk: map<string, Bytes>, plain: map<Entity, T>) {
    && (forall e :: Key(cfg.name, e) !in disk ==> e !in plain)
    && (forall e :: Stored(cfg, disk, e).Some? ==> e in plain && plain[e] == Stored(cfg, disk, e).value.0)
  }

  function Lookup<T>(plain: map<Entity, T>, zero: T, e: Entity): T {
    if e in plain then plain[e] else zero
  }

  /** A plain map's answer to a call. */
  function PlainAnswer<T>(plain: map<Entity, T>, zero: T, op: Op<T>): T {
    match op
    case Get(e) => Lookup(plain, zero, e)
    case Update(e, fn) => fn(Lookup(plain, zero, e))
    case Delete(_) => zero
  }

  /** A plain map after a call. */
  function PlainNext<T>(plain: map<Entity, T>, zero: T, op: Op<T>): map<Entity, T> {
    match op
    case Get(_) => plain
    case Update(e, fn) => plain[e := fn(Lookup(plain, zero, e))]
    case Delete(e) => plain - {e}
  }

  /** A resident value is what the plain map holds, when nothing wakes. */
  lemma LoadAnswers<T>(cfg: Config<T>, m: Model<T>, plain: map<Entity, T>, e: Entity, env: Env)
    requires Inv(cfg, m) && Represents(cfg, m.disk, plain) && cfg.wake.None?
    ensures Load(cfg, m, e, env).out.err.None? ==> Load(cfg, m, e, env).out.value == Lookup(plain, cfg.zero, e)
  {
    var r := Load(cfg, m, e, env);
    LoadKeeps(cfg, m, e, env);
    if r.out.err.None? {
      assert CellLaw(cfg, r.m.disk, e, r.m.cells[e]);
    }
  }

  ghost predicate RefinesOnce<T>(cfg: Config<T>, plain: map<Entity, T>, op: Op<T>, r: Result<T>) {
    if r.out.err.Some? then Represents(cfg, r.m.disk, plain)
    else r.out.value == PlainAnswer(plain, cfg.zero, op)
         && Represents(cfg, r.m.disk, PlainNext(plain, cfg.zero, op))
  }

  lemma UpdateRefines<T(!new)>(cfg: Config<T>, m: Model<T>, plain: map<Entity, T>, e: Entity, fn: T -> T, env: Env)
    requires Inv(cfg, m) && Faithful(cfg) && cfg.wake.None? && Represents(cfg, m.disk, plain)
    ensures RefinesOnce(cfg, plain, Update(e, fn), DoUpdate(cfg, m, e, fn, env))
  {
    LoadKeeps(cfg, m, e, env);
    LoadAnswers(cfg, m, plain, e, env);
    var loaded := Load(cfg, m, e, env);
    if loaded.out.err.None? {
      var next := fn(loaded.out.value);
      CommitKeeps(cfg, loaded.m, e, next, env);
      var r := Commit(cfg, loaded.m, e, next, env);
      if r.out.err.None? {
        RepresentsPut(cfg, m.disk, r.m.disk, plain, e, next);
      }
    }
  }

  lemma RepresentsPut<T>(cfg: Config<T>, disk: map<string, Bytes>, disk': map<string, Bytes>, plain: map<Entity, T>, e: Entity, v: T)
    requires Represents(cfg, disk, plain)
    requires Stored(cfg, disk', e).Some? && Stored(cfg, disk', e).value.0 == v
    requires forall x :: x != e ==> Stored(cfg, disk', x) == Stored(cfg, disk, x)
    requires forall x :: x != e ==> (Key(cfg.name, x) in disk' <==> Key(cfg.name, x) in disk)
    ensures Represents(cfg, disk', plain[e := v])
  {
  }

  lemma DeleteRefines<T>(cfg: Config<T>, m: Model<T>, plain: map<Entity, T>, e: Entity, env: Env)
    requires Inv(cfg, m) && Represents(cfg, m.disk, plain)
    ensures RefinesOnce(cfg, plain, Delete(e), DoDelete(cfg, m, e, env))
  {
    DeleteKeeps(cfg, m, e, env);
  }

  /**
   * One call against the plain map: a success answers and moves as the map
   * would, a failure leaves the map as it was.
   */
  lemma StepRefines<T(!new)>(cfg: Config<T>, m: Model<T>, plain: map<Entity, T>, call: Call<T>)
    requires Inv(cfg, m) && Faithful(cfg) && cfg.wake.None? && ValidCall(call)
    requires Represents(cfg, m.disk, plain)
    ensures RefinesOnce(cfg, plain, call.op, Step(cfg, m, call))
  {
    ReopenKeeps(cfg, m, call);
    var b := Before(m, call);
    match call.op
    case Get(e) =>
      LoadKeeps(cfg, b, e, call.env);
      LoadAnswers(cfg, b, plain, e, call.env);
    case Update(e, fn) =>
      UpdateRefines(cfg, b, plain, e, fn, call.env);
    case Delete(e) =>
      DeleteRefines(cfg, b, plain, e, call.env);
  }

  /** A plain map's answers over a run in which call i takes effect exactly when wins[i]. */
  ghost function PlainAnswers<T>(plain: map<Entity, T>, zero: T, ops: seq<Op<T>>, wins: seq<bool>): (r: seq<T>)
    requires |ops| == |wins|
    ensures |r| == |ops|
    decreases |ops|
  {
    if ops == [] then [] else
      [PlainAnswer(plain, zero, ops[0])]
      + PlainAnswers(if wins[0] then PlainNext(plain, zero, ops[0]) else plain, zero, ops[1..], wins[1..])
  }

  ghost function Ops<T>(script: seq<Call<T>>): (r: seq<Op<T>>)
    ensures |r| == |script| && forall i :: 0 <= i < |script| ==> r[i] == script[i].op
  {
    if script == [] then [] else [script[0].op] + Ops(script[1..])
  }

  ghost function Wins<T>(outs: seq<Outcome<T>>): (r: seq<bool>)
    ensures |r| == |outs| && forall i :: 0 <= i < |outs| ==> r[i] == outs[i].err.None?
  {
    if outs == [] then [] else [outs[0].err.None?] + Wins(outs[1..])
  }

  /** The plain map after one call of a store. */
  ghost function After<T>(plain: map<Entity, T>, zero: T, op: Op<T>, out: Outcome<T>): map<Entity, T> {
    if out.err.None? then PlainNext(plain, zero, op) else plain
  }

  /**
   * Refinement: over every script, every bound, every pattern of failures and
   * every choice of rebuilds, each successful call returns what the plain map
   * returns, where the map moves at the successful calls only.
   */
  lemma {:induction false} RunRefinesPlainMap<T(!new)>(cfg: Config<T>, m: Model<T>, plain: map<Entity, T>, script: seq<Call<T>>)
    requires Inv(cfg, m) && Faithful(cfg) && cfg.wake.None? && ValidScript(script)
    requires Represents(cfg, m.disk, plain)
    ensures var outs := Outputs(cfg, m, script);
            var answers := PlainAnswers(plain, cfg.zero, Ops(script), Wins(outs));
            forall i :: 0 <= i < |script| && outs[i].err.None? ==> outs[i].value == answers[i]
    decreases |script|
  {
    if script != [] {
      var call, r := script[0], Step(cfg, m, script[0]);
      OutputsHead(cfg, m, script);
      StepRefines(cfg, m, plain, call);
      RunRefinesPlainMap(cfg, r.m, After(plain, cfg.zero, call.op, r.out), script[1..]);
      var outs := Outputs(cfg, m, script);
      assert Wins(outs)[1..] == Wins(outs[1..]);
      assert Ops(script)[1..] == Ops(script[1..]);
      var answers := PlainAnswers(plain, cfg.zero, Ops(script), Wins(outs));
      forall i | 0 <= i < |script| && outs[i].err.None?
        ensures outs[i].value == answers[i]
      {
        if i > 0 {
          assert outs[i] == outs[1..][i - 1];
        }
      }
    }
  }

  /** The calls of two scripts ask for the same operations; bounds, rebuilds and environments may differ. */
  ghost predicate SameOps<T>(s1: seq<Call<T>>, s2: seq<Call<T>>) {
    |s1| == |s2| && forall i :: 0 <= i < |s1| ==> s1[i].op == s2[i].op
  }

  /** Updates and deletes succeed at the same calls. */
  ghost predicate SameWrites<T>(script: seq<Call<T>>, o1: seq<Outcome<T>>, o2: seq<Outcome<T>>)
    requires |o1| == |o2| == |script|
  {
    forall i :: 0 <= i < |script| && !script[i].op.Get? ==> (o1[i].err.None? <==> o2[i].err.None?)
  }

  ghost predicate AgreeOnSuccess<T>(o1: seq<Outcome<T>>, o2: seq<Outcome<T>>)
    requires |o1| == |o2|
  {
    forall i :: 0 <= i < |o1| && o1[i].err.None? && o2[i].err.None? ==> o1[i].value == o2[i].value
  }

  lemma SameWritesTail<T>(script: seq<Call<T>>, o1: seq<Outcome<T>>, o2: seq<Outcome<T>>)
    requires |o1| == |o2| == |script| > 0 && SameWrites(script, o1, o2)
    ensures SameWrites(script[1..], o1[1..], o2[1..])
  {
  }

  lemma AgreeCons<T>(o1: seq<Outcome<T>>, o2: seq<Outcome<T>>)
    requires |o1| == |o2| > 0 && AgreeOnSuccess(o1[1..], o2[1..])
    requires o1[0].err.None? && o2[0].err.None? ==> o1[0].value == o2[0].value
    ensures AgreeOnSuccess(o1, o2)
  {
    forall i | 0 <= i < |o1| && o1[i].err.None? && o2[i].err.None?
      ensures o1[i].value == o2[i].value
    {
      if i > 0 {
        assert o1[i] == o1[1..][i - 1] && o2[i] == o2[1..][i - 1];
      }
    }
  }

  /**
   * Residency is invisible: two stores over backends that stand for the same
   * map, given the same operations but any bounds, rebuilds and read failures,
   * and whose writes succeed at the same calls, agree at every call that
   * succeeds in both.
   */
  lemma {:induction false} ResidencyIsInvisible<T(!new)>(
    cfg: Config<T>, m1: Model<T>, m2: Model<T>, plain: map<Entity, T>, s1: seq<Call<T>>, s2: seq<Call<T>>)
    requires Faithful(cfg) && cfg.wake.None?
    requires Inv(cfg, m1) && ValidScript(s1) && Represents(cfg, m1.disk, plain)
    requires Inv(cfg, m2) && ValidScript(s2) && Represents(cfg, m2.disk, plain)
    requires SameOps(s1, s2)
    requires SameWrites(s1, Outputs(cfg, m1, s1), Outputs(cfg, m2, s2))
    ensures AgreeOnSuccess(Outputs(cfg, m1, s1), Outputs(cfg, m2, s2))
    decreases |s1|
  {
    if s1 != [] {
      var op := s1[0].op;
      var r1, r2 := Step(cfg, m1, s1[0]), Step(cfg, m2, s2[0]);
      var o1, o2 := Outputs(cfg, m1, s1), Outputs(cfg, m2, s2);
      OutputsHead(cfg, m1, s1);
      OutputsHead(cfg, m2, s2);
      StepRefines(cfg, m1, plain, s1[0]);
      StepRefines(cfg, m2, plain, s2[0]);
      SameWritesTail(s1, o1, o2);
      var plain' := After(plain, cfg.zero, op, r1.out);
      assert After(plain, cfg.zero, op, r2.out) == plain' by {
        if !op.Get? {
          assert o1[0].err.None? <==> o2[0].err.None?;
        }
      }
      ResidencyIsInvisible(cfg, r1.m, r2.m, plain', s1[1..], s2[1..]);
      AgreeCons(o1, o2);
    }
  }
}
