// When the calls of the store succeed, with which error they fail, and what they
// return and store, said of the clock, the codecs, the hook and the backend's
// health alone.
module StoreOutcomes {
  import opened Wrappers
  import opened StoreSpec
  import opened StoreRefinement

  /** What a load finds for e: its resident state, zero if nothing is stored, or what is stored, woken by the hook if there is one. */
  ghost function Current<T>(cfg: Config<T>, m: Model<T>, e: Entity, env: Env): Option<T> {
    if e in m.cells then Some(m.cells[e].state)
    else if !env.readUp then None
    else if cfg.name + "." + e !in m.disk then Some(cfg.zero)
    else
      var v := cfg.open(m.disk[cfg.name + "." + e]);
      if v.None? || !cfg.unmarshal(v.value.state).ok then None
      else
        var state := cfg.unmarshal(v.value.state).value;
        Some(if cfg.wake.None? then state else cfg.wake.value(e, env.wakeAt - v.value.lastActive, state))
  }

  /** Why a load fails, read off the backend, and what it returns besides: what a failing codec left, else zero. */
  ghost predicate LoadError<T>(cfg: Config<T>, m: Model<T>, e: Entity, env: Env, out: Outcome<T>) {
    var k := cfg.name + "." + e;
    && out.err.Some?
    && var err := out.err.value;
    && out.value == (if err == BadState && k in m.disk && cfg.open(m.disk[k]).Some?
                     then cfg.unmarshal(cfg.open(m.disk[k]).value.state).value else cfg.zero)
    && e !in m.cells
    && (err == BackendDown <==> !env.readUp)
    && (err == BadEnvelope <==> env.readUp && k in m.disk && cfg.open(m.disk[k]).None?)
    && (err == BadState <==> env.readUp && k in m.disk && cfg.open(m.disk[k]).Some?)
    && err != MarshalFailed && err != SealFailed
  }

  /** A Get succeeds exactly when there is something to load, and returns it. */
  lemma GetOutcome<T>(cfg: Config<T>, m: Model<T>, call: Call<T>)
    requires m.bound >= 1 && ValidCall(call) && call.op.Get?
    ensures var (b, r, e) := (Before(m, call), Step(cfg, m, call), call.op.entity);
            var cur := Current(cfg, b, e, call.env);
            && (r.out.err.None? <==> cur.Some?)
            && (cur.Some? ==> r.out.value == cur.value)
            && (cur.None? ==> LoadError(cfg, b, e, call.env, r.out))
            && r.m.disk == m.disk
  {
  }

  /** The load an Update begins with. */
  lemma UpdateLoads<T>(cfg: Config<T>, m: Model<T>, e: Entity, env: Env)
    requires m.bound >= 1
    ensures var cur := Current(cfg, m, e, env);
            var r := Load(cfg, m, e, env);
            && (r.out.err.None? <==> cur.Some?) && r.m.disk == m.disk && r.m.bound == m.bound
            && (cur.Some? ==> r.out.value == cur.value && e in r.m.cells)
            && (cur.None? ==> LoadError(cfg, m, e, env, r.out))
  {
  }

  /**
   * An Update succeeds exactly when there is something to load, the new state
   * marshals, the envelope seals and the backend takes the write. It then stores
   * exactly that envelope, under the stamp of the call; when it fails nothing is
   * stored, and the first thing that failed is the error. From the load on it
   * returns the new state either way.
   */
  lemma UpdateOutcome<T>(cfg: Config<T>, m: Model<T>, call: Call<T>)
    requires m.bound >= 1 && ValidCall(call) && call.op.Update?
    ensures var (b, r, e, env) := (Before(m, call), Step(cfg, m, call), call.op.entity, call.env);
            var cur := Current(cfg, b, e, env);
            if cur.None? then LoadError(cfg, b, e, env, r.out) && r.m.disk == m.disk
            else
              var next := call.op.fn(cur.value);
              var raw := cfg.marshal(next);
              && r.out.value == next
              && if raw.None? then r.out.err == Some(MarshalFailed) && r.m.disk == m.disk
                 else
                   var sealed := cfg.seal(Envelope(raw.value, env.stampAt));
                   if sealed.None? then r.out.err == Some(SealFailed) && r.m.disk == m.disk
                   else if !env.writeUp then r.out.err == Some(BackendDown) && r.m.disk == m.disk
                   else r.out.err.None? && r.m.disk == m.disk[cfg.name + "." + e := sealed.value]
  {
    UpdateLoads(cfg, Before(m, call), call.op.entity, call.env);
  }

  /** A Delete succeeds exactly when the backend takes it, and then removes that one key. */
  lemma DeleteOutcome<T>(cfg: Config<T>, m: Model<T>, call: Call<T>)
    requires m.bound >= 1 && ValidCall(call) && call.op.Delete?
    ensures var (r, k) := (Step(cfg, m, call), cfg.name + "." + call.op.entity);
            && (r.out.err.None? <==> call.env.writeUp)
            && (!call.env.writeUp ==> r.out.err == Some(BackendDown) && r.m == Before(m, call))
            && r.m.disk == if call.env.writeUp then m.disk - {k} else m.disk
  {
  }

  /** While reads are down, a load fails exactly for an entity that is not resident. */
  lemma OfflineLoads<T>(cfg: Config<T>, m: Model<T>, call: Call<T>)
    requires m.bound >= 1 && ValidCall(call) && call.op.Get? && !call.env.readUp
    ensures Step(cfg, m, call).out.err == if call.op.entity in Before(m, call).cells then None else Some(BackendDown)
  {
    GetOutcome(cfg, m, call);
  }

  // ---- nothing fails while nothing is wrong ----

  /** Every state marshals and every envelope seals. */
  ghost predicate TotalCodec<T(!new)>(cfg: Config<T>) {
    && (forall x: T :: cfg.marshal(x).Some?)
    && (forall v: Envelope :: cfg.seal(v).Some?)
  }

  ghost predicate AllUp<T>(script: seq<Call<T>>) {
    forall i :: 0 <= i < |script| ==> script[i].env.readUp && script[i].env.writeUp
  }

  ghost predicate NoneGarbled<T>(cfg: Config<T>, disk: map<string, Bytes>) {
    forall e :: !Garbled(cfg, disk, e)
  }

  lemma StepSucceeds<T(!new)>(cfg: Config<T>, m: Model<T>, call: Call<T>)
    requires Inv(cfg, m) && Faithful(cfg) && TotalCodec(cfg) && ValidCall(call)
    requires NoneGarbled(cfg, m.disk) && call.env.readUp && call.env.writeUp
    ensures Step(cfg, m, call).out.err.None? && NoneGarbled(cfg, Step(cfg, m, call).m.disk)
  {
    ReopenKeeps(cfg, m, call);
    StepGarbled(cfg, m, call);
    var b, e := Before(m, call), call.op.entity;
    LoadFailsIff(cfg, b, e, call.env);
    if call.op.Update? {
      UpdateLoads(cfg, b, e, call.env);
      UpdateOutcome(cfg, m, call);
    }
  }

  /** With the backend up, a total codec and nothing undecodable stored, no call of any run fails, whatever the hook and the bounds. */
  lemma {:induction false} NothingFails<T(!new)>(cfg: Config<T>, m: Model<T>, script: seq<Call<T>>, i: nat)
    requires Inv(cfg, m) && Faithful(cfg) && TotalCodec(cfg) && ValidScript(script)
    requires NoneGarbled(cfg, m.disk) && AllUp(script) && i < |script|
    ensures Outputs(cfg, m, script)[i].err.None?
    decreases |script|
  {
    OutputsHead(cfg, m, script);
    StepSucceeds(cfg, m, script[0]);
    if i > 0 {
      NothingFails(cfg, Step(cfg, m, script[0]).m, script[1..], i - 1);
    }
  }

  /** And without a hook every call returns what a plain map would, having made the same operations. */
  lemma {:induction false} PlainMapAnswers<T(!new)>(cfg: Config<T>, m: Model<T>, plain: map<Entity, T>, script: seq<Call<T>>, i: nat)
    requires Inv(cfg, m) && Faithful(cfg) && TotalCodec(cfg) && ValidScript(script) && cfg.wake.None?
    requires NoneGarbled(cfg, m.disk) && AllUp(script) && i < |script| && Represents(cfg, m.disk, plain)
    ensures Outputs(cfg, m, script)[i] == Outcome(PlainAnswer(PlainAfter(plain, cfg.zero, script[..i]), cfg.zero, script[i].op), None)
    decreases |script|
  {
    OutputsHead(cfg, m, script);
    StepSucceeds(cfg, m, script[0]);
    StepRefines(cfg, m, plain, script[0]);
    if i > 0 {
      assert script[..i][1..] == script[1..][..i - 1];
      PlainMapAnswers(cfg, Step(cfg, m, script[0]).m, PlainNext(plain, cfg.zero, script[0].op), script[1..], i - 1);
    }
  }

  /** A plain map after the operations of a script. */
  ghost function PlainAfter<T>(plain: map<Entity, T>, zero: T, script: seq<Call<T>>): map<Entity, T>
    decreases |script|
  {
    if script == [] then plain else PlainAfter(PlainNext(plain, zero, script[0].op), zero, script[1..])
  }
}
