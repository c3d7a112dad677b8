// The wake contract over whole runs: what a resident value may be, exactly when
// the hook is called, and that no moment of time is ever folded twice into an
// entity's durable state.
module StoreWake {
  import opened Wrappers
  import opened StoreSpec

  // ---- the wake law ----

  /** What an onlooker knows of a resident: when it was last loaded, or that it has been written since. */
  datatype Since = Absent | Loaded(at: Time) | Written

  /** How one call moves what the onlooker knows of e, from residency and results alone. */
  ghost function SinceNext<T(!new)>(cfg: Config<T>, m: Model<T>, call: Call<T>, e: Entity, since: Since): Since
    requires Inv(cfg, m) && ValidCall(call)
  {
    var r := Step(cfg, m, call);
    if e !in r.m.cells then Absent
    else if call.op.entity == e && call.op.Update? && r.out.err.None? then Written
    else if e !in Before(m, call).cells then Loaded(call.env.wakeAt)
    else since
  }

  ghost function SinceOver<T(!new)>(cfg: Config<T>, m: Model<T>, script: seq<Call<T>>, e: Entity, since: Since): Since
    requires Inv(cfg, m) && Faithful(cfg) && ValidScript(script)
    decreases |script|
  {
    if script == [] then since else
      StepKeeps(cfg, m, script[0]);
      SinceOver(cfg, Step(cfg, m, script[0]).m, script[1..], e, SinceNext(cfg, m, script[0], e, since))
  }

  /** The store's own history of a resident is what the onlooker knows. */
  ghost predicate Witnessed<T>(m: Model<T>, e: Entity, since: Since) {
    e in m.cells ==>
      match m.cells[e].origin
      case NeverSeen => since.Loaded?
      case Persisted => since.Written?
      case Rehydrated(at) => since == Loaded(at)
  }

  lemma LoadWitnessed<T>(cfg: Config<T>, m: Model<T>, x: Entity, env: Env, e: Entity)
    requires Inv(cfg, m) && e in Load(cfg, m, x, env).m.cells
    ensures var c := Load(cfg, m, x, env).m.cells[e];
            if e in m.cells then c == m.cells[e] else c.origin == NeverSeen || c.origin == Rehydrated(env.wakeAt)
  {
    LoadKeeps(cfg, m, x, env);
    if x !in m.cells {
      LoadFromDisk(cfg, m, x, env);
    }
  }

  /** What the onlooker knows of e after a load of x. */
  ghost function SinceLoad<T>(m: Model<T>, m': Model<T>, e: Entity, env: Env, since: Since): Since {
    if e !in m'.cells then Absent else if e !in m.cells then Loaded(env.wakeAt) else since
  }

  lemma LoadKeepsWitness<T>(cfg: Config<T>, m: Model<T>, x: Entity, env: Env, e: Entity, since: Since)
    requires Inv(cfg, m) && Witnessed(m, e, since)
    ensures Witnessed(Load(cfg, m, x, env).m, e, SinceLoad(m, Load(cfg, m, x, env).m, e, env, since))
  {
    if e in Load(cfg, m, x, env).m.cells {
      LoadWitnessed(cfg, m, x, env, e);
    }
  }

  lemma StepWitnessed<T(!new)>(cfg: Config<T>, m: Model<T>, call: Call<T>, e: Entity, since: Since)
    requires Inv(cfg, m) && Faithful(cfg) && ValidCall(call) && Witnessed(m, e, since)
    ensures Witnessed(Step(cfg, m, call).m, e, SinceNext(cfg, m, call, e, since))
  {
    ReopenKeeps(cfg, m, call);
    var b, x := Before(m, call), call.op.entity;
    match call.op
    case Delete(_) => DeleteKeeps(cfg, b, x, call.env);
    case Get(_) => LoadKeepsWitness(cfg, b, x, call.env, e, since);
    case Update(_, fn) =>
      LoadKeepsWitness(cfg, b, x, call.env, e, since);
      LoadKeeps(cfg, b, x, call.env);
      var loaded := Load(cfg, b, x, call.env);
      if loaded.out.err.None? {
        CommitKeeps(cfg, loaded.m, x, fn(loaded.out.value), call.env);
      }
  }

  lemma {:induction false} RunWitnessed<T(!new)>(cfg: Config<T>, m: Model<T>, script: seq<Call<T>>, e: Entity, since: Since)
    requires Inv(cfg, m) && Faithful(cfg) && ValidScript(script) && Witnessed(m, e, since)
    ensures Witnessed(Run(cfg, m, script), e, SinceOver(cfg, m, script, e, since))
    decreases |script|
  {
    if script != [] {
      OutputsHead(cfg, m, script);
      StepWitnessed(cfg, m, script[0], e, since);
      RunWitnessed(cfg, Step(cfg, m, script[0]).m, script[1..], e, SinceNext(cfg, m, script[0], e, since));
    }
  }

  /** What a resident value is, by what happened to it since it was last absent. */
  ghost predicate Lawful<T>(cfg: Config<T>, m: Model<T>, e: Entity, since: Since)
    requires e in m.cells
  {
    match since
    case Absent => false
    case Written => Stored(cfg, m.disk, e).Some? && m.cells[e].state == Stored(cfg, m.disk, e).value.0
    case Loaded(at) =>
      match Stored(cfg, m.disk, e)
      case None => Key(cfg.name, e) !in m.disk && m.cells[e].state == cfg.zero
      case Some((p, stamp)) => m.cells[e].state == if cfg.wake.None? then p else cfg.wake.value(e, at - stamp, p)
  }

  lemma WitnessedIsLawful<T>(cfg: Config<T>, m: Model<T>, e: Entity, since: Since)
    requires Inv(cfg, m) && e in m.cells && Witnessed(m, e, since)
    ensures Lawful(cfg, m, e, since)
  {
    assert CellLaw(cfg, m.disk, e, m.cells[e]);
  }

  /**
   * In every state reached from a freshly built store, whatever the backend
   * held: a resident that has been written is exactly what is stored; any other
   * is zero with nothing stored, or what is stored woken once, from its own
   * stamp to the moment it was last loaded. Evict and rehydrate cycles do not
   * compound.
   */
  lemma WakeLaw<T(!new)>(cfg: Config<T>, bound: nat, disk: map<string, Bytes>, script: seq<Call<T>>, e: Entity)
    requires Faithful(cfg) && bound >= 1 && ValidScript(script)
    requires e in Run(cfg, Model(bound, [], map[], disk, []), script).cells
    ensures var start := Model(bound, [], map[], disk, []);
            Lawful(cfg, Run(cfg, start, script), e, SinceOver(cfg, start, script, e, Absent))
  {
    var start := Model(bound, [], map[], disk, []);
    RunWitnessed(cfg, start, script, e, Absent);
    WitnessedIsLawful(cfg, Run(cfg, start, script), e, SinceOver(cfg, start, script, e, Absent));
  }

  // ---- the wake log ----

  /** The hook call a step must make, read off residency before and after: e was absent, is now resident, and was stored. */
  ghost function Owed<T(!new)>(cfg: Config<T>, m: Model<T>, call: Call<T>): seq<WakeCall<T>>
    requires Inv(cfg, m) && ValidCall(call)
  {
    var e := call.op.entity;
    if cfg.wake.Some? && e !in Before(m, call).cells && e in Step(cfg, m, call).m.cells && Stored(cfg, m.disk, e).Some?
    then [WakeCall(e, call.env.wakeAt - Stored(cfg, m.disk, e).value.1, Stored(cfg, m.disk, e).value.0)]
    else []
  }

  ghost function OwedOver<T(!new)>(cfg: Config<T>, m: Model<T>, script: seq<Call<T>>): seq<WakeCall<T>>
    requires Inv(cfg, m) && Faithful(cfg) && ValidScript(script)
    decreases |script|
  {
    if script == [] then [] else
      StepKeeps(cfg, m, script[0]);
      Owed(cfg, m, script[0]) + OwedOver(cfg, Step(cfg, m, script[0]).m, script[1..])
  }

  /** A load calls the hook exactly when it rehydrates a stored entity. */
  lemma LoadWakes<T>(cfg: Config<T>, m: Model<T>, e: Entity, env: Env)
    requires Inv(cfg, m)
    ensures var r := Load(cfg, m, e, env);
            r.m.wakes == m.wakes +
              if cfg.wake.Some? && e !in m.cells && e in r.m.cells && Stored(cfg, m.disk, e).Some?
              then [WakeCall(e, env.wakeAt - Stored(cfg, m.disk, e).value.1, Stored(cfg, m.disk, e).value.0)]
              else []
  {
    if e !in m.cells {
      LoadFromDisk(cfg, m, e, env);
    }
  }

  /** A call other than Delete wakes as its load does, and leaves e resident exactly when its load does. */
  lemma StepLoads<T(!new)>(cfg: Config<T>, m: Model<T>, call: Call<T>)
    requires Inv(cfg, m) && Faithful(cfg) && ValidCall(call) && !call.op.Delete?
    ensures var b, e := Before(m, call), call.op.entity;
            var loaded := Load(cfg, b, e, call.env);
            Step(cfg, m, call).m.wakes == loaded.m.wakes && (e in Step(cfg, m, call).m.cells <==> e in loaded.m.cells)
  {
    ReopenKeeps(cfg, m, call);
    var b, e := Before(m, call), call.op.entity;
    LoadKeeps(cfg, b, e, call.env);
    var loaded := Load(cfg, b, e, call.env);
    if call.op.Update? && loaded.out.err.None? {
      CommitKeeps(cfg, loaded.m, e, call.op.fn(loaded.out.value), call.env);
    }
  }

  lemma StepWakes<T(!new)>(cfg: Config<T>, m: Model<T>, call: Call<T>)
    requires Inv(cfg, m) && Faithful(cfg) && ValidCall(call)
    ensures Step(cfg, m, call).m.wakes == m.wakes + Owed(cfg, m, call)
  {
    ReopenKeeps(cfg, m, call);
    var b, e := Before(m, call), call.op.entity;
    if call.op.Delete? {
      DeleteKeeps(cfg, b, e, call.env);
    } else {
      StepLoads(cfg, m, call);
      LoadWakes(cfg, b, e, call.env);
    }
  }

  lemma OwedHead<T(!new)>(cfg: Config<T>, m: Model<T>, script: seq<Call<T>>, m': Model<T>)
    requires Inv(cfg, m) && Faithful(cfg) && ValidScript(script) && script != []
    requires Inv(cfg, m') && ValidScript(script[1..]) && m' == Step(cfg, m, script[0]).m
    ensures OwedOver(cfg, m, script) == Owed(cfg, m, script[0]) + OwedOver(cfg, m', script[1..])
  {
  }

  lemma Regroup<A>(a: seq<A>, b: seq<A>, c: seq<A>)
    ensures (a + b) + c == a + (b + c)
  {
  }

  /**
   * Over every run the hook is called once per rehydration of a stored entity,
   * with that entity's stored state and the interval since its stamp, and never
   * for a hit or a never-seen entity.
   */
  lemma {:induction false} WakeLogIsExact<T(!new)>(cfg: Config<T>, m: Model<T>, script: seq<Call<T>>)
    requires Inv(cfg, m) && Faithful(cfg) && ValidScript(script)
    ensures Run(cfg, m, script).wakes == m.wakes + OwedOver(cfg, m, script)
    decreases |script|
  {
    if script != [] {
      OutputsHead(cfg, m, script);
      var m' := Step(cfg, m, script[0]).m;
      StepWakes(cfg, m, script[0]);
      WakeLogIsExact(cfg, m', script[1..]);
      OwedHead(cfg, m, script, m');
      Regroup(m.wakes, Owed(cfg, m, script[0]), OwedOver(cfg, m', script[1..]));
    }
  }

  // ---- conservation of time ----

  /** One successful write: the interval its wake covered, if a wake fed it, then the caller's function. */
  datatype Turn<!T> = Turn(slept: Option<(Time, Time)>, fn: T -> T, stamp: Time)

  /** An entity's durable life since it was created or first found: a base state, its stamp, and the writes since. */
  datatype Journal<!T> = Journal(base: T, first: Time, turns: seq<Turn<T>>)

  /** The stamp before turn i. */
  ghost function Previous<T>(first: Time, turns: seq<Turn<T>>, i: nat): Time
    requires i <= |turns|
  {
    if i == 0 then first else turns[i - 1].stamp
  }

  ghost function Last<T>(first: Time, turns: seq<Turn<T>>): Time {
    Previous(first, turns, |turns|)
  }

  /** The durable state a journal accounts for: wake over the interval, then apply the function, write by write. */
  ghost function Replay<T>(cfg: Config<T>, e: Entity, base: T, turns: seq<Turn<T>>): T
    decreases |turns|
  {
    if turns == [] then base else
      var n := |turns| - 1;
      var v := Replay(cfg, e, base, turns[..n]);
      turns[n].fn(match turns[n].slept case None => v case Some((from, to)) => Woken(cfg, e, to - from, v))
  }

  /** Each interval starts at the previous stamp and ends by its own. */
  ghost predicate Chained<T>(first: Time, turns: seq<Turn<T>>) {
    forall i :: 0 <= i < |turns| ==>
      && Previous(first, turns, i) <= turns[i].stamp
      && (turns[i].slept.Some? ==>
            Previous(first, turns, i) == turns[i].slept.value.0 <= turns[i].slept.value.1 <= turns[i].stamp)
  }

  /** The time folded into the durable state by all the wakes of a journal. */
  ghost function TotalSlept<T>(turns: seq<Turn<T>>): int
    decreases |turns|
  {
    if turns == [] then 0 else
      var t := turns[|turns| - 1];
      TotalSlept(turns[..|turns| - 1]) + if t.slept.Some? then t.slept.value.1 - t.slept.value.0 else 0
  }

  /** The interval a write's wake covers: the resident value's own rehydration, or the one this call performs. */
  ghost function Covered<T>(cfg: Config<T>, b: Model<T>, e: Entity, env: Env): Option<(Time, Time)> {
    if Stored(cfg, b.disk, e).None? then None
    else
      var stamp := Stored(cfg, b.disk, e).value.1;
      if e !in b.cells then Some((stamp, env.wakeAt))
      else match b.cells[e].origin
           case Rehydrated(at) => Some((stamp, at))
           case _ => None
  }

  /** How one call moves the journal of e; None while nothing that decodes is stored for it. */
  ghost function JournalNext<T>(cfg: Config<T>, m: Model<T>, call: Call<T>, e: Entity, j: Option<Journal<T>>): Option<Journal<T>>
    requires Inv(cfg, m) && ValidCall(call)
  {
    if call.op.entity != e || Step(cfg, m, call).out.err.Some? then j
    else match call.op
         case Get(_) => j
         case Delete(_) => None
         case Update(_, fn) =>
           var turn := Turn(Covered(cfg, Before(m, call), e, call.env), fn, call.env.stampAt);
           match j
           case None => Some(Journal(cfg.zero, turn.stamp, [turn]))
           case Some(old_) => Some(old_.(turns := old_.turns + [turn]))
  }

  /** The journal accounts for exactly what is stored, its intervals are chained, and time has not run backwards. */
  ghost predicate Accounts<T>(cfg: Config<T>, m: Model<T>, e: Entity, j: Option<Journal<T>>, now: Time) {
    && (match j
        case None => Stored(cfg, m.disk, e).None?
        case Some(jj) =>
          && Stored(cfg, m.disk, e) == Some((Replay(cfg, e, jj.base, jj.turns), Last(jj.first, jj.turns)))
          && Chained(jj.first, jj.turns)
          && Last(jj.first, jj.turns) <= now)
    && (e in m.cells && m.cells[e].origin.Rehydrated? && Stored(cfg, m.disk, e).Some? ==>
          Stored(cfg, m.disk, e).value.1 <= m.cells[e].origin.at <= now)
  }

  lemma ChainedSnoc<T>(first: Time, turns: seq<Turn<T>>, turn: Turn<T>)
    requires Chained(first, turns)
    requires Last(first, turns) <= turn.stamp
    requires turn.slept.Some? ==> Last(first, turns) == turn.slept.value.0 <= turn.slept.value.1 <= turn.stamp
    ensures Chained(first, turns + [turn])
    ensures Last(first, turns + [turn]) == turn.stamp
  {
    var all := turns + [turn];
    forall i | 0 <= i < |all|
      ensures Previous(first, all, i) <= all[i].stamp
      ensures all[i].slept.Some? ==> Previous(first, all, i) == all[i].slept.value.0 <= all[i].slept.value.1 <= all[i].stamp
    {
      assert Previous(first, all, i) == Previous(first, turns, i);
      if i < |turns| {
        assert all[i] == turns[i];
      }
    }
  }

  /** What a successful load reads, in terms of what is stored and the interval it covers. */
  lemma LoadReads<T>(cfg: Config<T>, m: Model<T>, e: Entity, env: Env)
    requires Inv(cfg, m) && Load(cfg, m, e, env).out.err.None?
    ensures var v := Load(cfg, m, e, env).out.value;
            if Key(cfg.name, e) !in m.disk then v == cfg.zero && Covered(cfg, m, e, env).None?
            else
              && Stored(cfg, m.disk, e).Some?
              && var (p, stamp) := Stored(cfg, m.disk, e).value;
                 match Covered(cfg, m, e, env)
                 case None => v == p
                 case Some((from, to)) => from == stamp && v == Woken(cfg, e, to - from, p)
  {
    if e !in m.cells {
      LoadFromDisk(cfg, m, e, env);
    } else {
      assert CellLaw(cfg, m.disk, e, m.cells[e]);
    }
  }

  lemma ReplaySnoc<T>(cfg: Config<T>, e: Entity, base: T, turns: seq<Turn<T>>, turn: Turn<T>)
    ensures var v := Replay(cfg, e, base, turns);
            Replay(cfg, e, base, turns + [turn]) ==
              turn.fn(match turn.slept case None => v case Some((from, to)) => Woken(cfg, e, to - from, v))
  {
    assert (turns + [turn])[..|turns|] == turns;
  }

  /** The interval a write covers begins at the stamp that was stored. */
  lemma TurnChains<T>(cfg: Config<T>, m: Model<T>, e: Entity, fn: T -> T, env: Env, jj: Journal<T>, now: Time)
    requires Accounts(cfg, m, e, Some(jj), now) && now <= env.wakeAt <= env.stampAt
    requires Inv(cfg, m) && Load(cfg, m, e, env).out.err.None?
    ensures var turn := Turn(Covered(cfg, m, e, env), fn, env.stampAt);
            Chained(jj.first, jj.turns + [turn]) && Last(jj.first, jj.turns + [turn]) == env.stampAt
  {
    var turn := Turn(Covered(cfg, m, e, env), fn, env.stampAt);
    ChainedSnoc(jj.first, jj.turns, turn);
  }

  /** What a write leaves stored is its turn applied to what was stored, from the stamp that was stored. */
  lemma TurnReads<T>(cfg: Config<T>, m: Model<T>, e: Entity, fn: T -> T, env: Env, jj: Journal<T>, now: Time)
    requires Accounts(cfg, m, e, Some(jj), now)
    requires Inv(cfg, m) && Load(cfg, m, e, env).out.err.None?
    ensures var turn := Turn(Covered(cfg, m, e, env), fn, env.stampAt);
            fn(Load(cfg, m, e, env).out.value) == Replay(cfg, e, jj.base, jj.turns + [turn])
  {
    LoadReads(cfg, m, e, env);
    ReplaySnoc(cfg, e, jj.base, jj.turns, Turn(Covered(cfg, m, e, env), fn, env.stampAt));
  }

  /** A first write begins the journal from the zero state. */
  lemma FirstTurn<T>(cfg: Config<T>, m: Model<T>, e: Entity, fn: T -> T, env: Env)
    requires Inv(cfg, m) && Load(cfg, m, e, env).out.err.None? && Key(cfg.name, e) !in m.disk
    ensures var turn := Turn(Covered(cfg, m, e, env), fn, env.stampAt);
            && fn(Load(cfg, m, e, env).out.value) == Replay(cfg, e, cfg.zero, [turn])
            && Chained(env.stampAt, [turn]) && Last(env.stampAt, [turn]) == env.stampAt
  {
    LoadReads(cfg, m, e, env);
    var turn := Turn(Covered(cfg, m, e, env), fn, env.stampAt);
    ReplaySnoc(cfg, e, cfg.zero, [], turn);
    ChainedSnoc(env.stampAt, [], turn);
    assert [] + [turn] == [turn];
  }

  /** A write appends its turn to the journal. */
  lemma TurnAccounts<T>(cfg: Config<T>, m: Model<T>, m': Model<T>, e: Entity, fn: T -> T, env: Env, j: Option<Journal<T>>, now: Time)
    requires Accounts(cfg, m, e, j, now) && now <= env.wakeAt <= env.stampAt
    requires Inv(cfg, m) && Load(cfg, m, e, env).out.err.None?
    requires Stored(cfg, m'.disk, e) == Some((fn(Load(cfg, m, e, env).out.value), env.stampAt))
    requires e in m'.cells && m'.cells[e].origin.Persisted?
    ensures var turn := Turn(Covered(cfg, m, e, env), fn, env.stampAt);
            Accounts(cfg, m', e,
                     if j.None? then Some(Journal(cfg.zero, turn.stamp, [turn])) else Some(j.value.(turns := j.value.turns + [turn])),
                     env.stampAt)
  {
    match j
    case None =>
      LoadFailsIff(cfg, m, e, env);
      FirstTurn(cfg, m, e, fn, env);
    case Some(jj) =>
      TurnChains(cfg, m, e, fn, env, jj, now);
      TurnReads(cfg, m, e, fn, env, jj, now);
  }

  lemma UpdateAccounts<T(!new)>(cfg: Config<T>, m: Model<T>, e: Entity, fn: T -> T, env: Env, j: Option<Journal<T>>, now: Time)
    requires Inv(cfg, m) && Faithful(cfg) && Accounts(cfg, m, e, j, now) && now <= env.wakeAt <= env.stampAt
    ensures var call := Call(None, Update(e, fn), env);
            Accounts(cfg, Step(cfg, m, call).m, e, JournalNext(cfg, m, call, e, j), env.stampAt)
  {
    LoadKeeps(cfg, m, e, env);
    var loaded := Load(cfg, m, e, env);
    if e !in m.cells {
      LoadFromDisk(cfg, m, e, env);
    }
    if loaded.out.err.None? {
      CommitKeeps(cfg, loaded.m, e, fn(loaded.out.value), env);
      var r := Commit(cfg, loaded.m, e, fn(loaded.out.value), env);
      if r.out.err.None? {
        TurnAccounts(cfg, m, r.m, e, fn, env, j, now);
      }
    }
  }

  lemma GetAccounts<T>(cfg: Config<T>, m: Model<T>, x: Entity, env: Env, e: Entity, j: Option<Journal<T>>, now: Time)
    requires Inv(cfg, m) && Accounts(cfg, m, e, j, now) && now <= env.wakeAt <= env.stampAt
    ensures Accounts(cfg, Load(cfg, m, x, env).m, e, j, env.stampAt)
  {
    LoadKeeps(cfg, m, x, env);
    if x !in m.cells {
      LoadFromDisk(cfg, m, x, env);
    }
  }

  lemma StepAccounts<T(!new)>(cfg: Config<T>, m: Model<T>, call: Call<T>, e: Entity, j: Option<Journal<T>>, now: Time)
    requires Inv(cfg, m) && Faithful(cfg) && ValidCall(call)
    requires Accounts(cfg, m, e, j, now) && now <= call.env.wakeAt <= call.env.stampAt
    ensures Accounts(cfg, Step(cfg, m, call).m, e, JournalNext(cfg, m, call, e, j), call.env.stampAt)
  {
    ReopenKeeps(cfg, m, call);
    var b := Before(m, call);
    var x := call.op.entity;
    match call.op
    case Get(_) =>
      GetAccounts(cfg, b, x, call.env, e, j, now);
    case Delete(_) =>
      DeleteKeeps(cfg, b, x, call.env);
    case Update(_, fn) =>
      if x == e {
        UpdateAccounts(cfg, b, e, fn, call.env, j, now);
      } else {
        LoadKeeps(cfg, b, x, call.env);
        var loaded := Load(cfg, b, x, call.env);
        if loaded.out.err.None? {
          CommitKeeps(cfg, loaded.m, x, fn(loaded.out.value), call.env);
        }
      }
  }

  /** The clock never runs backwards over a script. */
  ghost predicate Ticks<T>(now: Time, script: seq<Call<T>>)
    decreases |script|
  {
    script == [] || (now <= script[0].env.wakeAt <= script[0].env.stampAt && Ticks(script[0].env.stampAt, script[1..]))
  }

  ghost function Ends<T>(now: Time, script: seq<Call<T>>): Time
    decreases |script|
  {
    if script == [] then now else Ends(script[0].env.stampAt, script[1..])
  }

  ghost function JournalOver<T(!new)>(cfg: Config<T>, m: Model<T>, script: seq<Call<T>>, e: Entity, j: Option<Journal<T>>): Option<Journal<T>>
    requires Inv(cfg, m) && Faithful(cfg) && ValidScript(script)
    decreases |script|
  {
    if script == [] then j else
      StepKeeps(cfg, m, script[0]);
      JournalOver(cfg, Step(cfg, m, script[0]).m, script[1..], e, JournalNext(cfg, m, script[0], e, j))
  }

  /** Over every run with a clock that does not run backwards, the journal accounts for what is stored. */
  lemma {:induction false} JournalAccounts<T(!new)>(cfg: Config<T>, m: Model<T>, script: seq<Call<T>>, e: Entity, j: Option<Journal<T>>, now: Time)
    requires Inv(cfg, m) && Faithful(cfg) && ValidScript(script) && Ticks(now, script)
    requires Accounts(cfg, m, e, j, now)
    ensures Accounts(cfg, Run(cfg, m, script), e, JournalOver(cfg, m, script, e, j), Ends(now, script))
    decreases |script|
  {
    if script != [] {
      OutputsHead(cfg, m, script);
      StepAccounts(cfg, m, script[0], e, j, now);
      JournalAccounts(cfg, Step(cfg, m, script[0]).m, script[1..], e, JournalNext(cfg, m, script[0], e, j), script[0].env.stampAt);
    }
  }

  lemma {:induction false} StampsGrow<T>(first: Time, turns: seq<Turn<T>>, i: nat, k: nat)
    requires Chained(first, turns) && i <= k < |turns|
    ensures turns[i].stamp <= turns[k].stamp
    decreases k
  {
    if i < k {
      StampsGrow(first, turns, i, k - 1);
      assert Previous(first, turns, k) == turns[k - 1].stamp;
    }
  }

  lemma {:induction false} ChainedBounds<T>(first: Time, turns: seq<Turn<T>>)
    requires Chained(first, turns)
    ensures 0 <= TotalSlept(turns) <= Last(first, turns) - first
    decreases |turns|
  {
    if turns != [] {
      var n := |turns| - 1;
      var shorter := turns[..n];
      assert forall i :: 0 <= i <= n ==> Previous(first, shorter, i) == Previous(first, turns, i);
      ChainedBounds(first, shorter);
    }
  }

  ghost predicate PairwiseDisjoint<T>(turns: seq<Turn<T>>) {
    forall i, k :: 0 <= i < k < |turns| && turns[i].slept.Some? && turns[k].slept.Some? ==>
      turns[i].slept.value.1 <= turns[k].slept.value.0
  }

  lemma ChainedDisjoint<T>(first: Time, turns: seq<Turn<T>>)
    requires Chained(first, turns)
    ensures PairwiseDisjoint(turns)
  {
    forall i, k | 0 <= i < k < |turns| && turns[i].slept.Some? && turns[k].slept.Some?
      ensures turns[i].slept.value.1 <= turns[k].slept.value.0
    {
      StampsGrow(first, turns, i, k - 1);
      assert Previous(first, turns, k) == turns[k - 1].stamp;
    }
  }

  lemma {:induction false} RunGarbled<T(!new)>(cfg: Config<T>, m: Model<T>, script: seq<Call<T>>, e: Entity)
    requires Inv(cfg, m) && Faithful(cfg) && ValidScript(script)
    ensures Garbled(cfg, Run(cfg, m, script).disk, e) ==> Garbled(cfg, m.disk, e)
    decreases |script|
  {
    if script != [] {
      OutputsHead(cfg, m, script);
      StepGarbled(cfg, m, script[0]);
      RunGarbled(cfg, Step(cfg, m, script[0]).m, script[1..], e);
    }
  }

  /**
   * Conservation of time: whatever the evictions, failures and rebuilds, an
   * entity's durable state is the replay of its writes, the intervals its wakes
   * folded in are pairwise disjoint, and together they never exceed the time
   * between its first and its current stamp. Without a journal nothing is stored
   * for it, except bytes that did not decode from the start.
   */
  lemma TimeIsConserved<T(!new)>(cfg: Config<T>, m: Model<T>, script: seq<Call<T>>, e: Entity, j: Option<Journal<T>>, now: Time)
    requires Inv(cfg, m) && Faithful(cfg) && ValidScript(script) && Ticks(now, script)
    requires Accounts(cfg, m, e, j, now)
    ensures match JournalOver(cfg, m, script, e, j)
            case None => Stored(cfg, Run(cfg, m, script).disk, e).None?
            case Some(jj) =>
              && Stored(cfg, Run(cfg, m, script).disk, e) == Some((Replay(cfg, e, jj.base, jj.turns), Last(jj.first, jj.turns)))
              && 0 <= TotalSlept(jj.turns) <= Last(jj.first, jj.turns) - jj.first
              && PairwiseDisjoint(jj.turns)
    ensures Garbled(cfg, Run(cfg, m, script).disk, e) ==> Garbled(cfg, m.disk, e)
  {
    RunGarbled(cfg, m, script, e);
    JournalAccounts(cfg, m, script, e, j, now);
    match JournalOver(cfg, m, script, e, j)
    case None =>
    case Some(jj) =>
      ChainedBounds(jj.first, jj.turns);
      ChainedDisjoint(jj.first, jj.turns);
  }

  /** The journal of an entity when a store is first built over a backend: what was found, at its stamp, if it decodes. */
  ghost function JournalFound<T(!new)>(cfg: Config<T>, disk: map<string, Bytes>, e: Entity): Option<Journal<T>> {
    match Stored(cfg, disk, e)
    case None => None
    case Some((p, stamp)) => Some(Journal(p, stamp, []))
  }

  lemma JournalStarts<T(!new)>(cfg: Config<T>, bound: nat, disk: map<string, Bytes>, e: Entity, now: Time)
    requires Stored(cfg, disk, e).Some? ==> Stored(cfg, disk, e).value.1 <= now
    ensures Accounts(cfg, Model(bound, [], map[], disk, []), e, JournalFound(cfg, disk, e), now)
  {
  }
}
