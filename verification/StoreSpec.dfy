// The write-through LRU store of persist/store.go as a pure transition system:
// one function per operation, one Env per call for the clock and the backend's
// health. The class in Store.dfy is proved against these functions, and every
// theorem about runs is proved over them.
module StoreSpec {
  import opened Wrappers

  type Bytes = seq<bv8>
  type Time = int

  datatype Envelope = Envelope(state: Bytes, lastActive: Time)

  /** What a codec hands back: a value, and whether it decoded cleanly. */
  datatype Decoded<+T> = Decoded(value: T, ok: bool)

  /** The fixed parts of a store: its name, the zero state, the wake hook and the two codecs. */
  datatype Config<!T> = Config(
    name: string,
    zero: T,
    wake: Option<(Entity, int, T) -> T>,
    marshal: T -> Option<Bytes>,
    unmarshal: Bytes -> Decoded<T>,
    seal: Envelope -> Option<Bytes>,
    open: Bytes -> Option<Envelope>)

  /** Decoding undoes encoding, for states and for envelopes. */
  ghost predicate Faithful<T(!new)>(cfg: Config<T>) {
    && (forall x: T :: cfg.marshal(x).Some? ==> cfg.unmarshal(cfg.marshal(x).value) == Decoded(x, true))
    && (forall v: Envelope :: cfg.seal(v).Some? ==> cfg.open(cfg.seal(v).value) == Some(v))
  }

  /** Where a resident value came from: history only, the store does not keep it. */
  datatype Origin = NeverSeen | Persisted | Rehydrated(at: Time)

  datatype Cell<+T> = Cell(state: T, origin: Origin)

  /** One invocation of the user's wake hook. */
  datatype WakeCall<+T> = WakeCall(entity: Entity, elapsed: int, state: T)

  /**
   * order is the recency list, hottest first; cells the resident map; disk the
   * backend; wakes the history of wake-hook invocations.
   */
  datatype Model<+T> = Model(
    bound: nat, order: seq<Entity>, cells: map<Entity, Cell<T>>,
    disk: map<string, Bytes>, wakes: seq<WakeCall<T>>)

  datatype Error = BackendDown | BadEnvelope | BadState | MarshalFailed | SealFailed

  /** A Go result pair: the value is present even when there is an error. */
  datatype Outcome<+T> = Outcome(value: T, err: Option<Error>)

  /** The environment of one call: is the backend up for reads and for writes, and the two clock readings. */
  datatype Env = Env(readUp: bool, writeUp: bool, wakeAt: Time, stampAt: Time)

  datatype Op<!T> = Get(entity: Entity) | Update(entity: Entity, fn: T -> T) | Delete(entity: Entity)

  /** A call, optionally preceded by throwing the store away and building a new one with some bound. */
  datatype Call<!T> = Call(rebuild: Option<nat>, op: Op<T>, env: Env)

  datatype Result<+T> = Result(m: Model<T>, out: Outcome<T>)

  function Key(name: string, entity: Entity): string {
    name + "." + entity
  }

  // ---- the recency list ----

  ghost predicate Distinct<A(!new)>(s: seq<A>) {
    forall i, j :: 0 <= i < j < |s| ==> s[i] != s[j]
  }

  function Without(s: seq<Entity>, e: Entity): seq<Entity> {
    if s == [] then [] else (if s[0] == e then [] else [s[0]]) + Without(s[1..], e)
  }

  function ToFront(s: seq<Entity>, e: Entity): seq<Entity> {
    [e] + Without(s, e)
  }

  function Take<A>(s: seq<A>, n: nat): seq<A> {
    if |s| <= n then s else s[..n]
  }

  // ---- operations ----

  /** Drops the coldest entries until no more than n are left. */
  function Trim<T>(m: Model<T>, n: nat): (t: Model<T>)
    ensures t == m.(order := Take(m.order, n), cells := t.cells)
    decreases |m.order|
  {
    if |m.order| <= n then m
    else
      var last := |m.order| - 1;
      Trim(m.(order := m.order[..last], cells := m.cells - {m.order[last]}), n)
  }

  function Push<T>(m: Model<T>, e: Entity, c: Cell<T>): Model<T> {
    m.(order := [e] + m.order, cells := m.cells[e := c])
  }

  /** Adds a resident entry, dropping the coldest entries that do not fit beside it. */
  function Insert<T>(m: Model<T>, e: Entity, c: Cell<T>): Model<T>
    requires m.bound >= 1
  {
    Push(Trim(m, m.bound - 1), e, c)
  }

  function Woken<T>(cfg: Config<T>, e: Entity, elapsed: int, state: T): T {
    match cfg.wake
    case None => state
    case Some(w) => w(e, elapsed, state)
  }

  function LogWake<T>(cfg: Config<T>, m: Model<T>, w: WakeCall<T>): Model<T> {
    if cfg.wake.Some? then m.(wakes := m.wakes + [w]) else m
  }

  /** getLocked: resident hit, rehydration, or zero for a never-seen entity. */
  function Load<T>(cfg: Config<T>, m: Model<T>, e: Entity, env: Env): Result<T>
    requires m.bound >= 1
  {
    if e in m.cells then
      Result(m.(order := ToFront(m.order, e)), Outcome(m.cells[e].state, None))
    else if !env.readUp then
      Result(m, Outcome(cfg.zero, Some(BackendDown)))
    else if Key(cfg.name, e) !in m.disk then
      Result(Insert(m, e, Cell(cfg.zero, NeverSeen)), Outcome(cfg.zero, None))
    else
      match cfg.open(m.disk[Key(cfg.name, e)])
      case None => Result(m, Outcome(cfg.zero, Some(BadEnvelope)))
      case Some(v) =>
        var d := cfg.unmarshal(v.state);
        if !d.ok then
          Result(m, Outcome(d.value, Some(BadState)))
        else
          var elapsed := env.wakeAt - v.lastActive;
          var state := Woken(cfg, e, elapsed, d.value);
          Result(Insert(LogWake(cfg, m, WakeCall(e, elapsed, d.value)), e, Cell(state, Rehydrated(env.wakeAt))),
                 Outcome(state, None))
  }

  /** The durable half of Update: encode, stamp, put; then reflect it in residency. */
  function Commit<T>(cfg: Config<T>, m: Model<T>, e: Entity, next: T, env: Env): Result<T>
    requires m.bound >= 1
  {
    match cfg.marshal(next)
    case None => Result(m, Outcome(next, Some(MarshalFailed)))
    case Some(raw) =>
      match cfg.seal(Envelope(raw, env.stampAt))
      case None => Result(m, Outcome(next, Some(SealFailed)))
      case Some(sealed) =>
        if !env.writeUp then
          Result(m, Outcome(next, Some(BackendDown)))
        else
          var m' := m.(disk := m.disk[Key(cfg.name, e) := sealed]);
          if e in m.cells then
            Result(m'.(order := ToFront(m.order, e), cells := m.cells[e := Cell(next, Persisted)]), Outcome(next, None))
          else
            Result(Insert(m', e, Cell(next, Persisted)), Outcome(next, None))
  }

  function DoUpdate<T>(cfg: Config<T>, m: Model<T>, e: Entity, fn: T -> T, env: Env): Result<T>
    requires m.bound >= 1
  {
    var loaded := Load(cfg, m, e, env);
    if loaded.out.err.Some? then loaded else Commit(cfg, loaded.m, e, fn(loaded.out.value), env)
  }

  function DoDelete<T>(cfg: Config<T>, m: Model<T>, e: Entity, env: Env): Result<T> {
    if !env.writeUp then
      Result(m, Outcome(cfg.zero, Some(BackendDown)))
    else
      Result(m.(disk := m.disk - {Key(cfg.name, e)}, order := Without(m.order, e), cells := m.cells - {e}),
             Outcome(cfg.zero, None))
  }

  /** A new store over the same backend: nothing resident. */
  function Reopen<T>(m: Model<T>, bound: nat): Model<T> {
    m.(bound := bound, order := [], cells := map[])
  }

  // ---- runs ----

  ghost predicate ValidCall<T>(call: Call<T>) {
    call.rebuild.Some? ==> call.rebuild.value >= 1
  }

  function Before<T>(m: Model<T>, call: Call<T>): Model<T> {
    if call.rebuild.Some? then Reopen(m, call.rebuild.value) else m
  }

  function Step<T>(cfg: Config<T>, m: Model<T>, call: Call<T>): Result<T>
    requires m.bound >= 1 && ValidCall(call)
  {
    var b := Before(m, call);
    match call.op
    case Get(e) => Load(cfg, b, e, call.env)
    case Update(e, fn) => DoUpdate(cfg, b, e, fn, call.env)
    case Delete(e) => DoDelete(cfg, b, e, call.env)
  }

  ghost predicate ValidScript<T>(script: seq<Call<T>>) {
    forall i :: 0 <= i < |script| ==> ValidCall(script[i])
  }

  // ---- the store invariant ----

  /** The state and stamp the backend holds for e, if it holds one that decodes. */
  function Stored<T>(cfg: Config<T>, disk: map<string, Bytes>, e: Entity): Option<(T, Time)> {
    if Key(cfg.name, e) !in disk then None
    else
      match cfg.open(disk[Key(cfg.name, e)])
      case None => None
      case Some(v) => var d := cfg.unmarshal(v.state); if d.ok then Some((d.value, v.lastActive)) else None
  }

  /**
   * What a resident value may be: zero with nothing on the backend, exactly the
   * persisted state, or the persisted state woken once, from its own stamp to
   * the moment of this rehydration.
   */
  ghost predicate CellLaw<T>(cfg: Config<T>, disk: map<string, Bytes>, e: Entity, c: Cell<T>) {
    match c.origin
    case NeverSeen => Key(cfg.name, e) !in disk && c.state == cfg.zero
    case Persisted => Stored(cfg, disk, e).Some? && Stored(cfg, disk, e).value.0 == c.state
    case Rehydrated(at) =>
      && Stored(cfg, disk, e).Some?
      && var (p, stamp) := Stored(cfg, disk, e).value;
         c.state == Woken(cfg, e, at - stamp, p)
  }

  /** Map and list hold the same distinct entities, at most bound many. */
  ghost predicate InStep<T>(m: Model<T>) {
    && 1 <= m.bound
    && |m.order| <= m.bound
    && Distinct(m.order)
    && (forall e :: e in m.order <==> e in m.cells)
  }

  ghost predicate Inv<T>(cfg: Config<T>, m: Model<T>) {
    InStep(m) && forall e :: e in m.cells ==> CellLaw(cfg, m.disk, e, m.cells[e])
  }

  // ---- list lemmas ----

  lemma {:induction false} WithoutMembers(s: seq<Entity>, e: Entity)
    ensures forall x :: x in Without(s, e) <==> x in s && x != e
    ensures |Without(s, e)| <= |s|
    ensures e in s ==> |Without(s, e)| < |s|
    ensures e !in s ==> Without(s, e) == s
  {
    if s != [] {
      WithoutMembers(s[1..], e);
      assert s == [s[0]] + s[1..];
    }
  }

  lemma {:induction false} WithoutDistinct(s: seq<Entity>, e: Entity)
    requires Distinct(s)
    ensures Distinct(Without(s, e))
  {
    if s != [] {
      WithoutDistinct(s[1..], e);
      WithoutMembers(s[1..], e);
      DistinctCons(if s[0] == e then [] else [s[0]], Without(s[1..], e));
    }
  }

  lemma DistinctCons(head: seq<Entity>, tail: seq<Entity>)
    requires |head| <= 1 && Distinct(tail) && (head != [] ==> head[0] !in tail)
    ensures Distinct(head + tail)
  {
    if head == [] {
      assert head + tail == tail;
    }
  }

  lemma {:induction false} WithoutSplit(front: seq<Entity>, e: Entity, back: seq<Entity>)
    requires e !in front && e !in back
    ensures Without(front + [e] + back, e) == front + back
  {
    if front == [] {
      WithoutMembers(back, e);
      assert ([e] + back)[1..] == back;
      assert front + [e] + back == [e] + back;
    } else {
      WithoutSplit(front[1..], e, back);
      assert (front + [e] + back)[1..] == front[1..] + [e] + back;
    }
  }

  /** In a list without repetitions, removing by value is removing one position. */
  lemma WithoutAt(s: seq<Entity>, i: nat)
    requires i < |s| && Distinct(s)
    ensures Without(s, s[i]) == s[..i] + s[i + 1..]
  {
    assert s[i] !in s[..i];
    assert s[i] !in s[i + 1..];
    assert s == s[..i] + [s[i]] + s[i + 1..];
    WithoutSplit(s[..i], s[i], s[i + 1..]);
  }

  /** Moving to the front keeps a list free of repetitions and adds at most the entity moved. */
  lemma ToFrontKeeps(s: seq<Entity>, e: Entity)
    requires Distinct(s)
    ensures Distinct(ToFront(s, e))
    ensures forall x :: x in ToFront(s, e) <==> x == e || x in s
    ensures |ToFront(s, e)| <= |s| + 1
    ensures e in s ==> |ToFront(s, e)| <= |s|
  {
    WithoutMembers(s, e);
    WithoutDistinct(s, e);
    DistinctCons([e], Without(s, e));
  }

  lemma KeyInjective(name: string, a: Entity, b: Entity)
    requires Key(name, a) == Key(name, b)
    ensures a == b
  {
    assert Key(name, a)[|name| + 1..] == a;
    assert Key(name, b)[|name| + 1..] == b;
  }

  /** Keys of distinct entities never meet, so writing one leaves what is stored for the others. */
  lemma StoredElsewhere<T>(cfg: Config<T>, disk: map<string, Bytes>, disk': map<string, Bytes>, e: Entity)
    requires forall k :: k != Key(cfg.name, e) ==> (k in disk <==> k in disk')
    requires forall k :: k != Key(cfg.name, e) && k in disk ==> disk[k] == disk'[k]
    ensures forall x :: x != e ==> (Key(cfg.name, x) in disk <==> Key(cfg.name, x) in disk')
    ensures forall x :: x != e ==> Stored(cfg, disk, x) == Stored(cfg, disk', x)
  {
    forall x | x != e
      ensures (Key(cfg.name, x) in disk <==> Key(cfg.name, x) in disk') && Stored(cfg, disk, x) == Stored(cfg, disk', x)
    {
      if Key(cfg.name, x) == Key(cfg.name, e) {
        KeyInjective(cfg.name, x, e);
      }
    }
  }

  // ---- what one call keeps ----

  lemma ReopenKeeps<T>(cfg: Config<T>, m: Model<T>, call: Call<T>)
    requires Inv(cfg, m) && ValidCall(call)
    ensures Inv(cfg, Before(m, call)) && Before(m, call).disk == m.disk && Before(m, call).wakes == m.wakes
  {
  }

  lemma DropLastKeeps<T>(m: Model<T>)
    requires InStep(m) && m.order != []
    ensures var last := |m.order| - 1;
            InStep(m.(order := m.order[..last], cells := m.cells - {m.order[last]}))
  {
    var last := |m.order| - 1;
    assert m.order == m.order[..last] + [m.order[last]];
  }

  /** What is left in the list is what is left in the map, with its value. */
  lemma {:induction false} TrimKeeps<T>(m: Model<T>, n: nat)
    requires InStep(m)
    ensures InStep(Trim(m, n)) && |Trim(m, n).order| <= n
    ensures forall e :: e in Trim(m, n).cells ==> e in m.cells && Trim(m, n).cells[e] == m.cells[e]
    decreases |m.order|
  {
    if |m.order| > n {
      DropLastKeeps(m);
      var last := |m.order| - 1;
      TrimKeeps(m.(order := m.order[..last], cells := m.cells - {m.order[last]}), n);
    }
  }

  lemma InsertOrder<T>(m: Model<T>, e: Entity, c: Cell<T>)
    requires m.bound >= 1 && e !in m.order
    ensures Insert(m, e, c).order == Take(ToFront(m.order, e), m.bound)
  {
    WithoutMembers(m.order, e);
  }

  lemma PushKeeps<T>(m: Model<T>, e: Entity, c: Cell<T>)
    requires InStep(m) && |m.order| < m.bound && e !in m.cells
    ensures InStep(Push(m, e, c))
  {
    DistinctCons([e], m.order);
  }

  lemma InsertKeeps<T>(cfg: Config<T>, m: Model<T>, e: Entity, c: Cell<T>)
    requires Inv(cfg, m) && e !in m.cells && CellLaw(cfg, m.disk, e, c)
    ensures Inv(cfg, Insert(m, e, c))
    ensures Insert(m, e, c).order == Take(ToFront(m.order, e), m.bound)
    ensures forall k :: k in Insert(m, e, c).cells && k != e ==> k in m.cells && Insert(m, e, c).cells[k] == m.cells[k]
  {
    var t, ins := Trim(m, m.bound - 1), Insert(m, e, c);
    InsertOrder(m, e, c);
    TrimKeeps(m, m.bound - 1);
    PushKeeps(t, e, c);
    forall k | k in ins.cells
      ensures CellLaw(cfg, m.disk, k, ins.cells[k])
    {
      assert k != e ==> CellLaw(cfg, m.disk, k, m.cells[k]);
    }
  }

  lemma TouchKeeps<T>(cfg: Config<T>, m: Model<T>, e: Entity)
    requires Inv(cfg, m) && e in m.cells
    ensures Inv(cfg, m.(order := ToFront(m.order, e)))
    ensures ToFront(m.order, e) == Take(ToFront(m.order, e), m.bound)
  {
    ToFrontKeeps(m.order, e);
    assert e in m.order;
  }

  ghost predicate LoadPost<T>(cfg: Config<T>, m: Model<T>, e: Entity, r: Result<T>) {
    && Inv(cfg, r.m)
    && r.m.disk == m.disk && r.m.bound == m.bound
    && (r.out.err.Some? ==> r.m == m)
    && (r.out.err.None? ==>
          && e in r.m.cells && r.m.cells[e].state == r.out.value
          && r.m.order == Take(ToFront(m.order, e), m.bound))
    && (forall k :: k in r.m.cells && k != e ==> k in m.cells && r.m.cells[k] == m.cells[k])
  }

  lemma InsertPost<T>(cfg: Config<T>, m: Model<T>, e: Entity, c: Cell<T>)
    requires Inv(cfg, m) && e !in m.cells && CellLaw(cfg, m.disk, e, c)
    ensures LoadPost(cfg, m, e, Result(Insert(m, e, c), Outcome(c.state, None)))
  {
    InsertKeeps(cfg, m, e, c);
  }

  lemma HitPost<T>(cfg: Config<T>, m: Model<T>, e: Entity)
    requires Inv(cfg, m) && e in m.cells
    ensures LoadPost(cfg, m, e, Result(m.(order := ToFront(m.order, e)), Outcome(m.cells[e].state, None)))
  {
    TouchKeeps(cfg, m, e);
  }

  /** The shape of a load from the backend, in terms of what is stored. */
  lemma LoadFromDisk<T>(cfg: Config<T>, m: Model<T>, e: Entity, env: Env)
    requires m.bound >= 1 && e !in m.cells
    ensures var r := Load(cfg, m, e, env);
            if r.out.err.Some? then r.m == m
            else if Key(cfg.name, e) !in m.disk then
              r == Result(Insert(m, e, Cell(cfg.zero, NeverSeen)), Outcome(cfg.zero, None))
            else
              && Stored(cfg, m.disk, e).Some?
              && var (p, stamp) := Stored(cfg, m.disk, e).value;
                 var state := Woken(cfg, e, env.wakeAt - stamp, p);
                 r == Result(Insert(LogWake(cfg, m, WakeCall(e, env.wakeAt - stamp, p)), e, Cell(state, Rehydrated(env.wakeAt))),
                             Outcome(state, None))
  {
  }

  /** Inserting after the hook was called, or was not. */
  lemma LoggedPost<T>(cfg: Config<T>, m: Model<T>, logged: Model<T>, e: Entity, c: Cell<T>, r: Result<T>)
    requires Inv(cfg, m) && e !in m.cells && CellLaw(cfg, m.disk, e, c) && logged == m.(wakes := logged.wakes)
    requires r == Result(Insert(logged, e, c), Outcome(c.state, None))
    ensures LoadPost(cfg, m, e, r)
  {
    InsertPost(cfg, logged, e, c);
  }

  /** A load keeps the invariant, never writes, and on success leaves e resident with the value it returns. */
  lemma LoadKeeps<T>(cfg: Config<T>, m: Model<T>, e: Entity, env: Env)
    requires Inv(cfg, m)
    ensures LoadPost(cfg, m, e, Load(cfg, m, e, env))
  {
    if e in m.cells {
      HitPost(cfg, m, e);
    } else {
      LoadFromDisk(cfg, m, e, env);
      var r := Load(cfg, m, e, env);
      if r.out.err.None? {
        if Key(cfg.name, e) !in m.disk {
          LoggedPost(cfg, m, m, e, Cell(cfg.zero, NeverSeen), r);
        } else {
          var (p, stamp) := Stored(cfg, m.disk, e).value;
          var logged := LogWake(cfg, m, WakeCall(e, env.wakeAt - stamp, p));
          LoggedPost(cfg, m, logged, e, Cell(Woken(cfg, e, env.wakeAt - stamp, p), Rehydrated(env.wakeAt)), r);
        }
      }
    }
  }

  /** The backend after a successful Put holds the new state under the new stamp, and the rest as before. */
  lemma PutStores<T(!new)>(cfg: Config<T>, disk: map<string, Bytes>, e: Entity, next: T, at: Time)
    requires Faithful(cfg) && cfg.marshal(next).Some? && cfg.seal(Envelope(cfg.marshal(next).value, at)).Some?
    ensures var disk' := disk[Key(cfg.name, e) := cfg.seal(Envelope(cfg.marshal(next).value, at)).value];
            && Stored(cfg, disk', e) == Some((next, at))
            && (forall x :: x != e ==> Stored(cfg, disk', x) == Stored(cfg, disk, x))
            && (forall x :: x != e ==> (Key(cfg.name, x) in disk' <==> Key(cfg.name, x) in disk))
  {
    var v := Envelope(cfg.marshal(next).value, at);
    assert cfg.open(cfg.seal(v).value) == Some(v);
    StoredElsewhere(cfg, disk, disk[Key(cfg.name, e) := cfg.seal(v).value], e);
  }

  ghost predicate CommitPost<T>(cfg: Config<T>, m: Model<T>, e: Entity, next: T, env: Env, r: Result<T>) {
    && Inv(cfg, r.m) && r.out.value == next && r.m.wakes == m.wakes && r.m.bound == m.bound
    && (r.out.err.Some? ==> r.m == m)
    && (r.out.err.None? ==>
          && r.m.order == ToFront(m.order, e)
          && r.m.cells == m.cells[e := Cell(next, Persisted)]
          && Stored(cfg, r.m.disk, e) == Some((next, env.stampAt))
          && (forall x :: x != e ==> Stored(cfg, r.m.disk, x) == Stored(cfg, m.disk, x))
          && (forall x :: x != e ==> (Key(cfg.name, x) in r.m.disk <==> Key(cfg.name, x) in m.disk)))
  }

  lemma CommitKeepsCells<T>(cfg: Config<T>, m: Model<T>, m': Model<T>, e: Entity, next: T)
    requires forall k :: k in m.cells ==> CellLaw(cfg, m.disk, k, m.cells[k])
    requires m'.cells == m.cells[e := Cell(next, Persisted)]
    requires Stored(cfg, m'.disk, e).Some? && Stored(cfg, m'.disk, e).value.0 == next
    requires forall x :: x != e ==> Stored(cfg, m'.disk, x) == Stored(cfg, m.disk, x)
    requires forall x :: x != e ==> (Key(cfg.name, x) in m'.disk <==> Key(cfg.name, x) in m.disk)
    ensures forall k :: k in m'.cells ==> CellLaw(cfg, m'.disk, k, m'.cells[k])
  {
    forall k | k in m'.cells
      ensures CellLaw(cfg, m'.disk, k, m'.cells[k])
    {
      assert k != e ==> CellLaw(cfg, m.disk, k, m.cells[k]);
    }
  }

  /** Update's durable half: on failure nothing moves, on success the backend and the resident value agree. */
  lemma CommitKeeps<T(!new)>(cfg: Config<T>, m: Model<T>, e: Entity, next: T, env: Env)
    requires Inv(cfg, m) && Faithful(cfg) && e in m.cells
    ensures CommitPost(cfg, m, e, next, env, Commit(cfg, m, e, next, env))
  {
    var r := Commit(cfg, m, e, next, env);
    if r.out.err.None? {
      assert InStep(r.m) by {
        ToFrontKeeps(m.order, e);
        assert e in m.order;
      }
      PutStores(cfg, m.disk, e, next, env.stampAt);
      CommitKeepsCells(cfg, m, r.m, e, next);
    }
  }

  ghost predicate DeletePost<T>(cfg: Config<T>, m: Model<T>, e: Entity, r: Result<T>) {
    && Inv(cfg, r.m) && r.m.wakes == m.wakes && r.m.bound == m.bound
    && (r.out.err.Some? ==> r.m == m)
    && (r.out.err.None? ==>
          && r.m.order == Without(m.order, e)
          && r.m.cells == m.cells - {e}
          && Key(cfg.name, e) !in r.m.disk && Stored(cfg, r.m.disk, e) == None
          && (forall x :: x != e ==> Stored(cfg, r.m.disk, x) == Stored(cfg, m.disk, x))
          && (forall x :: x != e ==> (Key(cfg.name, x) in r.m.disk <==> Key(cfg.name, x) in m.disk)))
  }

  lemma DeleteInStep<T>(m: Model<T>, e: Entity)
    requires InStep(m)
    ensures InStep(m.(order := Without(m.order, e), cells := m.cells - {e}))
  {
    WithoutMembers(m.order, e);
    WithoutDistinct(m.order, e);
  }

  lemma DeleteKeepsCells<T>(cfg: Config<T>, m: Model<T>, m': Model<T>, e: Entity)
    requires forall k :: k in m.cells ==> CellLaw(cfg, m.disk, k, m.cells[k])
    requires m'.cells == m.cells - {e}
    requires forall x :: x != e ==> Stored(cfg, m'.disk, x) == Stored(cfg, m.disk, x)
    requires forall x :: x != e ==> (Key(cfg.name, x) in m'.disk <==> Key(cfg.name, x) in m.disk)
    ensures forall k :: k in m'.cells ==> CellLaw(cfg, m'.disk, k, m'.cells[k])
  {
    forall k | k in m'.cells
      ensures CellLaw(cfg, m'.disk, k, m'.cells[k])
    {
      assert CellLaw(cfg, m.disk, k, m.cells[k]);
    }
  }

  lemma DeleteKeeps<T>(cfg: Config<T>, m: Model<T>, e: Entity, env: Env)
    requires Inv(cfg, m)
    ensures DeletePost(cfg, m, e, DoDelete(cfg, m, e, env))
  {
    var r := DoDelete(cfg, m, e, env);
    if r.out.err.None? {
      DeleteInStep(m, e);
      assert InStep(r.m);
      StoredElsewhere(cfg, m.disk, r.m.disk, e);
      DeleteKeepsCells(cfg, m, r.m, e);
    }
  }

  /** Every call keeps the invariant; only a successful Delete, or a successful Update, changes the backend. */
  lemma StepKeeps<T(!new)>(cfg: Config<T>, m: Model<T>, call: Call<T>)
    requires Inv(cfg, m) && Faithful(cfg) && ValidCall(call)
    ensures Inv(cfg, Step(cfg, m, call).m)
    ensures Step(cfg, m, call).out.err.Some? || call.op.Get? ==> Step(cfg, m, call).m.disk == m.disk
  {
    ReopenKeeps(cfg, m, call);
    var b := Before(m, call);
    match call.op
    case Get(e) =>
      LoadKeeps(cfg, b, e, call.env);
    case Update(e, fn) =>
      LoadKeeps(cfg, b, e, call.env);
      var loaded := Load(cfg, b, e, call.env);
      if loaded.out.err.None? {
        CommitKeeps(cfg, loaded.m, e, fn(loaded.out.value), call.env);
      }
    case Delete(e) =>
      DeleteKeeps(cfg, b, e, call.env);
  }

  /** The backend holds bytes for e that do not decode. */
  ghost predicate Garbled<T>(cfg: Config<T>, disk: map<string, Bytes>, e: Entity) {
    Key(cfg.name, e) in disk && Stored(cfg, disk, e).None?
  }

  /** While reads are up, a load fails exactly on bytes that do not decode. */
  lemma LoadFailsIff<T>(cfg: Config<T>, m: Model<T>, e: Entity, env: Env)
    requires Inv(cfg, m)
    ensures Garbled(cfg, m.disk, e) ==> Load(cfg, m, e, env).out.err.Some?
    ensures env.readUp ==> (Load(cfg, m, e, env).out.err.Some? <==> Garbled(cfg, m.disk, e))
  {
    assert e in m.cells ==> CellLaw(cfg, m.disk, e, m.cells[e]);
  }

  /** Bytes that do not decode stay until their entity is deleted, and never appear. */
  lemma StepGarbled<T(!new)>(cfg: Config<T>, m: Model<T>, call: Call<T>)
    requires Inv(cfg, m) && Faithful(cfg) && ValidCall(call)
    ensures forall e :: Garbled(cfg, Step(cfg, m, call).m.disk, e) <==>
                        Garbled(cfg, m.disk, e) && !(call.op == Op<T>.Delete(e) && call.env.writeUp)
  {
    ReopenKeeps(cfg, m, call);
    var b, x := Before(m, call), call.op.entity;
    if call.op.Delete? {
      DeleteKeeps(cfg, b, x, call.env);
    } else {
      LoadKeeps(cfg, b, x, call.env);
      var loaded := Load(cfg, b, x, call.env);
      if call.op.Update? && loaded.out.err.None? {
        CommitKeeps(cfg, loaded.m, x, call.op.fn(loaded.out.value), call.env);
        assert CellLaw(cfg, loaded.m.disk, x, loaded.m.cells[x]);
      }
    }
  }

  /** The state after a run. */
  ghost function Run<T(!new)>(cfg: Config<T>, m: Model<T>, script: seq<Call<T>>): (m': Model<T>)
    requires Inv(cfg, m) && Faithful(cfg) && ValidScript(script)
    ensures Inv(cfg, m')
    decreases |script|
  {
    if script == [] then m else
      StepKeeps(cfg, m, script[0]);
      Run(cfg, Step(cfg, m, script[0]).m, script[1..])
  }

  /** What the calls of a run return, in order. */
  ghost function Outputs<T(!new)>(cfg: Config<T>, m: Model<T>, script: seq<Call<T>>): (outs: seq<Outcome<T>>)
    requires Inv(cfg, m) && Faithful(cfg) && ValidScript(script)
    ensures |outs| == |script|
    decreases |script|
  {
    if script == [] then [] else
      StepKeeps(cfg, m, script[0]);
      var r := Step(cfg, m, script[0]);
      [r.out] + Outputs(cfg, r.m, script[1..])
  }

  /** Unfolding one call of a run. */
  lemma OutputsHead<T(!new)>(cfg: Config<T>, m: Model<T>, script: seq<Call<T>>)
    requires Inv(cfg, m) && Faithful(cfg) && ValidScript(script) && script != []
    ensures var r := Step(cfg, m, script[0]);
            && Inv(cfg, r.m) && ValidScript(script[1..])
            && Outputs(cfg, m, script)[0] == r.out
            && Outputs(cfg, m, script)[1..] == Outputs(cfg, r.m, script[1..])
            && Run(cfg, m, script) == Run(cfg, r.m, script[1..])
  {
    StepKeeps(cfg, m, script[0]);
  }
}
