// persist/store.go and the Backend contract of persist/backend.go, updated in
// place: a map of residents, a recency list of the same objects, and a backend.
// Every method is proved to do exactly what its function in StoreSpec says.
module Persist {
  import opened Wrappers
  import opened StoreSpec

  datatype Fetched = Found(value: Bytes) | NotFound | Down

  /** The persistence boundary: a failing call leaves it unchanged, deleting an absent key is no error. */
  class Backend {
    var data: map<string, Bytes>

    constructor ()
      ensures data == map[]
    {
      data := map[];
    }

    method Get(key: string, up: bool) returns (r: Fetched)
      ensures r == if !up then Down else if key in data then Found(data[key]) else NotFound
    {
      if !up { return Down; }
      if key in data { return Found(data[key]); }
      return NotFound;
    }

    method Put(key: string, value: Bytes, up: bool) returns (ok: bool)
      modifies this
      ensures ok == up
      ensures data == if up then old(data)[key := value] else old(data)
    {
      ok := up;
      if up { data := data[key := value]; }
    }

    method Delete(key: string, up: bool) returns (ok: bool)
      modifies this
      ensures ok == up
      ensures data == if up then old(data) - {key} else old(data)
    {
      ok := up;
      if up { data := data - {key}; }
    }
  }

  /** One element of the recency list. */
  class Element<T> {
    const entity: Entity
    var state: T

    constructor (entity: Entity, state: T)
      ensures this.entity == entity && this.state == state
    {
      this.entity := entity;
      this.state := state;
    }
  }

  /** The list holds exactly the residents, in the given order, each under its own entity. */
  ghost predicate Linked<T>(lru: seq<Element<T>>, resident: map<Entity, Element<T>>, order: seq<Entity>) {
    && Distinct(order)
    && |lru| == |order|
    && (forall i :: 0 <= i < |lru| ==> lru[i].entity == order[i])
    && (forall i :: 0 <= i < |lru| ==> order[i] in resident && resident[order[i]] == lru[i])
    && (forall e :: e in resident ==> e in order)
  }

  lemma LinkedAt<T>(lru: seq<Element<T>>, resident: map<Entity, Element<T>>, order: seq<Entity>)
    requires Linked(lru, resident, order)
    ensures forall e :: e in order <==> e in resident
    ensures forall e :: e in resident ==> resident[e] in lru && resident[e].entity == e
  {
    forall e | e in resident
      ensures resident[e] in lru && resident[e].entity == e
    {
      var i :| 0 <= i < |order| && order[i] == e;
      assert resident[order[i]] == lru[i];
    }
  }

  lemma LinkedFind<T>(lru: seq<Element<T>>, resident: map<Entity, Element<T>>, order: seq<Entity>, entity: Entity)
    requires Linked(lru, resident, order) && entity in resident
    ensures resident[entity] in lru && resident[entity].entity == entity
  {
    var i :| 0 <= i < |order| && order[i] == entity;
    assert resident[order[i]] == lru[i];
  }

  lemma LinkedRemove<T>(lru: seq<Element<T>>, resident: map<Entity, Element<T>>, order: seq<Entity>, i: nat)
    requires Linked(lru, resident, order) && i < |lru|
    ensures Linked(lru[..i] + lru[i + 1..], resident - {order[i]}, Without(order, order[i]))
  {
    WithoutAt(order, i);
    WithoutMembers(order, order[i]);
    WithoutDistinct(order, order[i]);
    var l, o := lru[..i] + lru[i + 1..], Without(order, order[i]);
    forall k | 0 <= k < |l|
      ensures l[k].entity == o[k] && o[k] in resident && o[k] != order[i] && resident[o[k]] == l[k]
    {
      LinkedSkip(lru, resident, order, i, k);
    }
  }

  /** One position of the list without its element i. */
  lemma LinkedSkip<T>(lru: seq<Element<T>>, resident: map<Entity, Element<T>>, order: seq<Entity>, i: nat, k: nat)
    requires Linked(lru, resident, order) && i < |lru| && k < |lru| - 1
    ensures var l, o := (lru[..i] + lru[i + 1..])[k], (order[..i] + order[i + 1..])[k];
            l.entity == o && o in resident && o != order[i] && resident[o] == l
  {
    var k' := if k < i then k else k + 1;
    assert (lru[..i] + lru[i + 1..])[k] == lru[k'] && (order[..i] + order[i + 1..])[k] == order[k'];
  }

  lemma LinkedPush<T>(lru: seq<Element<T>>, resident: map<Entity, Element<T>>, order: seq<Entity>, el: Element<T>)
    requires Linked(lru, resident, order) && el.entity !in resident
    ensures Linked([el] + lru, resident[el.entity := el], [el.entity] + order)
  {
    LinkedAt(lru, resident, order);
    DistinctCons([el.entity], order);
  }

  lemma LinkedFront<T>(lru: seq<Element<T>>, resident: map<Entity, Element<T>>, order: seq<Entity>, i: nat)
    requires Linked(lru, resident, order) && i < |lru|
    ensures Linked([lru[i]] + lru[..i] + lru[i + 1..], resident, ToFront(order, order[i]))
  {
    LinkedRemove(lru, resident, order, i);
    LinkedPush(lru[..i] + lru[i + 1..], resident - {order[i]}, Without(order, order[i]), lru[i]);
    assert (resident - {order[i]})[order[i] := lru[i]] == resident;
    assert [lru[i]] + (lru[..i] + lru[i + 1..]) == [lru[i]] + lru[..i] + lru[i + 1..];
  }

  lemma LinkedDropLast<T>(lru: seq<Element<T>>, resident: map<Entity, Element<T>>, order: seq<Entity>, n: nat)
    requires Linked(lru, resident, order) && |lru| == n + 1
    ensures Linked(lru[..n], resident - {lru[n].entity}, order[..n])
  {
    LinkedRemove(lru, resident, order, n);
    WithoutAt(order, n);
    assert lru[..n] + lru[n + 1..] == lru[..n];
    assert order[..n] + order[n + 1..] == order[..n];
  }

  /** The list and the map count the same residents. */
  lemma {:induction false} LinkedCount<T>(lru: seq<Element<T>>, resident: map<Entity, Element<T>>, order: seq<Entity>)
    requires Linked(lru, resident, order)
    ensures |resident| == |lru|
    decreases |lru|
  {
    if lru != [] {
      var n := |lru| - 1;
      LinkedDropLast(lru, resident, order, n);
      LinkedCount(lru[..n], resident - {lru[n].entity}, order[..n]);
      assert resident.Keys == (resident - {lru[n].entity}).Keys + {lru[n].entity};
    } else {
      assert resident.Keys == {};
    }
  }

  class Store<T(!new)> {
    const cfg: Config<T>
    const bound: nat
    const b: Backend
    var resident: map<Entity, Element<T>>
    var lru: seq<Element<T>>
    ghost var view: Model<T>  // what the fields stand for, with the history the store does not keep

    ghost predicate Valid()
      reads this, resident.Values, b
    {
      && 1 <= bound == view.bound
      && view.disk == b.data
      && Linked(lru, resident, view.order)
      && view.cells.Keys == resident.Keys
      && (forall e :: e in resident ==> view.cells[e].state == resident[e].state)
    }

    /** NewStore: nothing resident; history is the wake calls made before this store was built. */
    constructor (cfg: Config<T>, bound: nat, b: Backend, ghost history: seq<WakeCall<T>>)
      requires bound >= 1
      ensures Valid() && this.cfg == cfg && this.bound == bound && this.b == b
      ensures view == Model(bound, [], map[], b.data, history) && resident == map[]
    {
      this.cfg := cfg;
      this.bound := bound;
      this.b := b;
      resident := map[];
      lru := [];
      view := Model(bound, [], map[], b.data, history);
    }

    /** list.MoveToFront. */
    method MoveToFront(el: Element<T>)
      requires Valid() && el in lru
      modifies this`lru, this`view
      ensures Valid() && view == old(view).(order := ToFront(old(view.order), el.entity))
    {
      var i :| 0 <= i < |lru| && lru[i] == el;
      LinkedFront(lru, resident, view.order, i);
      lru := [el] + lru[..i] + lru[i + 1..];
      view := view.(order := ToFront(view.order, el.entity));
    }

    /** Removing a resident from the list and the map. */
    method Drop(entity: Entity)
      requires Valid() && entity in resident
      modifies this`resident, this`lru, this`view
      ensures Valid() && resident == old(resident) - {entity} && |lru| == |old(lru)| - 1
      ensures view == old(view).(order := Without(old(view).order, entity), cells := old(view).cells - {entity})
    {
      LinkedFind(lru, resident, view.order, entity);
      var el := resident[entity];
      var i :| 0 <= i < |lru| && lru[i] == el;
      LinkedRemove(lru, resident, view.order, i);
      lru := lru[..i] + lru[i + 1..];
      resident := resident - {entity};
      view := view.(order := Without(view.order, entity), cells := view.cells - {entity});
    }

    method DropColdest()
      requires Valid() && lru != []
      modifies this`resident, this`lru, this`view
      ensures Valid() && |lru| == |old(lru)| - 1
      ensures forall n: nat :: n < |old(lru)| ==> Trim(view, n) == Trim(old(view), n)
      ensures forall e :: e in resident ==> e in old(resident) && resident[e] == old(resident)[e]
    {
      ghost var last := |lru| - 1;
      var coldest := lru[|lru| - 1];
      LinkedAt(lru, resident, view.order);
      WithoutAt(view.order, last);
      assert view.order[..last] + view.order[last + 1..] == view.order[..last];
      Drop(coldest.entity);
    }

    /** The evictions of insert: drop the coldest while the bound is reached. */
    method Evict()
      requires Valid()
      modifies this`resident, this`lru, this`view
      ensures Valid() && view == Trim(old(view), bound - 1)
      ensures forall e :: e in resident ==> e in old(resident) && resident[e] == old(resident)[e]
    {
      while |lru| >= bound
        invariant Valid() && Trim(view, bound - 1) == Trim(old(view), bound - 1)
        invariant forall e :: e in resident ==> e in old(resident) && resident[e] == old(resident)[e]
      {
        DropColdest();
      }
    }

    /** list.PushFront, and the map entry for the new element. */
    method PushFront(entity: Entity, state: T, ghost origin: Origin)
      requires Valid() && entity !in resident
      modifies this`resident, this`lru, this`view
      ensures Valid() && entity in resident && fresh(resident[entity])
      ensures resident == old(resident)[entity := resident[entity]]
      ensures view == Push(old(view), entity, Cell(state, origin))
    {
      var el := new Element(entity, state);
      LinkedPush(lru, resident, view.order, el);
      resident := resident[entity := el];
      lru := [el] + lru;
      view := Push(view, entity, Cell(state, origin));
    }

    /** insert: make room, then push to the front. */
    method Insert(entity: Entity, state: T, ghost origin: Origin)
      requires Valid() && entity !in resident
      modifies this`resident, this`lru, this`view
      ensures Valid() && view == StoreSpec.Insert(old(view), entity, Cell(state, origin))
      ensures entity in resident && fresh(resident[entity])
      ensures forall e :: e in resident && e != entity ==> e in old(resident) && resident[e] == old(resident)[e]
    {
      Evict();
      PushFront(entity, state, origin);
    }

    /** What a load does with bytes that decode. */
    lemma LoadDecoded(m: Model<T>, entity: Entity, bytes: Bytes, env: Env, v: Envelope, state: T)
      requires m.bound >= 1 && entity !in m.cells && env.readUp
      requires Key(cfg.name, entity) in m.disk && m.disk[Key(cfg.name, entity)] == bytes
      requires cfg.open(bytes) == Some(v) && cfg.unmarshal(v.state) == Decoded(state, true)
      ensures var elapsed := env.wakeAt - v.lastActive;
              var woken := Woken(cfg, entity, elapsed, state);
              Load(cfg, m, entity, env) ==
                Result(StoreSpec.Insert(LogWake(cfg, m, WakeCall(entity, elapsed, state)), entity, Cell(woken, Rehydrated(env.wakeAt))),
                       Outcome(woken, None))
    {
    }

    /** The found branch of getLocked: decode, wake, insert. */
    method Rehydrate(entity: Entity, bytes: Bytes, env: Env) returns (out: Outcome<T>)
      requires Valid() && entity !in resident && env.readUp
      requires Key(cfg.name, entity) in view.disk && view.disk[Key(cfg.name, entity)] == bytes
      modifies this`resident, this`lru, this`view
      ensures Valid() && Result(view, out) == Load(cfg, old(view), entity, env)
      ensures forall e :: e in resident ==> (e in old(resident) && resident[e] == old(resident)[e]) || fresh(resident[e])
    {
      ghost var was := view;
      var state := cfg.zero;
      var envelope := cfg.open(bytes);
      if envelope.None? { return Outcome(state, Some(BadEnvelope)); }
      var decoded := cfg.unmarshal(envelope.value.state);
      state := decoded.value;
      if !decoded.ok { return Outcome(state, Some(BadState)); }
      LoadDecoded(was, entity, bytes, env, envelope.value, state);
      if cfg.wake.Some? {
        var elapsed := env.wakeAt - envelope.value.lastActive;
        view := LogWake(cfg, view, WakeCall(entity, elapsed, state));
        state := cfg.wake.value(entity, elapsed, state);
      }
      Insert(entity, state, Rehydrated(env.wakeAt));
      return Outcome(state, None);
    }

    /** getLocked. */
    method GetLocked(entity: Entity, env: Env) returns (out: Outcome<T>)
      requires Valid()
      modifies this`resident, this`lru, this`view
      ensures Valid() && Result(view, out) == Load(cfg, old(view), entity, env)
      ensures forall e :: e in resident ==> (e in old(resident) && resident[e] == old(resident)[e]) || fresh(resident[e])
    {
      LinkedAt(lru, resident, view.order);
      if entity in resident {
        var el := resident[entity];
        MoveToFront(el);
        return Outcome(el.state, None);
      }
      var raw := b.Get(Key(cfg.name, entity), env.readUp);
      match raw {
        case NotFound =>
          Insert(entity, cfg.zero, NeverSeen);
          return Outcome(cfg.zero, None);
        case Down =>
          return Outcome(cfg.zero, Some(BackendDown));
        case Found(bytes) =>
          out := Rehydrate(entity, bytes, env);
      }
    }

    /** Get. */
    method Get(entity: Entity, env: Env) returns (out: Outcome<T>)
      requires Valid()
      modifies this`resident, this`lru, this`view
      ensures Valid() && Result(view, out) == Load(cfg, old(view), entity, env)
      ensures forall e :: e in resident ==> (e in old(resident) && resident[e] == old(resident)[e]) || fresh(resident[e])
    {
      out := GetLocked(entity, env);
    }

    /** Reflecting a durable state in residency. */
    method Replace(entity: Entity, next: T)
      requires Valid() && entity in resident
      modifies this`view, this`lru, resident[entity]
      ensures Valid()
      ensures view == old(view).(cells := old(view).cells[entity := Cell(next, Persisted)], order := ToFront(old(view).order, entity))
    {
      LinkedAt(lru, resident, view.order);
      var el := resident[entity];
      el.state := next;
      view := view.(cells := view.cells[entity := Cell(next, Persisted)]);
      MoveToFront(el);
    }

    /** Update: the value is returned even when the write fails. */
    method Update(entity: Entity, fn: T -> T, env: Env) returns (out: Outcome<T>)
      requires Valid() && Inv(cfg, view)
      modifies this`resident, this`lru, this`view, b, resident.Values
      ensures Valid() && Result(view, out) == DoUpdate(cfg, old(view), entity, fn, env)
      ensures forall e :: e in resident ==> (e in old(resident) && resident[e] == old(resident)[e]) || fresh(resident[e])
    {
      LoadKeeps(cfg, view, entity, env);
      var cur := GetLocked(entity, env);
      if cur.err.Some? { return cur; }
      var next := fn(cur.value);
      out := WriteThrough(entity, next, env);
    }

    /** The second half of Update: encode, stamp, put, and only then reflect in residency. */
    method WriteThrough(entity: Entity, next: T, env: Env) returns (out: Outcome<T>)
      requires Valid() && entity in resident
      modifies this`lru, this`view, b, resident[entity]
      ensures Valid() && Result(view, out) == Commit(cfg, old(view), entity, next, env)
    {
      var stateRaw := cfg.marshal(next);
      if stateRaw.None? { return Outcome(next, Some(MarshalFailed)); }
      var envRaw := cfg.seal(Envelope(stateRaw.value, env.stampAt));
      if envRaw.None? { return Outcome(next, Some(SealFailed)); }
      var ok := b.Put(Key(cfg.name, entity), envRaw.value, env.writeUp);
      if !ok { return Outcome(next, Some(BackendDown)); }
      view := view.(disk := b.data);
      if entity in resident {
        Replace(entity, next);
      } else {
        // A successful load has just made the entity resident.
        assert false;
      }
      return Outcome(next, None);
    }

    lemma AbsentStays(m: Model<T>, entity: Entity)
      requires Linked(lru, resident, m.order) && m.cells.Keys == resident.Keys && entity !in resident
      ensures m.(order := Without(m.order, entity), cells := m.cells - {entity}) == m
    {
      LinkedAt(lru, resident, m.order);
      WithoutMembers(m.order, entity);
      assert m.cells - {entity} == m.cells;
    }

    /** Delete: an unknown entity is no error; a failing backend leaves residency intact. */
    method Delete(entity: Entity, env: Env) returns (out: Outcome<T>)
      requires Valid()
      modifies this`resident, this`lru, this`view, b
      ensures Valid() && Result(view, out) == DoDelete(cfg, old(view), entity, env)
      ensures forall e :: e in resident ==> (e in old(resident) && resident[e] == old(resident)[e]) || fresh(resident[e])
    {
      var ok := b.Delete(Key(cfg.name, entity), env.writeUp);
      if !ok { return Outcome(cfg.zero, Some(BackendDown)); }
      view := view.(disk := b.data);
      if entity in resident {
        Drop(entity);
      } else {
        AbsentStays(view, entity);
      }
      return Outcome(cfg.zero, None);
    }

    /** Resident: how many entities are held in memory. */
    method Resident() returns (n: nat)
      requires Valid()
      ensures n == |resident|
    {
      LinkedCount(lru, resident, view.order);
      n := |lru|;
    }
  }

  /** One call, on a store that may first be thrown away and rebuilt over the same backend. */
  method Perform<T(!new)>(s: Store<T>, call: Call<T>) returns (s': Store<T>, out: Outcome<T>)
    requires s.Valid() && Inv(s.cfg, s.view) && ValidCall(call)
    modifies s, s.resident.Values, s.b
    ensures s'.Valid() && s'.cfg == s.cfg && s'.b == s.b
    ensures Result(s'.view, out) == Step(s.cfg, old(s.view), call)
    ensures s' == s || fresh(s')
    ensures forall e :: e in s'.resident ==> s'.resident[e] in old(s.resident).Values || fresh(s'.resident[e])
  {
    s' := s;
    if call.rebuild.Some? {
      s' := new Store(s.cfg, call.rebuild.value, s.b, s.view.wakes);
    }
    match call.op {
      case Get(e) => out := s'.Get(e, call.env);
      case Update(e, fn) => out := s'.Update(e, fn, call.env);
      case Delete(e) => out := s'.Delete(e, call.env);
    }
  }

  /** Serving any script of calls returns exactly what the specification's run returns. */
  method Serve<T(!new)>(s: Store<T>, script: seq<Call<T>>) returns (s': Store<T>, outs: seq<Outcome<T>>)
    requires s.Valid() && Inv(s.cfg, s.view) && Faithful(s.cfg) && ValidScript(script)
    modifies s, s.resident.Values, s.b
    ensures s'.Valid()
    ensures outs == Outputs(s.cfg, old(s.view), script) && s'.view == Run(s.cfg, old(s.view), script)
    decreases |script|
  {
    s', outs := s, [];
    if script != [] {
      StepKeeps(s.cfg, s.view, script[0]);
      var first;
      s', first := Perform(s, script[0]);
      var rest;
      s', rest := Serve(s', script[1..]);
      outs := [first] + rest;
    }
  }
}
