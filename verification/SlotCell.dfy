// One slot of registry.go under concurrent Get, Set and Update: the slot's mutex
// makes them take effect one at a time, in the order the lock was taken.
module SlotCell {
  import opened Wrappers

  datatype Op<!V> = Get | Set(v: V) | Update(fn: V -> V)

  /** The next action of a client: lock, read or write, write back, unlock; out is what Get reports. */
  datatype Pc<+V> = Ready | Locked | Computing(read: V) | Exiting(out: V) | Returned(out: V)

  datatype Client<!V> = Client(op: Op<V>, pc: Pc<V>)

  /** order lists the clients in the order they took the lock: history only. */
  datatype Cell<!V> = Cell(val: V, holder: Option<nat>, clients: seq<Client<V>>, order: seq<nat>)

  function At<V>(c: Cell<V>, i: nat, pc: Pc<V>): Cell<V>
    requires i < |c.clients|
  {
    c.(clients := c.clients[i := c.clients[i].(pc := pc)])
  }

  /** Client i makes its next action; a client waiting for a held lock does not move. */
  function Step<V>(c: Cell<V>, i: nat): (c': Cell<V>)
    requires i < |c.clients|
    ensures |c'.clients| == |c.clients|
  {
    var client := c.clients[i];
    match client.pc
    case Ready =>
      if c.holder.Some? then c else At(c, i, Locked).(holder := Some(i), order := c.order + [i])
    case Locked =>
      (match client.op
       case Get => At(c, i, Exiting(c.val))
       case Set(v) => At(c, i, Exiting(v)).(val := v)
       case Update(_) => At(c, i, Computing(c.val)))
    case Computing(read) =>
      if client.op.Update? then At(c, i, Exiting(client.op.fn(read))).(val := client.op.fn(read)) else c
    case Exiting(out) => At(c, i, Returned(out)).(holder := None)
    case Returned(_) => c
  }

  ghost predicate Schedule<V>(c: Cell<V>, sched: seq<nat>) {
    forall k :: 0 <= k < |sched| ==> sched[k] < |c.clients|
  }

  ghost function Run<V>(c: Cell<V>, sched: seq<nat>): (c': Cell<V>)
    requires Schedule(c, sched)
    ensures |c'.clients| == |c.clients|
    decreases |sched|
  {
    if sched == [] then c else Run(Step(c, sched[0]), sched[1..])
  }

  /** What one operation makes of a value. */
  function Apply<V>(op: Op<V>, v: V): V {
    match op
    case Get => v
    case Set(w) => w
    case Update(fn) => fn(v)
  }

  /** The value after the given clients' operations, taken one after another. */
  ghost function Fold<V>(init: V, clients: seq<Client<V>>, order: seq<nat>): V
    requires forall k :: 0 <= k < |order| ==> order[k] < |clients|
    decreases |order|
  {
    if order == [] then init else
      var n := |order| - 1;
      var v := Fold(init, clients, order[..n]);
      Apply(clients[order[n]].op, v)
  }

  /** Folding looks at the operations only. */
  lemma {:induction false} FoldOps<V>(init: V, c1: seq<Client<V>>, c2: seq<Client<V>>, order: seq<nat>)
    requires |c1| == |c2| && forall i :: 0 <= i < |c1| ==> c1[i].op == c2[i].op
    requires forall k :: 0 <= k < |order| ==> order[k] < |c1|
    ensures Fold(init, c1, order) == Fold(init, c2, order)
    decreases |order|
  {
    if order != [] {
      FoldOps(init, c1, c2, order[..|order| - 1]);
    }
  }

  ghost predicate InOrder<V>(c: Cell<V>) {
    && (forall k :: 0 <= k < |c.order| ==> c.order[k] < |c.clients|)
    && (forall j, k :: 0 <= j < k < |c.order| ==> c.order[j] != c.order[k])
    && (forall i :: 0 <= i < |c.clients| ==> (i in c.order <==> !c.clients[i].pc.Ready?))
  }

  /** At most one client is between lock and unlock: the holder, which locked last. */
  ghost predicate Exclusive<V>(c: Cell<V>) {
    && (forall i :: 0 <= i < |c.clients| ==>
          ((c.clients[i].pc.Locked? || c.clients[i].pc.Computing? || c.clients[i].pc.Exiting?) <==> c.holder == Some(i)))
    && (c.holder.Some? ==> c.holder.value < |c.clients| && c.order != [] && c.order[|c.order| - 1] == c.holder.value)
    && (forall i :: 0 <= i < |c.clients| && c.clients[i].pc.Computing? ==>
          c.clients[i].op.Update? && c.clients[i].pc.read == c.val)
  }

  /** Has the holder yet to write? */
  ghost predicate Pending<V>(c: Cell<V>)
    requires Exclusive(c)
  {
    c.holder.Some? && !c.clients[c.holder.value].pc.Exiting?
  }

  /** The clients whose operation has taken effect, in lock order. */
  ghost function Settled<V>(c: Cell<V>): seq<nat>
    requires Exclusive(c)
  {
    if Pending(c) then c.order[..|c.order| - 1] else c.order
  }

  ghost predicate Folded<V>(c: Cell<V>, init: V) {
    && InOrder(c) && Exclusive(c)
    && c.val == Fold(init, c.clients, Settled(c))
    && GetsFold(init, c.clients, c.order)
  }

  /** Only the client that moves changes, and the lock order only grows. */
  lemma StepFrame<V>(c: Cell<V>, i: nat)
    requires i < |c.clients|
    ensures |Step(c, i).clients| == |c.clients|
    ensures forall j :: 0 <= j < |c.clients| ==> Step(c, i).clients[j].op == c.clients[j].op
    ensures forall j :: 0 <= j < |c.clients| && j != i ==> Step(c, i).clients[j] == c.clients[j]
    ensures Step(c, i).order == c.order || (c.clients[i].pc.Ready? && c.holder.None? && Step(c, i).order == c.order + [i])
  {
  }

  lemma StepInOrder<V>(c: Cell<V>, i: nat)
    requires i < |c.clients| && InOrder(c)
    ensures InOrder(Step(c, i))
  {
    var c' := Step(c, i);
    if c'.order == c.order {
      StepFrame(c, i);
    } else {
      assert i !in c.order;
    }
  }

  lemma StepExclusive<V>(c: Cell<V>, i: nat)
    requires i < |c.clients| && Exclusive(c)
    ensures Exclusive(Step(c, i))
  {
  }

  /** Locking settles nothing. */
  lemma LockSettles<V>(c: Cell<V>, i: nat)
    requires i < |c.clients| && Exclusive(c) && Exclusive(Step(c, i))
    requires c.clients[i].pc.Ready?
    ensures Settled(Step(c, i)) == Settled(c) && Step(c, i).val == c.val
  {
    if c.holder.None? {
      assert Step(c, i).order[..|c.order|] == c.order;
    }
  }

  /** Is this action the write (or, for Get, the read) by which the operation takes effect? */
  predicate TakesEffect<V>(client: Client<V>) {
    (client.pc.Locked? && !client.op.Update?) || client.pc.Computing?
  }

  /** The value and the pending write after an action of a client that has the lock or is done with it. */
  lemma StepWrites<V>(c: Cell<V>, i: nat)
    requires i < |c.clients| && Exclusive(c) && Exclusive(Step(c, i)) && !c.clients[i].pc.Ready?
    ensures Step(c, i).order == c.order
    ensures if TakesEffect(c.clients[i])
            then c.holder == Some(i) && Pending(c) && !Pending(Step(c, i)) && Step(c, i).val == Apply(c.clients[i].op, c.val)
            else Pending(Step(c, i)) == Pending(c) && Step(c, i).val == c.val
  {
  }

  /** The holder locked last, so its operation is the next to fold. */
  lemma WriteSettles<V>(c: Cell<V>, i: nat, init: V)
    requires i < |c.clients| && Exclusive(c) && Exclusive(Step(c, i)) && !c.clients[i].pc.Ready?
    requires forall k :: 0 <= k < |c.order| ==> c.order[k] < |c.clients|
    requires c.val == Fold(init, c.clients, Settled(c))
    ensures Step(c, i).order == c.order
    ensures Step(c, i).val == Fold(init, c.clients, Settled(Step(c, i)))
  {
    StepWrites(c, i);
    if TakesEffect(c.clients[i]) {
      assert c.order[|c.order| - 1] == i;
      assert Settled(Step(c, i)) == c.order && Settled(c) == c.order[..|c.order| - 1];
    }
  }

  /** What one action does to the settled operations and the value. */
  lemma StepSettles<V>(c: Cell<V>, i: nat, init: V)
    requires i < |c.clients| && Exclusive(c) && Exclusive(Step(c, i))
    requires forall k :: 0 <= k < |c.order| ==> c.order[k] < |c.clients|
    requires c.val == Fold(init, c.clients, Settled(c))
    requires forall k :: 0 <= k < |Step(c, i).order| ==> Step(c, i).order[k] < |c.clients|
    ensures Step(c, i).val == Fold(init, c.clients, Settled(Step(c, i)))
  {
    if c.clients[i].pc.Ready? {
      LockSettles(c, i);
    } else {
      WriteSettles(c, i, init);
    }
  }

  ghost predicate GetsFold<V>(init: V, clients: seq<Client<V>>, order: seq<nat>)
    requires forall k :: 0 <= k < |order| ==> order[k] < |clients|
  {
    forall k :: 0 <= k < |order| && clients[order[k]].op.Get? ==> GetFolds(init, clients, order, k)
  }

  ghost predicate GetFolds<V>(init: V, clients: seq<Client<V>>, order: seq<nat>, k: nat)
    requires k < |order| && forall k :: 0 <= k < |order| ==> order[k] < |clients|
  {
    match clients[order[k]].pc
    case Exiting(out) => out == Fold(init, clients, order[..k])
    case Returned(out) => out == Fold(init, clients, order[..k])
    case _ => true
  }

  /** The lock order up to an earlier position, and the client there, unless it is the one that moves, stay as they were. */
  lemma OtherGet<V>(c: Cell<V>, i: nat, init: V, k: nat)
    requires i < |c.clients| && Folded(c, init) && InOrder(Step(c, i)) && k < |c.order| && c.order[k] != i
    requires c.clients[c.order[k]].op.Get?
    ensures k < |Step(c, i).order| && GetFolds(init, Step(c, i).clients, Step(c, i).order, k)
  {
    var c' := Step(c, i);
    StepFrame(c, i);
    assert c'.order[..k] == c.order[..k] && c'.order[k] == c.order[k];
    assert GetFolds(init, c.clients, c.order, k);
    FoldOps(init, c.clients, c'.clients, c.order[..k]);
  }

  lemma OwnGet<V>(c: Cell<V>, i: nat, init: V, k: nat)
    requires i < |c.clients| && Folded(c, init) && InOrder(Step(c, i)) && k < |c.order| && c.order[k] == i
    requires c.clients[i].op.Get?
    ensures k < |Step(c, i).order| && GetFolds(init, Step(c, i).clients, Step(c, i).order, k)
  {
    var c' := Step(c, i);
    StepFrame(c, i);
    assert c'.order == c.order;
    assert GetFolds(init, c.clients, c.order, k);
    FoldOps(init, c.clients, c'.clients, c.order[..k]);
    if c.clients[i].pc.Locked? {
      assert c.holder == Some(i);
      assert k == |c.order| - 1;
    }
  }

  lemma StepGet<V>(c: Cell<V>, i: nat, init: V, k: nat)
    requires i < |c.clients| && Folded(c, init) && InOrder(Step(c, i)) && k < |Step(c, i).order|
    requires Step(c, i).clients[Step(c, i).order[k]].op.Get?
    ensures GetFolds(init, Step(c, i).clients, Step(c, i).order, k)
  {
    StepFrame(c, i);
    if k < |c.order| {
      if c.order[k] == i {
        OwnGet(c, i, init, k);
      } else {
        OtherGet(c, i, init, k);
      }
    }
  }

  lemma StepFolds<V>(c: Cell<V>, i: nat, init: V)
    requires i < |c.clients| && Folded(c, init)
    ensures Folded(Step(c, i), init)
  {
    var c' := Step(c, i);
    StepFrame(c, i);
    StepInOrder(c, i);
    StepExclusive(c, i);
    StepSettles(c, i, init);
    FoldOps(init, c.clients, c'.clients, Settled(c'));
    forall k | 0 <= k < |c'.order| && c'.clients[c'.order[k]].op.Get?
      ensures GetFolds(init, c'.clients, c'.order, k)
    {
      StepGet(c, i, init, k);
    }
  }

  lemma {:induction false} RunFolds<V>(c: Cell<V>, sched: seq<nat>, init: V)
    requires Schedule(c, sched) && Folded(c, init)
    ensures Folded(Run(c, sched), init)
    decreases |sched|
  {
    if sched != [] {
      StepFolds(c, sched[0], init);
      RunFolds(Step(c, sched[0]), sched[1..], init);
    }
  }

  /**
   * No lost updates: under every interleaving, once nobody holds the slot its
   * value is the fold, in lock order, of every operation that took the lock;
   * each finished operation is in that order exactly once, and each Get returned
   * the fold of the operations before it.
   */
  lemma NoLostUpdates<V>(c: Cell<V>, sched: seq<nat>)
    requires Schedule(c, sched) && c.holder == None && c.order == []
    requires forall i :: 0 <= i < |c.clients| ==> c.clients[i].pc == Ready
    ensures var c' := Run(c, sched);
            && InOrder(c')
            && (c'.holder.None? ==> c'.val == Fold(c.val, c'.clients, c'.order))
            && (forall i :: 0 <= i < |c'.clients| && c'.clients[i].pc.Returned? ==> i in c'.order)
            && (forall k :: 0 <= k < |c'.order| && c'.clients[c'.order[k]].op.Get? && c'.clients[c'.order[k]].pc.Returned? ==>
                  c'.clients[c'.order[k]].pc.out == Fold(c.val, c'.clients, c'.order[..k]))
  {
    RunFolds(c, sched, c.val);
  }

  // ---- reads see writes ----

  /** Nothing but reads from position a of the lock order up to b. */
  ghost predicate OnlyReads<V>(clients: seq<Client<V>>, order: seq<nat>, a: nat, b: nat)
    requires b <= |order| && forall k :: 0 <= k < |order| ==> order[k] < |clients|
  {
    forall k :: a <= k < b ==> clients[order[k]].op.Get?
  }

  lemma {:induction false} ReadsKeep<V>(init: V, clients: seq<Client<V>>, order: seq<nat>, a: nat, b: nat)
    requires a <= b <= |order| && forall k :: 0 <= k < |order| ==> order[k] < |clients|
    requires OnlyReads(clients, order, a, b)
    ensures Fold(init, clients, order[..b]) == Fold(init, clients, order[..a])
    decreases b
  {
    if a < b {
      ReadsKeep(init, clients, order, a, b - 1);
      assert order[..b][..b - 1] == order[..b - 1];
    }
  }

  lemma LastWriteFolds<V>(init: V, clients: seq<Client<V>>, order: seq<nat>, k: nat, j: nat)
    requires k < j <= |order| && forall k :: 0 <= k < |order| ==> order[k] < |clients|
    requires OnlyReads(clients, order, k + 1, j)
    ensures Fold(init, clients, order[..j]) == Apply(clients[order[k]].op, Fold(init, clients, order[..k]))
  {
    ReadsKeep(init, clients, order, k + 1, j);
    assert order[..k + 1][..k] == order[..k];
  }

  /** A slot nobody has used yet. */
  ghost predicate NoneBegun<V>(c: Cell<V>) {
    c.holder == None && c.order == [] && forall i :: 0 <= i < |c.clients| ==> c.clients[i].pc == Ready
  }

  /** At position j of the lock order stands a Get that has returned out. */
  ghost predicate Got<V>(c: Cell<V>, j: nat, out: V) {
    j < |c.order| && c.order[j] < |c.clients| && c.clients[c.order[j]].op.Get? && c.clients[c.order[j]].pc == Returned(out)
  }

  lemma GotIsFold<V>(c: Cell<V>, sched: seq<nat>, j: nat, out: V)
    requires Schedule(c, sched) && NoneBegun(c) && Got(Run(c, sched), j, out)
    ensures InOrder(Run(c, sched)) && out == Fold(c.val, Run(c, sched).clients, Run(c, sched).order[..j])
  {
    NoLostUpdates(c, sched);
  }

  /** A Get before every write returns the initial value. */
  lemma GetSeesInitial<V>(c: Cell<V>, sched: seq<nat>, j: nat, out: V)
    requires Schedule(c, sched) && NoneBegun(c) && Got(Run(c, sched), j, out)
    ensures InOrder(Run(c, sched))
    ensures OnlyReads(Run(c, sched).clients, Run(c, sched).order, 0, j) ==> out == c.val
  {
    GotIsFold(c, sched, j, out);
    if OnlyReads(Run(c, sched).clients, Run(c, sched).order, 0, j) {
      ReadsKeep(c.val, Run(c, sched).clients, Run(c, sched).order, 0, j);
    }
  }

  /** A Get whose last write before it was a Set returns what was set. */
  lemma GetSeesSet<V>(c: Cell<V>, sched: seq<nat>, k: nat, j: nat, out: V)
    requires Schedule(c, sched) && NoneBegun(c) && Got(Run(c, sched), j, out) && k < j
    ensures InOrder(Run(c, sched))
    ensures var c' := Run(c, sched);
            OnlyReads(c'.clients, c'.order, k + 1, j) && c'.clients[c'.order[k]].op.Set? ==> out == c'.clients[c'.order[k]].op.v
  {
    GotIsFold(c, sched, j, out);
    var c' := Run(c, sched);
    if OnlyReads(c'.clients, c'.order, k + 1, j) {
      LastWriteFolds(c.val, c'.clients, c'.order, k, j);
    }
  }

  /** A Get whose last write before it was an Update returns the update of what a Get between that write and the one before returned. */
  lemma GetSeesUpdate<V>(c: Cell<V>, sched: seq<nat>, i: nat, k: nat, j: nat, before: V, out: V)
    requires Schedule(c, sched) && NoneBegun(c) && Got(Run(c, sched), j, out) && Got(Run(c, sched), i, before) && i < k < j
    ensures InOrder(Run(c, sched))
    ensures var c' := Run(c, sched);
            OnlyReads(c'.clients, c'.order, k + 1, j) && OnlyReads(c'.clients, c'.order, i, k) && c'.clients[c'.order[k]].op.Update? ==>
              out == c'.clients[c'.order[k]].op.fn(before)
  {
    GotIsFold(c, sched, j, out);
    GotIsFold(c, sched, i, before);
    var c' := Run(c, sched);
    if OnlyReads(c'.clients, c'.order, k + 1, j) && OnlyReads(c'.clients, c'.order, i, k) {
      LastWriteFolds(c.val, c'.clients, c'.order, k, j);
      ReadsKeep(c.val, c'.clients, c'.order, i, k);
    }
  }

  // ---- everybody gets through ----

  /** Actions a client has left. */
  function Left<V>(client: Client<V>): nat {
    match client.pc
    case Ready => 4
    case Locked => 3
    case Computing(_) => 2
    case Exiting(_) => 1
    case Returned(_) => 0
  }

  lemma StepLowersLeft<V>(c: Cell<V>, i: nat)
    requires i < |c.clients|
    ensures Step(c, i) == c || Total(Step(c, i).clients, Left) < Total(c.clients, Left)
  {
    var client' := Step(c, i).clients[i];
    TotalUpdate(c.clients, i, client', Left);
    assert Step(c, i).clients == c.clients[i := client'];
  }

  /** Every action of the schedule changes something. */
  ghost predicate Busily<V(!new)>(c: Cell<V>, sched: seq<nat>)
    requires Schedule(c, sched)
    decreases |sched|
  {
    sched == [] || (Step(c, sched[0]) != c && Busily(Step(c, sched[0]), sched[1..]))
  }

  lemma {:induction false} BusyIsShort<V(!new)>(c: Cell<V>, sched: seq<nat>)
    requires Schedule(c, sched) && Busily(c, sched)
    ensures |sched| + Total(Run(c, sched).clients, Left) <= Total(c.clients, Left)
    decreases |sched|
  {
    if sched != [] {
      StepLowersLeft(c, sched[0]);
      BusyIsShort(Step(c, sched[0]), sched[1..]);
    }
  }

  lemma HolderMoves<V(!new)>(c: Cell<V>)
    requires Exclusive(c) && c.holder.Some?
    ensures Step(c, c.holder.value) != c
  {
    var h := c.holder.value;
    assert Step(c, h).clients[h] != c.clients[h];
  }

  lemma StillMeansReturned<V(!new)>(c: Cell<V>, i: nat)
    requires Exclusive(c) && i < |c.clients| && forall k :: 0 <= k < |c.clients| ==> Step(c, k) == c
    ensures c.clients[i].pc.Returned?
  {
    if c.holder.Some? {
      HolderMoves(c);
      assert false;
    }
    assert Step(c, i).clients[i] == c.clients[i];
  }

  /** N clients take at most 4 N actions that change anything, in any interleaving; when none can act any more, all have returned. */
  lemma {:induction false} EverybodyReturns<V(!new)>(c: Cell<V>, sched: seq<nat>, i: nat)
    requires Schedule(c, sched) && c.holder == None && c.order == [] && i < |c.clients|
    requires forall i :: 0 <= i < |c.clients| ==> c.clients[i].pc == Ready
    ensures Busily(c, sched) ==> |sched| <= 4 * |c.clients|
    ensures (forall k :: 0 <= k < |c.clients| ==> Step(Run(c, sched), k) == Run(c, sched)) ==> Run(c, sched).clients[i].pc.Returned?
  {
    if Busily(c, sched) {
      BusyIsShort(c, sched);
      TotalConst(c.clients, Left, 4);
    }
    RunFolds(c, sched, c.val);
    if forall k :: 0 <= k < |c.clients| ==> Step(Run(c, sched), k) == Run(c, sched) {
      StillMeansReturned(Run(c, sched), i);
    }
  }

  // ---- the slot object ----

  /** Goroutines that have not begun, with an operation each. */
  function NotBegun<V>(ops: seq<Op<V>>): seq<Client<V>> {
    seq(|ops|, i requires 0 <= i < |ops| => Client(ops[i], Ready))
  }

  /** slot: the value, the mutex, and where each goroutine using it stands. */
  class SlotObject<V> {
    var val: V
    var holder: Option<nat>
    var clients: seq<Client<V>>
    ghost var order: seq<nat>

    constructor (val: V)
      ensures View() == Cell(val, None, [], [])
    {
      this.val, holder, clients, order := val, None, [], [];
    }

    ghost function View(): Cell<V>
      reads this
    {
      Cell(val, holder, clients, order)
    }

    /** Further goroutines come with an operation each. */
    method Admit(ops: seq<Op<V>>)
      modifies this`clients
      ensures clients == old(clients) + NotBegun(ops)
    {
      clients := clients + NotBegun(ops);
    }

    /** Goroutine i makes its next action: lock, read or write, write back, unlock. */
    method Act(i: nat)
      requires i < |clients|
      modifies this
      ensures View() == Step(old(View()), i)
    {
      var op, pc := clients[i].op, clients[i].pc;
      match pc {
        case Ready =>
          if holder.Some? { return; }
          holder := Some(i);
          order := order + [i];
          pc := Locked;
        case Locked =>
          match op {
            case Get => pc := Exiting(val);
            case Set(v) => val := v; pc := Exiting(v);
            case Update(_) => pc := Computing(val);
          }
        case Computing(read) =>
          if op.Update? {
            val := op.fn(read);
            pc := Exiting(val);
          }
        case Exiting(out) =>
          holder := None;
          pc := Returned(out);
        case Returned(_) =>
      }
      clients := clients[i := Client(op, pc)];
    }

    /** Goroutines using the slot, in any interleaving of their actions, do what the model's run does. */
    method ActAll(sched: seq<nat>)
      requires Schedule(View(), sched)
      modifies this
      ensures View() == Run(old(View()), sched)
    {
      ghost var was := View();
      for k := 0 to |sched|
        invariant |clients| == |was.clients|
        invariant Run(was, sched) == Run(View(), sched[k..])
      {
        assert sched[k..][1..] == sched[k + 1..];
        Act(sched[k]);
      }
      assert sched[|sched|..] == [];
    }

    /** A new slot used by goroutines with these operations, in any interleaving of their actions, loses no update. */
    method Drive(ops: seq<Op<V>>, sched: seq<nat>)
      requires View() == Cell(val, None, [], []) && forall k :: 0 <= k < |sched| ==> sched[k] < |ops|
      modifies this
      ensures View() == Run(Cell(old(val), None, NotBegun(ops), []), sched)
      ensures InOrder(View()) && (holder.None? ==> val == Fold(old(val), clients, order))
      ensures |clients| == |ops| && (forall i :: 0 <= i < |ops| && clients[i].pc.Returned? ==> i in order)
    {
      Admit(ops);
      assert [] + NotBegun(ops) == NotBegun(ops);
      NoLostUpdates(View(), sched);
      ActAll(sched);
    }
  }
}
