// registry.go as it runs: the shared counter and slot map, updated in place by
// goroutines that take turns at their shared accesses. Every access is proved to
// be the step that Registry.dfy takes, so its theorems hold of these objects.
module RegistryObjects {
  import opened Wrappers
  import opened SlotCell
  import R = Registry
  import RegistryProgress

  datatype Error = UnknownStateShape(shape: string) | CapExceeded(shape: string, count: nat) | FactoryPanicked

  datatype Result<+A> = Ok(value: A) | Err(error: Error)

  /** The next shared access of a call, with the local variables it carries. */
  datatype Pc<V> =
    | Start | Reading | Swapping(current: int) | Storing(made: SlotObject<V>) | Returning(actual: SlotObject<V>)
    | Done(slot: SlotObject<V>) | Refused | Panicked

  datatype Call<V> = Call(entity: Entity, pc: Pc<V>, panics: bool)

  /** A call on the heap and its counterpart in the model; at says which object each slot is. */
  ghost predicate Stands<V>(c: Call<V>, r: R.Call, at: map<R.Slot, SlotObject<V>>) {
    && c.entity == r.entity && c.panics == r.panics
    && match c.pc
       case Start => r.pc.Start?
       case Reading => r.pc.Reading?
       case Swapping(n) => r.pc == R.Swapping(n)
       case Storing(_) => r.pc.Storing?
       case Returning(w) => r.pc.Returning? && r.pc.winner in at && at[r.pc.winner] == w
       case Done(w) => r.pc.Done? && r.pc.slot in at && at[r.pc.slot] == w
       case Refused => r.pc.Refused?
       case Panicked => r.pc.Panicked?
  }

  class ShapeObject<V> {
    const name: string
    const cap: nat
    const factory: () -> V
    var count: int
    var slots: map<Entity, SlotObject<V>>
    var calls: seq<Call<V>>
    ghost var view: R.Shape
    ghost var at: map<R.Slot, SlotObject<V>>

    ghost predicate Valid()
      reads this
    {
      && view.cap == cap && view.count == count
      && view.slots.Keys == slots.Keys
      && (forall e :: e in slots ==> view.slots[e] in at && at[view.slots[e]] == slots[e])
      && |calls| == |view.calls|
      && (forall i :: 0 <= i < |calls| ==> Stands(calls[i], view.calls[i], at))
    }

    constructor (name: string, cap: nat, factory: () -> V, todo: seq<(Entity, bool)>)
      ensures Valid() && this.name == name && this.cap == cap && this.factory == factory && slots == map[] && count == 0
      ensures R.NoneBegun(view) && |calls| == |todo|
      ensures forall i :: 0 <= i < |todo| ==> calls[i] == Call(todo[i].0, Start, todo[i].1)
    {
      this.name := name;
      this.cap := cap;
      this.factory := factory;
      count := 0;
      slots := map[];
      calls := seq(|todo|, i requires 0 <= i < |todo| => Call(todo[i].0, Start, todo[i].1));
      view := R.Shape(cap, 0, map[], seq(|todo|, i requires 0 <= i < |todo| => R.Call(todo[i].0, R.Start, todo[i].1, 0)));
      at := map[];
    }

    /** The access just made, in the model. */
    method Move(i: nat, pc: Pc<V>)
      requires i < |calls| == |view.calls|
      modifies this`calls, this`view
      ensures calls == old(calls)[i := old(calls)[i].(pc := pc)]
      ensures view == R.Step(old(view), i)
    {
      calls := calls[i := calls[i].(pc := pc)];
      view := R.Step(view, i);
    }

    /** slots.Load. */
    method Load(i: nat)
      requires Valid() && i < |calls| && calls[i].pc.Start?
      modifies this`calls, this`view
      ensures Valid() && view == R.Step(old(view), i)
    {
      var e := calls[i].entity;
      Move(i, if e in slots then Done(slots[e]) else Reading);
    }

    /** count.Load. */
    method ReadCount(i: nat)
      requires Valid() && i < |calls| && calls[i].pc.Reading?
      modifies this`calls, this`view
      ensures Valid() && view == R.Step(old(view), i)
    {
      Move(i, if count >= cap then Refused else Swapping(count));
    }

    /** count.CompareAndSwap; a call that reserved goes on to make its slot. */
    method CompareAndSwap(i: nat)
      requires Valid() && i < |calls| && calls[i].pc.Swapping?
      modifies this`count, this`calls, this`view
      ensures Valid() && view == R.Step(old(view), i)
      ensures calls[i].pc.Storing? ==> fresh(calls[i].pc.made) && calls[i].pc.made.View() == Cell(factory(), None, [], [])
    {
      var current := calls[i].pc.current;
      if count == current {
        count := current + 1;
        if calls[i].panics {
          Move(i, Panicked);
        } else {
          var made := new SlotObject(factory());
          Move(i, Storing(made));
        }
      } else {
        Move(i, Reading);
      }
    }

    /** slots.LoadOrStore. */
    method LoadOrStore(i: nat)
      requires Valid() && R.OneSlotEach(view) && i < |calls| && calls[i].pc.Storing?
      modifies this`slots, this`calls, this`view, this`at
      ensures Valid() && view == R.Step(old(view), i)
      ensures slots == if old(calls)[i].entity in old(slots) then old(slots)
                       else old(slots)[old(calls)[i].entity := old(calls)[i].pc.made]
    {
      var e, made := calls[i].entity, calls[i].pc.made;
      R.NotOutYet(view, i);
      if e in slots {
        Move(i, Returning(slots[e]));
      } else {
        slots := slots[e := made];
        at := at[R.Fresh(i) := made];
        Move(i, Done(made));
      }
    }

    /** count.Add(-1). */
    method GiveBack(i: nat)
      requires Valid() && i < |calls| && calls[i].pc.Returning?
      modifies this`count, this`calls, this`view
      ensures Valid() && view == R.Step(old(view), i)
    {
      count := count - 1;
      Move(i, Done(calls[i].pc.actual));
    }

    predicate Finished(i: nat)
      requires i < |calls|
      reads this
    {
      calls[i].pc.Done? || calls[i].pc.Refused? || calls[i].pc.Panicked?
    }

    /** The next shared access of call i of ref, if it has not returned. */
    method Access(i: nat)
      requires Valid() && R.OneSlotEach(view) && i < |calls|
      modifies this
      ensures Valid() && view == R.Step(old(view), i)
      ensures calls[i].entity == old(calls)[i].entity
      ensures forall e :: e in old(slots) ==> e in slots && slots[e] == old(slots)[e]
    {
      match calls[i].pc {
        case Start => Load(i);
        case Reading => ReadCount(i);
        case Swapping(_) => CompareAndSwap(i);
        case Storing(_) => LoadOrStore(i);
        case Returning(_) => GiveBack(i);
        case Done(_) =>
        case Refused =>
        case Panicked =>
      }
    }

    /** The next access of call i, after the accesses done. */
    method Turn(i: nat, ghost was: R.Shape, ghost done: seq<nat>)
      requires Valid() && R.Reserved(was) && R.OneSlotEach(was)
      requires R.Schedule(was, done) && view == R.Run(was, done) && i < |calls|
      modifies this
      ensures Valid() && R.Schedule(was, done + [i]) && view == R.Run(was, done + [i]) && |calls| == |old(calls)|
      ensures calls[i].entity == old(calls)[i].entity
      ensures forall e :: e in old(slots) ==> e in slots && slots[e] == old(slots)[e]
      ensures !R.Finished(old(view).calls[i]) ==> RegistryProgress.Measure(view) < RegistryProgress.Measure(old(view))
    {
      R.RunKeeps(was, done);
      R.RunSnoc(was, done, i);
      if !R.Finished(view.calls[i]) { RegistryProgress.StepLowersMeasure(view, i); }
      Access(i);
    }

    /** Every call that has succeeded holds the one object its entity has, and the slots are within the cap. */
    lemma HoldsOneObject()
      requires Valid() && R.Reserved(view) && R.OneSlotEach(view)
      ensures |slots| <= count <= cap
      ensures forall i :: 0 <= i < |calls| && calls[i].pc.Done? ==>
                calls[i].entity in slots && slots[calls[i].entity] == calls[i].pc.slot
    {
      assert |slots| == |slots.Keys| == |view.slots.Keys| == |view.slots|;
    }

    /**
     * Calls that take turns in any order do on the heap what the model's run
     * does: the slots never pass the cap, and every call that succeeded holds
     * the one object its entity has.
     */
    method Drive(sched: seq<nat>)
      requires Valid() && R.Reserved(view) && R.OneSlotEach(view) && R.Schedule(view, sched)
      modifies this
      ensures Valid() && view == R.Run(old(view), sched)
      ensures |slots| <= count <= cap
      ensures forall i :: 0 <= i < |calls| && calls[i].pc.Done? ==>
                calls[i].entity in slots && slots[calls[i].entity] == calls[i].pc.slot
    {
      ghost var was := view;
      for k := 0 to |sched|
        invariant Valid() && |calls| == |was.calls| && view == R.Run(was, sched[..k])
      {
        assert sched[..k] + [sched[k]] == sched[..k + 1];
        Turn(sched[k], was, sched[..k]);
      }
      assert sched[..|sched|] == sched;
      R.RunKeeps(was, sched);
      HoldsOneObject();
    }

    /**
     * ref by one goroutine while the others stand still, wherever they are: its
     * result and the new slots are those of the model's run that schedules only
     * this call.
     */
    method Ref(i: nat) returns (r: Result<SlotObject<V>>, ghost alone: seq<nat>)
      requires Valid() && R.Reserved(view) && R.OneSlotEach(view) && i < |calls| && calls[i].pc.Start?
      modifies this
      ensures Valid() && R.Solo(old(view), i, alone) && view == R.Run(old(view), alone)
      ensures R.Finished(view.calls[i]) && (r.Ok? <==> view.calls[i].pc.Done?)
      ensures r.Ok? ==> old(calls)[i].entity in slots && slots[old(calls)[i].entity] == r.value
      ensures r.Err? ==> r == if view.calls[i].pc.Refused? then Err(CapExceeded(name, cap)) else Err(FactoryPanicked)
      ensures forall e :: e in old(slots) ==> e in slots && slots[e] == old(slots)[e]
    {
      ghost var was := view;
      alone := [];
      while !Finished(i)
        invariant Valid() && i < |calls| && R.Solo(was, i, alone) && view == R.Run(was, alone)
        invariant calls[i].entity == old(calls)[i].entity
        invariant forall e :: e in old(slots) ==> e in slots && slots[e] == old(slots)[e]
        decreases RegistryProgress.Measure(view)
      {
        Turn(i, was, alone);
        alone := alone + [i];
      }
      R.RunKeeps(was, alone);
      r := match calls[i].pc
           case Done(slot) => Ok(slot)
           case Refused => Err(CapExceeded(name, cap))
           case _ => Err(FactoryPanicked);
    }
  }

  class Registry<V> {
    const shapes: map<string, ShapeObject<V>>

    constructor (shapes: map<string, ShapeObject<V>>)
      ensures this.shapes == shapes
    {
      this.shapes := shapes;
    }

    /** ref: an undeclared shape is an error, and touches nothing. */
    method Ref(name: string, i: nat) returns (r: Result<SlotObject<V>>)
      requires name in shapes ==>
                 var sh := shapes[name];
                 sh.Valid() && R.Reserved(sh.view) && R.OneSlotEach(sh.view) && i < |sh.calls| && sh.calls[i].pc.Start?
      modifies if name in shapes then {shapes[name]} else {}
      ensures name !in shapes ==> r == Err(UnknownStateShape(name))
      ensures name in shapes ==>
                var sh := shapes[name];
                && sh.Valid() && old(i < |sh.view.calls|)
                && var e := old(sh.calls[i].entity);
                   if e in old(sh.slots) then r == Ok(old(sh.slots)[e]) && sh.slots == old(sh.slots)
                   else if old(sh.count) == sh.cap then r == Err(CapExceeded(sh.name, sh.cap)) && sh.slots == old(sh.slots)
                   else if old(sh.calls[i].panics) then r == Err(FactoryPanicked) && sh.slots == old(sh.slots) && sh.count == old(sh.count) + 1
                   else r.Ok? && sh.slots == old(sh.slots)[e := r.value]
    {
      if name !in shapes { return Err(UnknownStateShape(name)); }
      var sh := shapes[name];
      ghost var alone;
      r, alone := sh.Ref(i);
      R.SoloOutcome(old(sh.view), i, alone);
    }
  }
}
