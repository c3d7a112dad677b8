// registry.go: any number of concurrent ref calls on one shape, one atomic step
// per shared access, under every interleaving.
module Registry {
  import opened Wrappers

  /** A slot is known by where it came from: it was there before, or call i allocated it. */
  datatype Slot = Prior(n: nat) | Fresh(call: nat)

  /** How a call came by its slot: found by the first load, stored by this call, or found when storing. */
  datatype How = Hit | Won | Lost

  /** The next shared access of a call, or how it ended. */
  datatype Pc =
    | Start                          // slots.Load
    | Reading                        // count.Load
    | Swapping(seen: int)            // count.CompareAndSwap
    | Storing                        // slots.LoadOrStore
    | Returning(winner: Slot)        // count.Add(-1)
    | Done(slot: Slot, how: How)
    | Refused                        // ErrCapExceeded
    | Panicked                       // the factory panicked, the reservation taken

  /**
   * panics says whether the state factory panics in this call; rounds counts how
   * often the call went round the compare-and-swap loop: history only.
   */
  datatype Call = Call(entity: Entity, pc: Pc, panics: bool, rounds: nat)

  datatype Shape = Shape(cap: nat, count: int, slots: map<Entity, Slot>, calls: seq<Call>)

  predicate Finished(c: Call) {
    c.pc.Done? || c.pc.Refused? || c.pc.Panicked?
  }

  function At(s: Shape, i: nat, pc: Pc): Shape
    requires i < |s.calls|
  {
    s.(calls := s.calls[i := s.calls[i].(pc := pc)])
  }

  /** Call i makes its next shared access. */
  function Step(s: Shape, i: nat): (s': Shape)
    requires i < |s.calls|
    ensures |s'.calls| == |s.calls| && s'.cap == s.cap
  {
    var c := s.calls[i];
    match c.pc
    case Start => At(s, i, if c.entity in s.slots then Done(s.slots[c.entity], Hit) else Reading)
    case Reading =>
      var s' := s.(calls := s.calls[i := c.(rounds := c.rounds + 1)]);
      At(s', i, if s.count >= s.cap then Refused else Swapping(s.count))
    case Swapping(seen) =>
      if s.count == seen then At(s, i, if c.panics then Panicked else Storing).(count := s.count + 1) else At(s, i, Reading)
    case Storing =>
      if c.entity in s.slots then At(s, i, Returning(s.slots[c.entity]))
      else At(s, i, Done(Fresh(i), Won)).(slots := s.slots[c.entity := Fresh(i)])
    case Returning(winner) => At(s, i, Done(winner, Lost)).(count := s.count - 1)
    case Done(_, _) => s
    case Refused => s
    case Panicked => s
  }

  /** A schedule names, step by step, the call that moves. */
  ghost predicate Schedule(s: Shape, sched: seq<nat>) {
    forall k :: 0 <= k < |sched| ==> sched[k] < |s.calls|
  }

  ghost function Run(s: Shape, sched: seq<nat>): (s': Shape)
    requires Schedule(s, sched)
    ensures |s'.calls| == |s.calls| && s'.cap == s.cap
    decreases |sched|
  {
    if sched == [] then s else Run(Step(s, sched[0]), sched[1..])
  }

  // ---- reservations ----

  /** Reservations taken and not yet settled. */
  function Owes(c: Call): nat {
    if c.pc.Storing? || c.pc.Returning? then 1 else 0
  }

  /** A reservation nobody will ever settle, because the factory panicked. */
  function Strands(c: Call): nat {
    if c.pc.Panicked? then 1 else 0
  }

  ghost predicate Reserved(s: Shape) {
    && s.count == |s.slots| + Total(s.calls, Owes) + Total(s.calls, Strands)
    && (forall i :: 0 <= i < |s.calls| && s.calls[i].pc.Panicked? ==> s.calls[i].panics)
    && s.count <= s.cap
    && (forall i :: 0 <= i < |s.calls| && s.calls[i].pc.Swapping? ==> s.calls[i].pc.seen < s.cap)
  }

  /** The outcome of one call names the one slot of its entity. */
  ghost predicate NamesItsSlot(c: Call, slots: map<Entity, Slot>) {
    match c.pc
    case Returning(w) => c.entity in slots && slots[c.entity] == w
    case Done(w, _) => c.entity in slots && slots[c.entity] == w
    case _ => true
  }

  /**
   * Every outcome names the one slot its entity has, and a fresh slot is in the
   * map only if the call that made it won.
   */
  ghost predicate OneSlotEach(s: Shape) {
    && (forall i :: 0 <= i < |s.calls| ==> NamesItsSlot(s.calls[i], s.slots))
    && (forall e :: e in s.slots && s.slots[e].Fresh? ==>
          var k := s.slots[e].call;
          k < |s.calls| && s.calls[k].entity == e && s.calls[k].pc == Done(Fresh(k), Won))
  }

  /** A step changes the counter as it changes the slots and what its call owes. */
  lemma StepOwes(s: Shape, i: nat)
    requires i < |s.calls|
    ensures var s' := Step(s, i);
            && s'.calls == s.calls[i := s'.calls[i]]
            && s'.count - s.count == |s'.slots| - |s.slots| + Owes(s'.calls[i]) - Owes(s.calls[i])
                                     + Strands(s'.calls[i]) - Strands(s.calls[i])
  {
    var s', c := Step(s, i), s.calls[i];
    if c.pc.Storing? && c.entity !in s.slots {
      assert s'.slots.Keys == s.slots.Keys + {c.entity};
    } else {
      assert s'.slots == s.slots;
    }
  }

  lemma StepReserves(s: Shape, i: nat)
    requires i < |s.calls| && Reserved(s)
    ensures Reserved(Step(s, i))
  {
    var s' := Step(s, i);
    StepOwes(s, i);
    TotalUpdate(s.calls, i, s'.calls[i], Owes);
    TotalUpdate(s.calls, i, s'.calls[i], Strands);
  }

  lemma StepKeepsSlots(s: Shape, i: nat)
    requires i < |s.calls| && OneSlotEach(s)
    ensures OneSlotEach(Step(s, i))
    ensures forall e :: e in s.slots ==> e in Step(s, i).slots && Step(s, i).slots[e] == s.slots[e]
  {
    var s' := Step(s, i);
    assert s'.slots == s.slots || (s.calls[i].entity !in s.slots && s'.slots == s.slots[s.calls[i].entity := Fresh(i)]);
    StepKeepsEntities(s, i);
    assert NamesItsSlot(s.calls[i], s.slots);
    assert NamesItsSlot(s'.calls[i], s'.slots);
  }

  /** The slot a call is about to store is not out yet. */
  lemma NotOutYet(s: Shape, i: nat)
    requires i < |s.calls| && OneSlotEach(s) && s.calls[i].pc.Storing?
    ensures forall e :: e in s.slots ==> s.slots[e] != Fresh(i)
    ensures forall j :: 0 <= j < |s.calls| && s.calls[j].pc.Done? ==> s.calls[j].pc.slot != Fresh(i)
    ensures forall j :: 0 <= j < |s.calls| && s.calls[j].pc.Returning? ==> s.calls[j].pc.winner != Fresh(i)
  {
  }

  /** The state no call has begun in: whatever slots there are, the counter counts them. */
  ghost predicate NoneBegun(s: Shape) {
    && s.count == |s.slots| <= s.cap
    && (forall i :: 0 <= i < |s.calls| ==> s.calls[i].pc == Start && s.calls[i].rounds == 0)
    && (forall e :: e in s.slots ==> s.slots[e].Prior?)
  }

  lemma StepKeeps(s: Shape, i: nat)
    requires i < |s.calls| && Reserved(s) && OneSlotEach(s)
    ensures Reserved(Step(s, i)) && OneSlotEach(Step(s, i))
    ensures forall e :: e in s.slots ==> e in Step(s, i).slots && Step(s, i).slots[e] == s.slots[e]
  {
    StepReserves(s, i);
    StepKeepsSlots(s, i);
  }

  lemma {:induction false} RunKeeps(s: Shape, sched: seq<nat>)
    requires Schedule(s, sched) && Reserved(s) && OneSlotEach(s)
    ensures Reserved(Run(s, sched)) && OneSlotEach(Run(s, sched))
    ensures forall e :: e in s.slots ==> e in Run(s, sched).slots && Run(s, sched).slots[e] == s.slots[e]
    decreases |sched|
  {
    if sched != [] {
      StepKeeps(s, sched[0]);
      RunKeeps(Step(s, sched[0]), sched[1..]);
    }
  }

  lemma StartKeeps(s: Shape)
    requires NoneBegun(s)
    ensures Reserved(s) && OneSlotEach(s)
  {
    TotalConst(s.calls, Owes, 0);
    TotalConst(s.calls, Strands, 0);
  }

  /**
   * Under every interleaving of any number of calls: the counter is the slots
   * stored plus the reservations outstanding plus those a panicking factory has
   * stranded, and never passes the cap; no slot is ever removed or replaced; with
   * no call in progress it counts the slots and the stranded places, and only
   * the slots if no factory panicked.
   */
  lemma ReservationInvariant(s: Shape, sched: seq<nat>)
    requires NoneBegun(s) && Schedule(s, sched)
    ensures var s' := Run(s, sched);
            && s'.count == |s'.slots| + Total(s'.calls, Owes) + Total(s'.calls, Strands) <= s'.cap
            && |s'.slots| <= s'.cap
            && (forall e :: e in s.slots ==> e in s'.slots && s'.slots[e] == s.slots[e])
            && ((forall i :: 0 <= i < |s'.calls| ==> Finished(s'.calls[i]) || s'.calls[i].pc.Start?) ==>
                  s'.count == |s'.slots| + Total(s'.calls, Strands))
            && ((forall i :: 0 <= i < |s'.calls| ==> !s'.calls[i].panics) ==> Total(s'.calls, Strands) == 0)
  {
    StartKeeps(s);
    RunKeeps(s, sched);
    var s' := Run(s, sched);
    if forall i :: 0 <= i < |s'.calls| ==> Finished(s'.calls[i]) || s'.calls[i].pc.Start? {
      TotalConst(s'.calls, Owes, 0);
    }
    if forall i :: 0 <= i < |s'.calls| ==> !s'.calls[i].panics {
      TotalConst(s'.calls, Strands, 0);
    }
  }

  /**
   * Slot identity: two calls for one entity that both succeed hold the same
   * slot, the slot the map has and keeps, and calls for different entities never
   * share a freshly allocated one. A slot that lost its race is never returned.
   */
  lemma SlotIdentity(s: Shape, sched: seq<nat>, i: nat, j: nat)
    requires NoneBegun(s) && Schedule(s, sched) && i < |s.calls| && j < |s.calls|
    requires Run(s, sched).calls[i].pc.Done? && Run(s, sched).calls[j].pc.Done?
    ensures var s' := Run(s, sched);
            var (a, b) := (s'.calls[i], s'.calls[j]);
            && a.entity in s'.slots && s'.slots[a.entity] == a.pc.slot
            && (a.entity == b.entity ==> a.pc.slot == b.pc.slot)
            && (a.pc.slot.Fresh? && a.pc.slot == b.pc.slot ==> a.entity == b.entity)
            && (a.pc.slot.Fresh? ==> a.pc.slot.call < |s'.calls| && s'.calls[a.pc.slot.call].pc == Done(a.pc.slot, Won))
  {
    StartKeeps(s);
    RunKeeps(s, sched);
  }

  // ---- refusals ----

  /** At step k of the schedule, call i reads a full counter. */
  ghost predicate ReadsFull(s: Shape, sched: seq<nat>, k: nat, i: nat)
    requires Schedule(s, sched) && k < |sched| && i < |s.calls|
  {
    && sched[k] == i
    && var t := Run(s, sched[..k]);
       t.calls[i].pc.Reading? && t.count == t.cap
  }

  lemma ReadsFullLater(s: Shape, sched: seq<nat>, k: nat, i: nat)
    requires Schedule(s, sched) && 0 < k < |sched| && i < |s.calls|
    ensures ReadsFull(s, sched, k, i) <==> ReadsFull(Step(s, sched[0]), sched[1..], k - 1, i)
  {
    assert sched[..k][1..] == sched[1..][..k - 1];
  }

  lemma StaysFinished(s: Shape, j: nat, i: nat)
    requires i < |s.calls| && j < |s.calls| && s.calls[i].pc.Refused?
    ensures Step(s, j).calls[i] == s.calls[i]
  {
  }

  lemma {:induction false} StaysRefused(s: Shape, sched: seq<nat>, i: nat)
    requires Schedule(s, sched) && i < |s.calls| && s.calls[i].pc.Refused?
    ensures Run(s, sched).calls[i].pc.Refused?
    decreases |sched|
  {
    if sched != [] {
      StaysFinished(s, sched[0], i);
      StaysRefused(Step(s, sched[0]), sched[1..], i);
    }
  }

  lemma StepRefuses(s: Shape, j: nat, i: nat)
    requires j < |s.calls| && i < |s.calls| && Reserved(s) && !s.calls[i].pc.Refused?
    ensures Step(s, j).calls[i].pc.Refused? <==> j == i && s.calls[i].pc.Reading? && s.count == s.cap
  {
  }

  /**
   * Over every run, a call is refused exactly when at some moment it had missed
   * its entity and then read a counter equal to the cap.
   */
  lemma {:induction false} RefusedIffReadFull(s: Shape, sched: seq<nat>, i: nat)
    requires Schedule(s, sched) && i < |s.calls| && Reserved(s) && !s.calls[i].pc.Refused?
    ensures Run(s, sched).calls[i].pc.Refused? <==> exists k :: 0 <= k < |sched| && ReadsFull(s, sched, k, i)
    decreases |sched|
  {
    if sched != [] {
      var s1 := Step(s, sched[0]);
      StepReserves(s, sched[0]);
      StepRefuses(s, sched[0], i);
      assert ReadsFull(s, sched, 0, i) <==> s1.calls[i].pc.Refused?;
      if s1.calls[i].pc.Refused? {
        StaysRefused(s1, sched[1..], i);
      } else {
        RefusedIffReadFull(s1, sched[1..], i);
        forall k | 0 < k < |sched|
          ensures ReadsFull(s, sched, k, i) <==> ReadsFull(s1, sched[1..], k - 1, i)
        {
          ReadsFullLater(s, sched, k, i);
        }
        if k :| 0 <= k < |sched| - 1 && ReadsFull(s1, sched[1..], k, i) {
          assert ReadsFull(s, sched, k + 1, i);
        }
      }
    }
  }

  /** Has this call, if it has moved at all, found w at its first load? */
  predicate NotYetOrHit(c: Call, w: Slot) {
    c.pc == Start || c.pc == Done(w, Hit)
  }

  lemma StepLate(s: Shape, j: nat, i: nat, w: Slot)
    requires j < |s.calls| && i < |s.calls| && NotYetOrHit(s.calls[i], w)
    requires s.calls[i].entity in s.slots && s.slots[s.calls[i].entity] == w
    ensures NotYetOrHit(Step(s, j).calls[i], w) && Step(s, j).calls[i].entity == s.calls[i].entity
    ensures s.calls[i].entity in Step(s, j).slots && Step(s, j).slots[s.calls[i].entity] == w
  {
  }

  /** A call that begins once its entity has a slot is never refused, whatever the counter and the other calls do. */
  lemma {:induction false} LateCallsAlwaysFind(s: Shape, sched: seq<nat>, i: nat, w: Slot)
    requires Schedule(s, sched) && i < |s.calls| && NotYetOrHit(s.calls[i], w)
    requires s.calls[i].entity in s.slots && s.slots[s.calls[i].entity] == w
    ensures NotYetOrHit(Run(s, sched).calls[i], w)
    decreases |sched|
  {
    if sched != [] {
      StepLate(s, sched[0], i, w);
      LateCallsAlwaysFind(Step(s, sched[0]), sched[1..], i, w);
    }
  }

  /** Running a schedule one step further. */
  lemma {:induction false} RunSnoc(s: Shape, sched: seq<nat>, i: nat)
    requires Schedule(s, sched) && i < |s.calls|
    ensures Schedule(s, sched + [i]) && Run(s, sched + [i]) == Step(Run(s, sched), i)
    decreases |sched|
  {
    if sched == [] {
      assert ([] + [i])[1..] == [];
    } else {
      RunSnoc(Step(s, sched[0]), sched[1..], i);
      assert (sched + [i])[1..] == sched[1..] + [i];
    }
  }

  // ---- one call alone ----

  /** Only call i moves. */
  ghost predicate Solo(s: Shape, i: nat, sched: seq<nat>) {
    i < |s.calls| && forall k :: 0 <= k < |sched| ==> sched[k] == i
  }

  /** How far an uninterrupted call has come, given the slots and the counter it began with. */
  ghost predicate Alone(s: Shape, i: nat, slots: map<Entity, Slot>, count: int)
    requires i < |s.calls|
  {
    var e := s.calls[i].entity;
    match s.calls[i].pc
    case Start => s.slots == slots && s.count == count
    case Reading => e !in slots && s.slots == slots && s.count == count
    case Swapping(seen) => e !in slots && s.slots == slots && s.count == count == seen < s.cap
    case Storing => e !in slots && s.slots == slots && s.count == count + 1 <= s.cap && !s.calls[i].panics
    case Returning(_) => false
    case Done(w, how) =>
      if e in slots then s.slots == slots && s.count == count && w == slots[e] && how == Hit
      else s.slots == slots[e := Fresh(i)] && s.count == count + 1 <= s.cap && w == Fresh(i) && how == Won && !s.calls[i].panics
    case Refused => e !in slots && s.slots == slots && s.count == count == s.cap
    case Panicked => e !in slots && s.slots == slots && s.count == count + 1 <= s.cap && s.calls[i].panics
  }

  lemma {:induction false} RunAlone(s: Shape, i: nat, sched: seq<nat>, slots: map<Entity, Slot>, count: int)
    requires Solo(s, i, sched) && Alone(s, i, slots, count) && s.count <= s.cap
    ensures Alone(Run(s, sched), i, slots, count) && Run(s, sched).calls[i].entity == s.calls[i].entity
    ensures Run(s, sched).calls[i].panics == s.calls[i].panics
    decreases |sched|
  {
    if sched != [] {
      RunAlone(Step(s, i), i, sched[1..], slots, count);
    }
  }

  /**
   * A call that runs while all others stand still, wherever they stand, finds
   * its slot, is refused at a full counter, strands a place if its factory
   * panics, or stores a fresh slot; it never has to give its reservation back.
   */
  lemma SoloOutcome(s: Shape, i: nat, sched: seq<nat>)
    requires Solo(s, i, sched) && s.calls[i].pc.Start? && Reserved(s) && Finished(Run(s, sched).calls[i])
    ensures var (s', e) := (Run(s, sched), s.calls[i].entity);
            if e in s.slots then s'.calls[i].pc == Done(s.slots[e], Hit) && s'.slots == s.slots && s'.count == s.count
            else if s.count == s.cap then s'.calls[i].pc == Refused && s'.slots == s.slots && s'.count == s.count
            else if s.calls[i].panics then s'.calls[i].pc == Panicked && s'.slots == s.slots && s'.count == s.count + 1
            else s'.calls[i].pc == Done(Fresh(i), Won) && s'.slots == s.slots[e := Fresh(i)] && s'.count == s.count + 1
  {
    RunAlone(s, i, sched, s.slots, s.count);
  }

  /** Running a schedule one step further back. */
  lemma RunCons(s: Shape, i: nat, s1: Shape, rest: seq<nat>, s': Shape)
    requires i < |s.calls| && s1 == Step(s, i) && Schedule(s1, rest) && Run(s1, rest) == s'
    ensures Schedule(s, [i] + rest) && Run(s, [i] + rest) == s'
  {
    assert ([i] + rest)[1..] == rest;
  }

  /** Call 0 reserves the only place and stores; call 1, which had missed the entity before, then reads a full counter. */
  lemma RaceTail(c: Call) returns (s: Shape, s': Shape)
    requires c == Call("a", Reading, false, 0)
    ensures s == Shape(1, 0, map[], [c, c]) && Schedule(s, [0, 0, 0, 1]) && Run(s, [0, 0, 0, 1]) == s'
    ensures "a" in s'.slots && s'.calls[1].pc == Refused
  {
    s := Shape(1, 0, map[], [c, c]);
    var s3 := Shape(1, 0, map[], [Call("a", Swapping(0), false, 1), c]);
    var s4 := Shape(1, 1, map[], [Call("a", Storing, false, 1), c]);
    var s5 := Shape(1, 1, map["a" := Fresh(0)], [Call("a", Done(Fresh(0), Won), false, 1), c]);
    s' := Shape(1, 1, map["a" := Fresh(0)], [Call("a", Done(Fresh(0), Won), false, 1), Call("a", Refused, false, 1)]);
    RunCons(s5, 1, s', [], s');
    RunCons(s4, 0, s5, [1], s');
    RunCons(s3, 0, s4, [0, 1], s');
    RunCons(s, 0, s3, [0, 0, 1], s');
  }

  /** Two calls race for one entity with one place left: one is refused although its entity has a slot by then. */
  lemma RaceCanRefuseAnExistingEntity() returns (s: Shape, sched: seq<nat>)
    ensures NoneBegun(s) && s.cap == 1 && s.calls == [Call("a", Start, false, 0), Call("a", Start, false, 0)] && Schedule(s, sched)
    ensures "a" in Run(s, sched).slots && Run(s, sched).calls[1].pc == Refused
  {
    s := Shape(1, 0, map[], [Call("a", Start, false, 0), Call("a", Start, false, 0)]);
    var s1 := Shape(1, 0, map[], [Call("a", Reading, false, 0), Call("a", Start, false, 0)]);
    var s2, s' := RaceTail(Call("a", Reading, false, 0));
    RunCons(s1, 1, s2, [0, 0, 0, 1], s');
    RunCons(s, 0, s1, [1, 0, 0, 0, 1], s');
    sched := [0] + [1, 0, 0, 0, 1];
  }

  // ---- distinct absent entities ----

  ghost predicate DistinctEntities(s: Shape) {
    forall i, j :: 0 <= i < j < |s.calls| ==> s.calls[i].entity != s.calls[j].entity
  }

  /** Has this call taken a place for good, or is about to? */
  function Takes(c: Call): nat {
    if c.pc.Storing? || c.pc.Panicked? || (c.pc.Done? && c.pc.how.Won?) then 1 else 0
  }

  /** With distinct entities nobody loses a race, the counter only grows, and a refusal means it is full. */
  ghost predicate NoRaces(s: Shape, base: nat) {
    && DistinctEntities(s)
    && (forall i :: 0 <= i < |s.calls| ==> !s.calls[i].pc.Returning? && (s.calls[i].pc.Done? ==> s.calls[i].pc.how.Won?))
    && (forall i :: 0 <= i < |s.calls| && s.calls[i].entity in s.slots ==> s.slots[s.calls[i].entity].Fresh?)
    && s.count == base + Total(s.calls, Takes)
    && (forall i :: 0 <= i < |s.calls| && s.calls[i].pc.Refused? ==> s.count == s.cap)
  }

  lemma OwnSlotOnly(s: Shape, i: nat, base: nat)
    requires i < |s.calls| && NoRaces(s, base) && OneSlotEach(s) && !s.calls[i].pc.Done?
    ensures s.calls[i].entity !in s.slots
  {
  }

  /** Entities stay put, so distinct entities stay distinct. */
  lemma StepKeepsEntities(s: Shape, i: nat)
    requires i < |s.calls|
    ensures |Step(s, i).calls| == |s.calls|
    ensures forall j :: 0 <= j < |s.calls| ==> Step(s, i).calls[j].entity == s.calls[j].entity
    ensures forall j :: 0 <= j < |s.calls| && j != i ==> Step(s, i).calls[j] == s.calls[j]
    ensures Step(s, i).calls == s.calls[i := Step(s, i).calls[i]]
  {
  }

  lemma StepDistinct(s: Shape, i: nat)
    requires i < |s.calls| && DistinctEntities(s)
    ensures DistinctEntities(Step(s, i))
  {
    StepKeepsEntities(s, i);
  }

  /** What a step of one call does to the counter is what it does to that call's claim. */
  lemma StepTakes(s: Shape, i: nat, base: nat)
    requires i < |s.calls| && NoRaces(s, base) && OneSlotEach(s) && Reserved(s)
    ensures Step(s, i).count - s.count == Takes(Step(s, i).calls[i]) - Takes(s.calls[i]) >= 0
  {
    if !s.calls[i].pc.Done? {
      OwnSlotOnly(s, i, base);
    }
  }

  lemma StepCounts(s: Shape, i: nat, base: nat)
    requires i < |s.calls| && NoRaces(s, base) && OneSlotEach(s) && Reserved(s)
    ensures Step(s, i).count == base + Total(Step(s, i).calls, Takes)
    ensures s.count <= Step(s, i).count
  {
    var c' := Step(s, i).calls[i];
    StepTakes(s, i, base);
    TotalUpdate(s.calls, i, c', Takes);
    StepKeepsEntities(s, i);
  }

  /** The moving call does not lose, and if it is refused the counter is full. */
  lemma StepOfOne(s: Shape, i: nat, base: nat)
    requires i < |s.calls| && NoRaces(s, base) && OneSlotEach(s) && Reserved(s)
    ensures var (c, s') := (Step(s, i).calls[i], Step(s, i));
            && !c.pc.Returning? && (c.pc.Done? ==> c.pc.how.Won?)
            && (c.pc.Refused? ==> s'.count == s.cap)
            && (forall e :: e in s'.slots && e !in s.slots ==> s'.slots[e].Fresh?)
            && (forall e :: e in s.slots ==> e in s'.slots && s'.slots[e] == s.slots[e])
  {
    if !s.calls[i].pc.Done? {
      OwnSlotOnly(s, i, base);
    }
  }

  lemma NoRacesFrom(s: Shape, s': Shape, i: nat, base: nat)
    requires i < |s.calls| == |s'.calls| && s'.calls == s.calls[i := s'.calls[i]] && NoRaces(s, base) && DistinctEntities(s')
    requires s.count <= s'.count == base + Total(s'.calls, Takes) && s'.count <= s'.cap == s.cap
    requires forall j :: 0 <= j < |s.calls| ==> s'.calls[j].entity == s.calls[j].entity
    requires forall e :: e in s'.slots && e !in s.slots ==> s'.slots[e].Fresh?
    requires forall e :: e in s.slots ==> e in s'.slots && s'.slots[e] == s.slots[e]
    requires var c := s'.calls[i];
             !c.pc.Returning? && (c.pc.Done? ==> c.pc.how.Won?) && (c.pc.Refused? ==> s'.count == s.cap)
    ensures NoRaces(s', base)
  {
  }

  lemma StepNoRaces(s: Shape, i: nat, base: nat)
    requires i < |s.calls| && NoRaces(s, base) && OneSlotEach(s) && Reserved(s)
    ensures NoRaces(Step(s, i), base)
  {
    StepKeepsEntities(s, i);
    StepDistinct(s, i);
    StepCounts(s, i, base);
    StepReserves(s, i);
    StepOfOne(s, i, base);
    NoRacesFrom(s, Step(s, i), i, base);
  }

  lemma {:induction false} RunNoRaces(s: Shape, sched: seq<nat>, base: nat)
    requires Schedule(s, sched) && NoRaces(s, base) && OneSlotEach(s) && Reserved(s)
    ensures NoRaces(Run(s, sched), base)
    decreases |sched|
  {
    if sched != [] {
      StepKeeps(s, sched[0]);
      StepNoRaces(s, sched[0], base);
      RunNoRaces(Step(s, sched[0]), sched[1..], base);
    }
  }

  function Succeeded(c: Call): nat {
    if c.pc.Done? then 1 else 0
  }

  /**
   * N concurrent calls for pairwise different entities that have no slot yet:
   * once all have finished, exactly min(room, N) hold a slot or lost theirs to a
   * panicking factory, and the rest were refused, where room is what the cap
   * leaves beside the slots already there.
   */
  lemma ExactlyRoomSucceed(s: Shape, sched: seq<nat>)
    requires NoneBegun(s) && DistinctEntities(s) && Schedule(s, sched)
    requires forall i :: 0 <= i < |s.calls| ==> s.calls[i].entity !in s.slots
    requires forall i :: 0 <= i < |s.calls| ==> Finished(Run(s, sched).calls[i])
    ensures var n, room := |s.calls|, s.cap - |s.slots|;
            Total(Run(s, sched).calls, Succeeded) + Total(Run(s, sched).calls, Strands) == (if n <= room then n else room)
  {
    var base := |s.slots|;
    StartKeeps(s);
    TotalConst(s.calls, Takes, 0);
    RunKeeps(s, sched);
    RunNoRaces(s, sched, base);
    var s' := Run(s, sched);
    var n := |s'.calls|;
    TotalPlus(s'.calls, Succeeded, Strands, Takes);
    if i :| 0 <= i < n && s'.calls[i].pc.Refused? {
      // Somebody was refused: the counter is full, and at least one call holds nothing.
      TotalMissesOne(s'.calls, Takes, i);
    } else {
      TotalConst(s'.calls, Takes, 1);
    }
  }

  lemma TotalMissesOne(calls: seq<Call>, f: Call -> nat, i: nat)
    requires i < |calls| && f(calls[i]) == 0 && forall j :: 0 <= j < |calls| ==> f(calls[j]) <= 1
    ensures Total(calls, f) < |calls|
  {
    var miss := (c: Call) => if f(c) == 0 then 1 else 0;
    var one := (c: Call) => 1;
    TotalPlus(calls, f, miss, one);
    TotalConst(calls, one, 1);
    TotalAtLeast(calls, i, miss);
  }
}
