// The per-message pipelines of dispatch.go, stream.go and note.go: which
// counters move and which effects happen, in which order, and what the counters
// add up to over any number of concurrent deliveries.
module Dispatch {
  import opened Wrappers

  datatype Counter =
    | DecodeFailures | ExtractionFailures | AwarenessPanics
    | IgnoredVerdicts | NotesDelivered | ThinksDispatched | NakTotal

  /** Zero is the verdict whose kind is none of the three, which only Go's zero value has. */
  datatype Verdict<+P> = Zero | Ignore | Note(payload: P) | Think(reason: P, entity: Entity)

  datatype Awareness<+P> = Decides(verdict: Verdict<P>) | Panics

  datatype Hook = NoHook | Returns | HookPanics

  /** What the user's callbacks do with one message. */
  datatype Message<+P> = Message(decodes: bool, extracts: bool, entity: Entity, awareness: Awareness<P>, hook: Hook)

  /** Consult is the call of awareness, Deliver of the note hook, Launch of a think. */
  datatype Effect<+P> =
    | Bump(counter: Counter) | Consult(entity: Entity) | Ack | Nak
    | Deliver(entity: Entity, payload: P) | Launch(reason: P, entity: Entity)

  datatype Outcome = OK | DecodeFail | ExtractFail | AwarenessPanic

  // ---- specification ----

  /** How far a message gets before a verdict is acted on. */
  function Verdicts<P>(m: Message<P>): Outcome {
    if !m.decodes then DecodeFail
    else if !m.extracts || m.entity == "" then ExtractFail
    else if m.awareness.Panics? then AwarenessPanic
    else OK
  }

  function FailureOf(o: Outcome): Counter
    requires o != OK
  {
    match o
    case DecodeFail => DecodeFailures
    case ExtractFail => ExtractionFailures
    case AwarenessPanic => AwarenessPanics
  }

  /** A message that reaches awareness: it decodes and names an entity. */
  predicate Admitted<P>(m: Message<P>) {
    m.decodes && m.extracts && m.entity != ""
  }

  /** What acting on a verdict does. */
  function Acting<P>(m: Message<P>): seq<Effect<P>>
    requires Verdicts(m) == OK
  {
    match m.awareness.verdict
    case Zero => []
    case Ignore => [Bump(IgnoredVerdicts)]
    case Note(p) =>
      [Bump(NotesDelivered)]
      + (if m.hook.NoHook? then [] else [Deliver(m.entity, p)])
      + (if m.hook.HookPanics? then [Bump(AwarenessPanics)] else [])
    case Think(r, e) => [Bump(ThinksDispatched), Launch(r, e)]
  }

  function Consulted<P>(m: Message<P>): seq<Effect<P>> {
    if Verdicts(m) == OK || Verdicts(m) == AwarenessPanic then [Consult(m.entity)] else []
  }

  function SubjectEffects<P>(m: Message<P>): seq<Effect<P>> {
    Consulted(m) + if Verdicts(m) == OK then Acting(m) else [Bump(FailureOf(Verdicts(m)))]
  }

  function StreamEffects<P>(m: Message<P>): seq<Effect<P>> {
    Consulted(m)
    + if Verdicts(m) == OK then [Ack] + Acting(m)
      else [Bump(FailureOf(Verdicts(m))), Bump(NakTotal), Nak]
  }

  // ---- counting effects ----

  function Is<P(==)>(e: Effect<P>): Effect<P> -> nat {
    (x: Effect<P>) => if x == e then 1 else 0
  }

  ghost function Count<P>(trace: seq<Effect<P>>, e: Effect<P>): nat {
    Total(trace, Is(e))
  }

  lemma CountAppend<P>(a: seq<Effect<P>>, x: Effect<P>)
    ensures forall e: Effect<P> :: Count(a + [x], e) == Count(a, e) + if x == e then 1 else 0
  {
    forall e: Effect<P>
      ensures Count(a + [x], e) == Count(a, e) + if x == e then 1 else 0
    {
      TotalConcat(a, [x], Is(e));
      TotalOne(x, Is(e));
    }
  }

  // ---- the implementation ----

  class Imp<P> {
    var decodeFailures: nat
    var extractionFailures: nat
    var awarenessPanics: nat
    var ignoredVerdicts: nat
    var notesDelivered: nat
    var thinksDispatched: nat
    var nakTotal: nat
    ghost var trace: seq<Effect<P>>

    /** The counters are what the effects so far say. */
    ghost predicate Valid()
      reads this
    {
      && decodeFailures == Count(trace, Bump(DecodeFailures))
      && extractionFailures == Count(trace, Bump(ExtractionFailures))
      && awarenessPanics == Count(trace, Bump(AwarenessPanics))
      && ignoredVerdicts == Count(trace, Bump(IgnoredVerdicts))
      && notesDelivered == Count(trace, Bump(NotesDelivered))
      && thinksDispatched == Count(trace, Bump(ThinksDispatched))
      && nakTotal == Count(trace, Bump(NakTotal))
    }

    constructor ()
      ensures Valid() && trace == []
    {
      decodeFailures, extractionFailures, awarenessPanics := 0, 0, 0;
      ignoredVerdicts, notesDelivered, thinksDispatched, nakTotal := 0, 0, 0, 0;
      trace := [];
    }

    method Add(c: Counter)
      requires Valid()
      modifies this
      ensures Valid() && trace == old(trace) + [Bump(c)]
    {
      match c {
        case DecodeFailures => decodeFailures := decodeFailures + 1;
        case ExtractionFailures => extractionFailures := extractionFailures + 1;
        case AwarenessPanics => awarenessPanics := awarenessPanics + 1;
        case IgnoredVerdicts => ignoredVerdicts := ignoredVerdicts + 1;
        case NotesDelivered => notesDelivered := notesDelivered + 1;
        case ThinksDispatched => thinksDispatched := thinksDispatched + 1;
        case NakTotal => nakTotal := nakTotal + 1;
      }
      CountAppend(trace, Bump(c));
      trace := trace + [Bump(c)];
    }

    /** An effect outside the harness: it moves no counter. */
    method Emit(e: Effect<P>)
      requires Valid() && !e.Bump?
      modifies this
      ensures Valid() && trace == old(trace) + [e]
    {
      CountAppend(trace, e);
      trace := trace + [e];
    }

    /** safeAwareness: a panic is reported, not propagated. */
    method SafeAwareness(m: Message<P>) returns (v: Verdict<P>, panicked: bool)
      requires Valid()
      modifies this
      ensures Valid() && trace == old(trace) + [Consult(m.entity)]
      ensures panicked <==> m.awareness.Panics?
      ensures !panicked ==> v == m.awareness.verdict
    {
      v := Zero;
      Emit(Consult(m.entity));
      match m.awareness {
        case Decides(verdict) => v, panicked := verdict, false;
        case Panics => panicked := true;
      }
    }

    /** invokeNote: no hook drops the payload, a panicking hook counts as an awareness panic. */
    method InvokeNote(m: Message<P>, payload: P)
      requires Valid()
      modifies this
      ensures Valid()
      ensures trace == old(trace) + (if m.hook.NoHook? then [] else [Deliver(m.entity, payload)])
                                  + (if m.hook.HookPanics? then [Bump(AwarenessPanics)] else [])
    {
      if m.hook.NoHook? { return; }
      Emit(Deliver(m.entity, payload));
      if m.hook.HookPanics? { Add(AwarenessPanics); }
    }

    method Act(m: Message<P>, v: Verdict<P>)
      requires Valid() && Verdicts(m) == OK && v == m.awareness.verdict
      modifies this
      ensures Valid() && trace == old(trace) + Acting(m)
    {
      match v {
        case Zero =>
        case Ignore =>
          Add(IgnoredVerdicts);
        case Note(p) =>
          Add(NotesDelivered);
          InvokeNote(m, p);
        case Think(r, e) =>
          Add(ThinksDispatched);
          Emit(Launch(r, e));
      }
    }

    /** dispatch. */
    method Dispatch(m: Message<P>) returns (o: Outcome)
      requires Valid()
      modifies this
      ensures Valid() && trace == old(trace) + SubjectEffects(m)
      ensures o == DecodeFail <==> !m.decodes
      ensures o == ExtractFail <==> m.decodes && (!m.extracts || m.entity == "")
      ensures o == AwarenessPanic <==> Admitted(m) && m.awareness.Panics?
    {
      if !m.decodes { Add(DecodeFailures); return DecodeFail; }
      if !m.extracts || m.entity == "" { Add(ExtractionFailures); return ExtractFail; }
      var v, panicked := SafeAwareness(m);
      if panicked { Add(AwarenessPanics); return AwarenessPanic; }
      Act(m, v);
      return OK;
    }

    /** A failure before the ack: counted, counted as a nak, and naked. */
    method Refuse(c: Counter)
      requires Valid()
      modifies this
      ensures Valid() && trace == old(trace) + [Bump(c), Bump(NakTotal), Nak]
    {
      Add(c);
      Add(NakTotal);
      Emit(Nak);
    }

    /** dispatchStream. */
    method DispatchStream(m: Message<P>)
      requires Valid()
      modifies this
      ensures Valid() && trace == old(trace) + StreamEffects(m)
    {
      if !m.decodes { Refuse(DecodeFailures); return; }
      if !m.extracts || m.entity == "" { Refuse(ExtractionFailures); return; }
      var v, panicked := SafeAwareness(m);
      if panicked { Refuse(AwarenessPanics); return; }
      Emit(Ack);
      Act(m, v);
    }
  }

  // ---- one message ----

  /** Acknowledgements, refusals and their counter. */
  predicate AckSide<P>(e: Effect<P>) {
    e.Ack? || e.Nak? || e == Bump(NakTotal)
  }

  function Erase<P>(trace: seq<Effect<P>>): seq<Effect<P>> {
    if trace == [] then [] else (if AckSide(trace[0]) then [] else [trace[0]]) + Erase(trace[1..])
  }

  lemma {:induction false} EraseAppend<P>(a: seq<Effect<P>>, b: seq<Effect<P>>)
    ensures Erase(a + b) == Erase(a) + Erase(b)
  {
    if a == [] {
      assert a + b == b;
    } else {
      assert (a + b)[1..] == a[1..] + b;
      EraseAppend(a[1..], b);
    }
  }

  lemma {:induction false} EraseNothing<P>(a: seq<Effect<P>>)
    requires forall i :: 0 <= i < |a| ==> !AckSide(a[i])
    ensures Erase(a) == a
  {
    if a != [] {
      EraseNothing(a[1..]);
    }
  }

  lemma ErasePlans<P>(m: Message<P>)
    ensures Erase(Consulted(m)) == Consulted(m)
    ensures Verdicts(m) == OK ==> Erase(Acting(m)) == Acting(m)
    ensures Verdicts(m) == OK ==> Erase([Ack] + Acting(m)) == Acting(m)
  {
    EraseNothing(Consulted(m));
    if Verdicts(m) == OK {
      EraseNothing(Acting(m));
      assert ([Ack] + Acting(m))[1..] == Acting(m);
    }
  }

  lemma EraseNak<P>(c: Counter)
    requires c != NakTotal
    ensures var naked: seq<Effect<P>> := [Bump(c), Bump(NakTotal), Nak];
            Erase(naked) == [Bump(c)]
  {
    var naked: seq<Effect<P>> := [Bump(c), Bump(NakTotal), Nak];
    assert naked[1..] == [Bump(NakTotal), Nak];
    assert naked[1..][1..] == [Nak];
    assert naked[1..][1..][1..] == [];
    assert Erase(naked[1..][1..]) == [];
    assert Erase(naked[1..]) == [];
  }

  /** Leaving out acknowledgements, a stream delivery has exactly the effects of a subject message, in the same order. */
  lemma StreamIsSubjectPlusAcks<P>(m: Message<P>)
    ensures Erase(StreamEffects(m)) == SubjectEffects(m)
  {
    ErasePlans(m);
    if Verdicts(m) == OK {
      EraseAppend(Consulted(m), [Ack] + Acting(m));
    } else {
      var c := FailureOf(Verdicts(m));
      EraseNak<P>(c);
      EraseAppend(Consulted(m), [Bump(c), Bump(NakTotal), Nak]);
    }
  }

  /** The one acknowledgement of a stream delivery comes right after awareness returned, before its verdict is acted on. */
  lemma AckFollowsAwareness<P>(m: Message<P>)
    ensures Verdicts(m) == OK ==>
              StreamEffects(m) == [Consult(m.entity), Ack] + Acting(m) && forall e :: e in Acting(m) ==> !AckSide(e)
    ensures Verdicts(m) != OK ==> forall e :: e in StreamEffects(m) ==> !e.Ack? && !e.Deliver? && !e.Launch?
  {
  }

  // ---- any number of concurrent deliveries ----

  datatype Delivery<+P> = OnSubject(m: Message<P>) | OnStream(m: Message<P>)

  function EffectsOf<P>(d: Delivery<P>): seq<Effect<P>> {
    match d
    case OnSubject(m) => SubjectEffects(m)
    case OnStream(m) => StreamEffects(m)
  }

  /** Deliveries under way: what each has still to do, and everything done so far, in the order it happened, and by whom. */
  datatype Flight<+P> = Flight(todo: seq<seq<Effect<P>>>, trace: seq<Effect<P>>, who: seq<nat>)

  /** Delivery i performs its next effect, if it has one. */
  function Advance<P>(f: Flight<P>, i: nat): Flight<P>
    requires i < |f.todo|
  {
    if f.todo[i] == [] then f
    else Flight(f.todo[i := f.todo[i][1..]], f.trace + [f.todo[i][0]], f.who + [i])
  }

  ghost function Fly<P>(f: Flight<P>, sched: seq<nat>): (f': Flight<P>)
    requires forall k :: 0 <= k < |sched| ==> sched[k] < |f.todo|
    ensures |f'.todo| == |f.todo|
    decreases |sched|
  {
    if sched == [] then f else Fly(Advance(f, sched[0]), sched[1..])
  }

  /** A weight summed over a list of effects. */
  ghost function Weigh<P>(w: Effect<P> -> nat): seq<Effect<P>> -> nat {
    (p: seq<Effect<P>>) => Total(p, w)
  }

  lemma AdvanceConserves<P>(f: Flight<P>, i: nat, w: Effect<P> -> nat)
    requires i < |f.todo|
    ensures Total(Advance(f, i).trace, w) + Total(Advance(f, i).todo, Weigh(w)) == Total(f.trace, w) + Total(f.todo, Weigh(w))
  {
    if f.todo[i] != [] {
      var p := f.todo[i];
      TotalConcat(f.trace, [p[0]], w);
      TotalOne(p[0], w);
      TotalUpdate(f.todo, i, p[1..], Weigh(w));
    }
  }

  lemma {:induction false} FlyConserves<P>(f: Flight<P>, sched: seq<nat>, w: Effect<P> -> nat)
    requires forall k :: 0 <= k < |sched| ==> sched[k] < |f.todo|
    ensures Total(Fly(f, sched).trace, w) + Total(Fly(f, sched).todo, Weigh(w)) == Total(f.trace, w) + Total(f.todo, Weigh(w))
    decreases |sched|
  {
    if sched != [] {
      AdvanceConserves(f, sched[0], w);
      FlyConserves(Advance(f, sched[0]), sched[1..], w);
    }
  }

  ghost function Plans<P>(ds: seq<Delivery<P>>): (r: seq<seq<Effect<P>>>)
    ensures |r| == |ds|
  {
    if ds == [] then [] else [EffectsOf(ds[0])] + Plans(ds[1..])
  }

  /** All deliveries have been carried out, interleaved by sched, starting from nothing. */
  ghost predicate Completed<P>(ds: seq<Delivery<P>>, sched: seq<nat>, trace: seq<Effect<P>>) {
    && (forall k :: 0 <= k < |sched| ==> sched[k] < |ds|)
    && var f := Fly(Flight(Plans(ds), [], []), sched);
       f.trace == trace && forall i :: 0 <= i < |ds| ==> f.todo[i] == []
  }

  // ---- each delivery keeps its own order ----

  /** What delivery i has done, in order. */
  ghost function Own<P>(trace: seq<Effect<P>>, who: seq<nat>, i: nat): seq<Effect<P>>
    requires |trace| == |who|
  {
    if trace == [] then []
    else
      var n := |trace| - 1;
      Own(trace[..n], who[..n], i) + if who[n] == i then [trace[n]] else []
  }

  lemma AdvanceOwn<P>(f: Flight<P>, j: nat, i: nat)
    requires i < |f.todo| && j < |f.todo| && |f.trace| == |f.who|
    ensures var f' := Advance(f, j);
            |f'.trace| == |f'.who| && Own(f'.trace, f'.who, i) + f'.todo[i] == Own(f.trace, f.who, i) + f.todo[i]
  {
    var f' := Advance(f, j);
    if f.todo[j] != [] {
      var n := |f.trace|;
      assert f'.trace[..n] == f.trace && f'.who[..n] == f.who;
      if j == i {
        assert f.todo[i] == [f.todo[i][0]] + f.todo[i][1..];
      }
    }
  }

  lemma {:induction false} FlyOwn<P>(f: Flight<P>, sched: seq<nat>, i: nat)
    requires forall k :: 0 <= k < |sched| ==> sched[k] < |f.todo|
    requires i < |f.todo| && |f.trace| == |f.who|
    ensures var f' := Fly(f, sched);
            |f'.trace| == |f'.who| && Own(f'.trace, f'.who, i) + f'.todo[i] == Own(f.trace, f.who, i) + f.todo[i]
    decreases |sched|
  {
    if sched != [] {
      AdvanceOwn(f, sched[0], i);
      FlyOwn(Advance(f, sched[0]), sched[1..], i);
    }
  }

  lemma {:induction false} PlanAt<P>(ds: seq<Delivery<P>>, i: nat)
    requires i < |ds|
    ensures Plans(ds)[i] == EffectsOf(ds[i])
  {
    if i > 0 {
      PlanAt(ds[1..], i - 1);
    }
  }

  /** At every moment of every interleaving, what a delivery has done is the beginning of what it would do alone. */
  lemma OwnOrder<P>(ds: seq<Delivery<P>>, sched: seq<nat>, i: nat)
    requires i < |ds| && forall k :: 0 <= k < |sched| ==> sched[k] < |ds|
    ensures var f := Fly(Flight(Plans(ds), [], []), sched);
            |f.trace| == |f.who| && Own(f.trace, f.who, i) <= EffectsOf(ds[i])
  {
    var f := Fly(Flight(Plans(ds), [], []), sched);
    FlyOwn(Flight(Plans(ds), [], []), sched, i);
    PlanAt(ds, i);
    assert Own(f.trace, f.who, i) + f.todo[i] == [] + EffectsOf(ds[i]) == EffectsOf(ds[i]);
  }

  lemma PrefixOfPrefix<A>(a: seq<A>, b: seq<A>, c: seq<A>)
    requires a <= b && b <= c
    ensures a <= c
  {
    assert a == b[..|a|] == c[..|b|][..|a|] == c[..|a|];
  }

  lemma {:induction false} OwnPrefix<P>(trace: seq<Effect<P>>, who: seq<nat>, i: nat, k: nat)
    requires |trace| == |who| && k <= |trace|
    ensures Own(trace[..k], who[..k], i) <= Own(trace, who, i)
    decreases |trace|
  {
    var n := |trace| - 1;
    if k <= n {
      OwnPrefix(trace[..n], who[..n], i, k);
      assert trace[..n][..k] == trace[..k] && who[..n][..k] == who[..k];
      PrefixOfPrefix(Own(trace[..k], who[..k], i), Own(trace[..n], who[..n], i), Own(trace, who, i));
    } else {
      assert trace[..k] == trace && who[..k] == who;
    }
  }

  /** Where a delivery did the x-th thing it has done. */
  lemma {:induction false} OwnAt<P>(trace: seq<Effect<P>>, who: seq<nat>, i: nat, x: nat) returns (j: nat)
    requires |trace| == |who| && x < |Own(trace, who, i)|
    ensures j < |trace| && who[j] == i && trace[j] == Own(trace, who, i)[x]
    decreases |trace|
  {
    var n := |trace| - 1;
    if x < |Own(trace[..n], who[..n], i)| {
      j := OwnAt(trace[..n], who[..n], i, x);
    } else {
      j := n;
    }
  }

  /** Two things a delivery has done happened in that order. */
  lemma {:induction false} OwnPair<P>(trace: seq<Effect<P>>, who: seq<nat>, i: nat, x: nat, y: nat) returns (c: nat, a: nat)
    requires |trace| == |who| && x < y < |Own(trace, who, i)|
    ensures c < a < |trace| && who[c] == who[a] == i
    ensures trace[c] == Own(trace, who, i)[x] && trace[a] == Own(trace, who, i)[y]
    decreases |trace|
  {
    var n := |trace| - 1;
    if y < |Own(trace[..n], who[..n], i)| {
      c, a := OwnPair(trace[..n], who[..n], i, x, y);
    } else {
      a := n;
      c := OwnAt(trace[..n], who[..n], i, x);
    }
  }

  /** Is this effect the acting on a verdict that leaves the harness? */
  predicate Acts<P>(e: Effect<P>) {
    e.Deliver? || e.Launch?
  }

  /** Where a stream delivery acts, its ack stands before. */
  lemma ActsAfterAck<P>(m: Message<P>, p: nat)
    requires p < |StreamEffects(m)| && Acts(StreamEffects(m)[p])
    ensures p >= 2 && StreamEffects(m)[0] == Consult(m.entity) && StreamEffects(m)[1] == Ack
  {
    AckFollowsAwareness(m);
    assert StreamEffects(m)[p] in StreamEffects(m);
  }

  /**
   * At every moment of every interleaving of any number of deliveries: where a
   * stream delivery has delivered a note or launched a think, that same delivery
   * had called awareness and then acked before.
   */
  lemma AckedBeforeActing<P>(ds: seq<Delivery<P>>, sched: seq<nat>, k: nat) returns (c: nat, a: nat)
    requires forall k :: 0 <= k < |sched| ==> sched[k] < |ds|
    requires var f := Fly(Flight(Plans(ds), [], []), sched);
             k < |f.trace| == |f.who| && f.who[k] < |ds| && ds[f.who[k]].OnStream? && Acts(f.trace[k])
    ensures var f := Fly(Flight(Plans(ds), [], []), sched);
            && c < a < k && f.who[c] == f.who[a] == f.who[k]
            && f.trace[c] == Consult(ds[f.who[k]].m.entity) && f.trace[a] == Ack
  {
    var f := Fly(Flight(Plans(ds), [], []), sched);
    var before := PlanBefore(ds, sched, k);
    ActsAfterAck(ds[f.who[k]].m, |before|);
    c, a := OwnPair(f.trace[..k], f.who[..k], f.who[k], 0, 1);
  }

  /** Where a delivery acts, it has called awareness first of all and counted the verdict just before. */
  lemma ActsAfterConsult<P>(d: Delivery<P>, p: nat)
    requires p < |EffectsOf(d)| && Acts(EffectsOf(d)[p])
    ensures p >= 2 && EffectsOf(d)[0] == Consult(d.m.entity)
    ensures EffectsOf(d)[p - 1] == Bump(if EffectsOf(d)[p].Deliver? then NotesDelivered else ThinksDispatched)
  {
  }

  /**
   * At every moment of every interleaving: where a delivery has delivered a note
   * or launched a think, it had called awareness before, and then counted.
   */
  lemma CountedBeforeActing<P>(ds: seq<Delivery<P>>, sched: seq<nat>, k: nat) returns (c: nat, b: nat)
    requires forall k :: 0 <= k < |sched| ==> sched[k] < |ds|
    requires var f := Fly(Flight(Plans(ds), [], []), sched);
             k < |f.trace| == |f.who| && f.who[k] < |ds| && Acts(f.trace[k])
    ensures var f := Fly(Flight(Plans(ds), [], []), sched);
            && c < b < k && f.who[c] == f.who[b] == f.who[k]
            && f.trace[c] == Consult(ds[f.who[k]].m.entity)
            && f.trace[b] == Bump(if f.trace[k].Deliver? then NotesDelivered else ThinksDispatched)
  {
    var f := Fly(Flight(Plans(ds), [], []), sched);
    var i := f.who[k];
    var before := PlanBefore(ds, sched, k);
    ActsAfterConsult(ds[i], |before|);
    c, b := OwnPair(f.trace[..k], f.who[..k], i, 0, |before| - 1);
  }

  /** What a delivery had done before its effect at k is its plan up to that effect. */
  lemma PlanBefore<P>(ds: seq<Delivery<P>>, sched: seq<nat>, k: nat) returns (before: seq<Effect<P>>)
    requires forall k :: 0 <= k < |sched| ==> sched[k] < |ds|
    requires var f := Fly(Flight(Plans(ds), [], []), sched);
             k < |f.trace| == |f.who| && f.who[k] < |ds|
    ensures var f := Fly(Flight(Plans(ds), [], []), sched);
            && before == Own(f.trace[..k], f.who[..k], f.who[k])
            && before <= EffectsOf(ds[f.who[k]]) && |before| < |EffectsOf(ds[f.who[k]])|
            && EffectsOf(ds[f.who[k]])[|before|] == f.trace[k]
  {
    var f := Fly(Flight(Plans(ds), [], []), sched);
    var i := f.who[k];
    OwnOrder(ds, sched, i);
    OwnPrefix(f.trace, f.who, i, k + 1);
    before := Own(f.trace[..k], f.who[..k], i);
    assert f.trace[..k + 1][..k] == f.trace[..k] && f.who[..k + 1][..k] == f.who[..k];
    PrefixOfPrefix(before + [f.trace[k]], Own(f.trace, f.who, i), EffectsOf(ds[i]));
  }

  /** A weight summed over everything one delivery does. */
  ghost function Of<P>(w: Effect<P> -> nat): Delivery<P> -> nat {
    (d: Delivery<P>) => Total(EffectsOf(d), w)
  }

  lemma {:induction false} PlansTotal<P>(ds: seq<Delivery<P>>, w: Effect<P> -> nat)
    ensures Total(Plans(ds), Weigh(w)) == Total(ds, Of(w))
  {
    if ds != [] {
      assert Plans(ds)[1..] == Plans(ds[1..]);
      PlansTotal(ds[1..], w);
    }
  }

  /** However deliveries interleave, every effect has happened as often as the deliveries ask for it together. */
  lemma InterleavingDoesNotMatter<P>(ds: seq<Delivery<P>>, sched: seq<nat>, trace: seq<Effect<P>>, w: Effect<P> -> nat)
    requires Completed(ds, sched, trace)
    ensures Total(trace, w) == Total(ds, Of(w))
  {
    var f := Flight(Plans(ds), [], []);
    FlyConserves(f, sched, w);
    PlansTotal(ds, w);
    TotalConst(Fly(f, sched).todo, Weigh(w), 0);
  }

  // ---- accounting ----

  function HookPanicked<P>(d: Delivery<P>): nat {
    if Admitted(d.m) && d.m.awareness.Decides? && d.m.awareness.verdict.Note? && d.m.hook.HookPanics? then 1 else 0
  }

  function ZeroVerdict<P>(d: Delivery<P>): nat {
    if Admitted(d.m) && d.m.awareness.Decides? && d.m.awareness.verdict.Zero? then 1 else 0
  }

  /** A stream delivery that failed before its ack. */
  function StreamFailed<P>(d: Delivery<P>): nat {
    if d.OnStream? && !(Admitted(d.m) && d.m.awareness.Decides?) then 1 else 0
  }

  function IsStream<P>(d: Delivery<P>): nat {
    if d.OnStream? then 1 else 0
  }

  /** Summing over what acting on a verdict does. */
  ghost function ActTotal<P>(m: Message<P>, f: Effect<P> -> nat): nat
    requires Verdicts(m) == OK
  {
    match m.awareness.verdict
    case Zero => 0
    case Ignore => f(Bump(IgnoredVerdicts))
    case Note(p) =>
      f(Bump(NotesDelivered)) + (if m.hook.NoHook? then 0 else f(Deliver(m.entity, p)))
      + (if m.hook.HookPanics? then f(Bump(AwarenessPanics)) else 0)
    case Think(r, e) => f(Bump(ThinksDispatched)) + f(Launch(r, e))
  }

  lemma ActingTotal<P>(m: Message<P>, f: Effect<P> -> nat)
    requires Verdicts(m) == OK
    ensures Total(Acting(m), f) == ActTotal(m, f)
  {
    match m.awareness.verdict
    case Zero =>
    case Ignore => TotalOne(Bump(IgnoredVerdicts), f);
    case Note(p) =>
      var a: seq<Effect<P>> := if m.hook.NoHook? then [] else [Deliver(m.entity, p)];
      var b: seq<Effect<P>> := if m.hook.HookPanics? then [Bump(AwarenessPanics)] else [];
      TotalConcat([Bump(NotesDelivered)] + a, b, f);
      TotalCons(Bump(NotesDelivered), a, f);
      TotalOne(Deliver(m.entity, p), f);
      TotalOne(Bump(AwarenessPanics), f);
    case Think(r, e) =>
      assert Acting(m) == [Bump(ThinksDispatched)] + [Launch(r, e)];
      TotalCons(Bump(ThinksDispatched), [Launch(r, e)], f);
      TotalOne(Launch(r, e), f);
  }

  /** Summing over everything a delivery does. */
  lemma EffectsTotal<P>(d: Delivery<P>, f: Effect<P> -> nat)
    ensures var v := Verdicts(d.m);
            Total(EffectsOf(d), f) ==
              (if v == OK || v == AwarenessPanic then f(Consult(d.m.entity)) else 0)
              + if v == OK then (if d.OnStream? then f(Ack) else 0) + ActTotal(d.m, f)
                else f(Bump(FailureOf(v))) + if d.OnStream? then f(Bump(NakTotal)) + f(Nak) else 0
  {
    var m, v := d.m, Verdicts(d.m);
    TotalOne(Consult(m.entity), f);
    if v == OK {
      ActingTotal(m, f);
      TotalConcat(Consulted(m), if d.OnStream? then [Ack] + Acting(m) else Acting(m), f);
      TotalCons(Ack, Acting(m), f);
    } else {
      var c: Effect<P> := Bump(FailureOf(v));
      TotalOne(c, f);
      TotalOne(Nak, f);
      TotalCons(Bump(NakTotal), [Nak], f);
      TotalCons(c, [Bump(NakTotal)] + [Nak], f);
      assert [c, Bump(NakTotal), Nak] == [c] + ([Bump(NakTotal)] + [Nak]);
      TotalConcat(Consulted(m), if d.OnStream? then [c, Bump(NakTotal), Nak] else [c], f);
    }
  }

  /** How often a delivery raises one of the outcome counters. */
  function Raises<P>(d: Delivery<P>, c: Counter): nat {
    var v := Verdicts(d.m);
    if v != OK then (if c == FailureOf(v) then 1 else 0)
    else match d.m.awareness.verdict
         case Zero => 0
         case Ignore => if c == IgnoredVerdicts then 1 else 0
         case Note(_) => (if c == NotesDelivered then 1 else 0) + if d.m.hook.HookPanics? && c == AwarenessPanics then 1 else 0
         case Think(_, _) => if c == ThinksDispatched then 1 else 0
  }

  lemma RaisesIt<P(!new)>(d: Delivery<P>, c: Counter)
    requires c != NakTotal
    ensures Of(Is(Bump(c)))(d) == Raises(d, c)
  {
    EffectsTotal(d, Is(Bump(c)));
  }

  lemma RaisesOnce<P>(d: Delivery<P>)
    ensures Raises(d, DecodeFailures) + Raises(d, ExtractionFailures) + Raises(d, AwarenessPanics)
            + Raises(d, IgnoredVerdicts) + Raises(d, NotesDelivered) + Raises(d, ThinksDispatched)
            + ZeroVerdict(d) == 1 + HookPanicked(d)
  {
  }

  /** Each delivery ends in exactly one of the counted ways. */
  lemma OneEndEach<P(!new)>(d: Delivery<P>)
    ensures Of(Is(Bump(DecodeFailures)))(d) + Of(Is(Bump(ExtractionFailures)))(d) + Of(Is(Bump(AwarenessPanics)))(d)
            + Of(Is(Bump(IgnoredVerdicts)))(d) + Of(Is(Bump(NotesDelivered)))(d) + Of(Is(Bump(ThinksDispatched)))(d)
            + ZeroVerdict(d) == 1 + HookPanicked(d)
  {
    RaisesOnce(d);
    RaisesIt(d, DecodeFailures);
    RaisesIt(d, ExtractionFailures);
    RaisesIt(d, AwarenessPanics);
    RaisesIt(d, IgnoredVerdicts);
    RaisesIt(d, NotesDelivered);
    RaisesIt(d, ThinksDispatched);
  }

  /** A stream delivery attempts exactly one ack or one nak, and counts the naks. */
  lemma OneAckEach<P(!new)>(d: Delivery<P>)
    ensures Of(Is(Ack))(d) + Of(Is(Nak))(d) == IsStream(d)
    ensures Of(Is(Bump(NakTotal)))(d) == Of(Is(Nak))(d)
    ensures Of(Is(Nak))(d) == StreamFailed(d)
  {
    EffectsTotal(d, Is(Ack));
    EffectsTotal(d, Is(Nak));
    EffectsTotal(d, Is(Bump(NakTotal)));
  }

  lemma {:induction false} SumOfEnds<P(!new)>(ds: seq<Delivery<P>>)
    ensures Total(ds, Of(Is(Bump(DecodeFailures)))) + Total(ds, Of(Is(Bump(ExtractionFailures)))) + Total(ds, Of(Is(Bump(AwarenessPanics))))
            + Total(ds, Of(Is(Bump(IgnoredVerdicts)))) + Total(ds, Of(Is(Bump(NotesDelivered)))) + Total(ds, Of(Is(Bump(ThinksDispatched))))
            + Total(ds, ZeroVerdict) == |ds| + Total(ds, HookPanicked)
  {
    if ds != [] {
      OneEndEach(ds[0]);
      SumOfEnds(ds[1..]);
    }
  }

  lemma {:induction false} SumOfAcks<P(!new)>(ds: seq<Delivery<P>>)
    ensures Total(ds, Of(Is(Ack))) + Total(ds, Of(Is(Nak))) == Total(ds, IsStream)
    ensures Total(ds, Of(Is(Bump(NakTotal)))) == Total(ds, Of(Is(Nak))) == Total(ds, StreamFailed)
  {
    if ds != [] {
      OneAckEach(ds[0]);
      SumOfAcks(ds[1..]);
    }
  }

  function Launches<P>(e: Effect<P>): nat {
    if e.Launch? then 1 else 0
  }

  function Consults<P>(e: Effect<P>): nat {
    if e.Consult? then 1 else 0
  }

  function Delivers<P>(e: Effect<P>): nat {
    if e.Deliver? then 1 else 0
  }

  function Unheard<P>(d: Delivery<P>): nat {
    if Admitted(d.m) && d.m.awareness.Decides? && d.m.awareness.verdict.Note? && d.m.hook.NoHook? then 1 else 0
  }

  lemma EveryOtherIsConsulted<P(!new)>(d: Delivery<P>)
    ensures Of(Consults)(d) + Of(Is(Bump(DecodeFailures)))(d) + Of(Is(Bump(ExtractionFailures)))(d) == 1
  {
    EffectsTotal(d, Consults);
    RaisesIt(d, DecodeFailures);
    RaisesIt(d, ExtractionFailures);
  }

  /** Each think counted is launched, each note counted is delivered unless there is no hook, and awareness sees what decoded and named an entity. */
  lemma EffectsMatchCounters<P(!new)>(d: Delivery<P>)
    ensures Of(Launches)(d) == Of(Is(Bump(ThinksDispatched)))(d)
    ensures Of(Delivers)(d) + Unheard(d) == Of(Is(Bump(NotesDelivered)))(d)
    ensures Of(Consults)(d) + Of(Is(Bump(DecodeFailures)))(d) + Of(Is(Bump(ExtractionFailures)))(d) == 1
  {
    EffectsTotal(d, Launches);
    EffectsTotal(d, Delivers);
    RaisesIt(d, ThinksDispatched);
    RaisesIt(d, NotesDelivered);
    EveryOtherIsConsulted(d);
  }

  lemma {:induction false} SumOfEffects<P(!new)>(ds: seq<Delivery<P>>)
    ensures Total(ds, Of(Launches)) == Total(ds, Of(Is(Bump(ThinksDispatched))))
    ensures Total(ds, Of(Delivers)) + Total(ds, Unheard) == Total(ds, Of(Is(Bump(NotesDelivered))))
    ensures Total(ds, Of(Consults)) + Total(ds, Of(Is(Bump(DecodeFailures)))) + Total(ds, Of(Is(Bump(ExtractionFailures)))) == |ds|
  {
    if ds != [] {
      EffectsMatchCounters(ds[0]);
      SumOfEffects(ds[1..]);
    }
  }

  /**
   * Once any number of concurrent deliveries have been carried out: as many
   * thinks were launched as the counter says, as many notes delivered as the
   * counter says less those without a hook, and awareness was called once for
   * every delivery that was not a decode or extraction failure.
   */
  lemma CountersMatchEffects<P(!new)>(ds: seq<Delivery<P>>, sched: seq<nat>, trace: seq<Effect<P>>)
    requires Completed(ds, sched, trace)
    ensures Total(trace, Launches) == Count(trace, Bump(ThinksDispatched))
    ensures Total(trace, Delivers) + Total(ds, Unheard) == Count(trace, Bump(NotesDelivered))
    ensures Total(trace, Consults) + Count(trace, Bump(DecodeFailures)) + Count(trace, Bump(ExtractionFailures)) == |ds|
  {
    InterleavingDoesNotMatter(ds, sched, trace, Launches);
    InterleavingDoesNotMatter(ds, sched, trace, Delivers);
    InterleavingDoesNotMatter(ds, sched, trace, Consults);
    InterleavingDoesNotMatter(ds, sched, trace, Is(Bump(ThinksDispatched)));
    InterleavingDoesNotMatter(ds, sched, trace, Is(Bump(NotesDelivered)));
    InterleavingDoesNotMatter(ds, sched, trace, Is(Bump(DecodeFailures)));
    InterleavingDoesNotMatter(ds, sched, trace, Is(Bump(ExtractionFailures)));
    SumOfEffects(ds);
  }

  /**
   * Message accounting: once any number of concurrent deliveries have been
   * carried out, in whatever interleaving, every one of them shows in exactly
   * one of the counters (a panicking note hook shows once more), and the stream
   * deliveries naked, and counted as such, are those that failed before their
   * ack, while every other one was acked once.
   */
  lemma MessagesAreAccountedFor<P(!new)>(ds: seq<Delivery<P>>, sched: seq<nat>, trace: seq<Effect<P>>)
    requires Completed(ds, sched, trace)
    ensures |ds| + Total(ds, HookPanicked) ==
              Count(trace, Bump(DecodeFailures)) + Count(trace, Bump(ExtractionFailures)) + Count(trace, Bump(AwarenessPanics))
              + Count(trace, Bump(IgnoredVerdicts)) + Count(trace, Bump(NotesDelivered)) + Count(trace, Bump(ThinksDispatched))
              + Total(ds, ZeroVerdict)
    ensures Count(trace, Bump(NakTotal)) == Count(trace, Nak) == Total(ds, StreamFailed)
    ensures Count(trace, Ack) == Total(ds, IsStream) - Total(ds, StreamFailed)
  {
    InterleavingDoesNotMatter(ds, sched, trace, Is(Bump(DecodeFailures)));
    InterleavingDoesNotMatter(ds, sched, trace, Is(Bump(ExtractionFailures)));
    InterleavingDoesNotMatter(ds, sched, trace, Is(Bump(AwarenessPanics)));
    InterleavingDoesNotMatter(ds, sched, trace, Is(Bump(IgnoredVerdicts)));
    InterleavingDoesNotMatter(ds, sched, trace, Is(Bump(NotesDelivered)));
    InterleavingDoesNotMatter(ds, sched, trace, Is(Bump(ThinksDispatched)));
    InterleavingDoesNotMatter(ds, sched, trace, Is(Bump(NakTotal)));
    InterleavingDoesNotMatter(ds, sched, trace, Is(Ack));
    InterleavingDoesNotMatter(ds, sched, trace, Is(Nak));
    SumOfEnds(ds);
    SumOfAcks(ds);
  }

  // ---- every effect, by the messages themselves ----

  predicate Decided<P(==)>(m: Message<P>, v: Verdict<P>) {
    Admitted(m) && m.awareness == Decides(v)
  }

  /** Does a delivery ask for this effect, going by the fields of its message? */
  function Asks<P(==)>(d: Delivery<P>, e: Effect<P>): bool {
    var m := d.m;
    match e
    case Consult(x) => Admitted(m) && x == m.entity
    case Ack => d.OnStream? && Admitted(m) && m.awareness.Decides?
    case Nak => d.OnStream? && !(Admitted(m) && m.awareness.Decides?)
    case Deliver(x, p) => Decided(m, Note(p)) && x == m.entity && !m.hook.NoHook?
    case Launch(r, x) => Decided(m, Think(r, x))
    case Bump(DecodeFailures) => !m.decodes
    case Bump(ExtractionFailures) => m.decodes && (!m.extracts || m.entity == "")
    case Bump(AwarenessPanics) =>
      Admitted(m) && (m.awareness.Panics? || (m.awareness.verdict.Note? && m.hook.HookPanics?))
    case Bump(IgnoredVerdicts) => Decided(m, Ignore)
    case Bump(NotesDelivered) => Admitted(m) && m.awareness.Decides? && m.awareness.verdict.Note?
    case Bump(ThinksDispatched) => Admitted(m) && m.awareness.Decides? && m.awareness.verdict.Think?
    case Bump(NakTotal) => d.OnStream? && !(Admitted(m) && m.awareness.Decides?)
  }

  ghost function Asking<P>(e: Effect<P>): Delivery<P> -> nat {
    (d: Delivery<P>) => if Asks(d, e) then 1 else 0
  }

  lemma AskedOnce<P(!new)>(d: Delivery<P>, e: Effect<P>)
    ensures Of(Is(e))(d) == Asking(e)(d)
  {
    EffectsTotal(d, Is(e));
  }

  lemma {:induction false} AskedInAll<P(!new)>(ds: seq<Delivery<P>>, e: Effect<P>)
    ensures Total(ds, Of(Is(e))) == Total(ds, Asking(e))
  {
    if ds != [] {
      AskedOnce(ds[0], e);
      AskedInAll(ds[1..], e);
    }
  }

  /**
   * Once any number of concurrent deliveries have been carried out, in whatever
   * interleaving, every effect, and so every counter, every acknowledgement, every
   * note and every think, has happened exactly as often as there are deliveries
   * whose message asks for it.
   */
  lemma EveryEffectIsAskedFor<P(!new)>(ds: seq<Delivery<P>>, sched: seq<nat>, trace: seq<Effect<P>>, e: Effect<P>)
    requires Completed(ds, sched, trace)
    ensures Count(trace, e) == Total(ds, Asking(e))
  {
    InterleavingDoesNotMatter(ds, sched, trace, Is(e));
    AskedInAll(ds, e);
  }

  /** At every moment of every interleaving, whatever a delivery has done its own message asked for. */
  lemma OnlyWhatIsAskedFor<P(!new)>(ds: seq<Delivery<P>>, sched: seq<nat>, k: nat)
    requires forall k :: 0 <= k < |sched| ==> sched[k] < |ds|
    requires var f := Fly(Flight(Plans(ds), [], []), sched);
             k < |f.trace| == |f.who| && f.who[k] < |ds|
    ensures var f := Fly(Flight(Plans(ds), [], []), sched);
            Asks(ds[f.who[k]], f.trace[k])
  {
    var f := Fly(Flight(Plans(ds), [], []), sched);
    var before := PlanBefore(ds, sched, k);
    var d := ds[f.who[k]];
    AskedOnce(d, f.trace[k]);
    TotalAtLeast(EffectsOf(d), |before|, Is(f.trace[k]));
  }
}
