// Binding channels in order, rolling back a failed start, and unwinding on
// shutdown (start.go, stream.go): what is left behind on the substrate.
module Resources {
  import opened Wrappers
  import D = Durable

  /** A consumer as the server knows it: its stream and its name. */
  type Consumer = (string, string)

  datatype Source = Subject | Stream(stream: string, durable: string, filter: string, declared: D.Declared) | Unsupported

  datatype Lookup = Found | Missing | Broken

  /** What the substrate answers while one channel is bound; existing is the configuration it reports for a durable found there. */
  datatype Luck = Luck(
    subscribes: bool, jetStream: bool, stream: Lookup, lookupWorks: bool,
    creates: bool, generated: string, existing: Option<D.Config>, consumes: bool)

  /** Resources whose release call will fail. */
  datatype Stuck = Stuck(subs: set<nat>, consumers: set<Consumer>)

  /**
   * The substrate: live subscriptions, consume loops and consumers. js says
   * whether the imp has a JetStream context; subscribed, ephemerals and durables are
   * everything the imp has ever created: history only.
   */
  datatype Net = Net(
    subs: set<nat>, loops: set<nat>, consumers: set<Consumer>, next: nat, js: bool,
    subscribed: set<nat>, ephemerals: set<Consumer>, durables: set<Consumer>)

  /** What one bound channel holds. */
  datatype Handle = Handle(sub: Option<nat>, loop: Option<nat>, ephemeral: Option<Consumer>)

  datatype Error = SubscriptionFailed | StreamNotFound | ConsumerIncompatible | SpecInvalid | Passed

  datatype Bound = Bound(n: Net, handle: Option<Handle>, err: Option<Error>)

  // ---- specification ----

  function Delete(n: Net, st: Stuck, c: Consumer): Net {
    if c in st.consumers then n else n.(consumers := n.consumers - {c})
  }

  function Failed(n: Net, e: Error): Bound {
    Bound(n, None, Some(e))
  }

  function BindSubject(n: Net, luck: Luck): Bound {
    if !luck.subscribes then Failed(n, SubscriptionFailed)
    else Bound(n.(subs := n.subs + {n.next}, subscribed := n.subscribed + {n.next}, next := n.next + 1),
               Some(Handle(Some(n.next), None, None)), None)
  }

  datatype Resolved = Resolved(n: Net, name: string, ephemeral: bool, err: Option<Error>)

  /** resolveConsumer: a server-generated name is new and not empty. */
  function Resolve(n: Net, stream: string, durable: string, desired: D.Config, luck: Luck): Resolved {
    if durable == "" then
      var c := (stream, luck.generated);
      if !luck.creates || luck.generated == "" || c in n.consumers then Resolved(n, "", false, Some(SubscriptionFailed))
      else Resolved(n.(consumers := n.consumers + {c}, ephemerals := n.ephemerals + {c}), luck.generated, true, None)
    else
      var c := (stream, durable);
      if !luck.lookupWorks then Resolved(n, "", false, Some(Passed))
      else if c !in n.consumers then
        if !luck.creates then Resolved(n, "", false, Some(SubscriptionFailed))
        else Resolved(n.(consumers := n.consumers + {c}, durables := n.durables + {c}), durable, false, None)
      else if !(luck.existing.Some? && D.Compatible(luck.existing.value, desired)) then Resolved(n, "", false, Some(ConsumerIncompatible))
      else Resolved(n, durable, false, None)
  }

  function BindStream(n: Net, st: Stuck, stream: string, durable: string, desired: D.Config, luck: Luck): Bound {
    if !n.js && !luck.jetStream then Failed(n, Passed)
    else
      var n1 := n.(js := true);
      if luck.stream.Missing? then Failed(n1, StreamNotFound)
      else if luck.stream.Broken? then Failed(n1, Passed)
      else
        var r := Resolve(n1, stream, durable, desired, luck);
        if r.err.Some? then Failed(r.n, r.err.value)
        else if !luck.consumes then
          Failed(if r.ephemeral then Delete(r.n, st, (stream, r.name)) else r.n, SubscriptionFailed)
        else
          Bound(r.n.(loops := r.n.loops + {r.n.next}, next := r.n.next + 1),
                Some(Handle(None, Some(r.n.next), if r.ephemeral then Some((stream, r.name)) else None)), None)
  }

  function Bind(n: Net, st: Stuck, src: Source, luck: Luck): Bound {
    match src
    case Subject => BindSubject(n, luck)
    case Stream(stream, durable, filter, declared) => BindStream(n, st, stream, durable, D.Built(declared, filter), luck)
    case Unsupported => Failed(n, SpecInvalid)
  }

  datatype Started = Started(n: Net, held: seq<Handle>, err: Option<Error>)

  /** start: bind the channels in order, stop at the first failure. */
  function Start(n: Net, st: Stuck, held: seq<Handle>, srcs: seq<Source>, lucks: seq<Luck>): Started
    requires |srcs| == |lucks|
    decreases |srcs|
  {
    if srcs == [] then Started(n, held, None)
    else
      var b := Bind(n, st, srcs[0], lucks[0]);
      if b.handle.None? then Started(b.n, held, b.err)
      else Start(b.n, st, held + [b.handle.value], srcs[1..], lucks[1..])
  }

  datatype Unwound = Unwound(n: Net, held: seq<Handle>)

  function Unsubscribe(n: Net, st: Stuck, h: Handle): Net {
    if h.sub.Some? && h.sub.value !in st.subs then n.(subs := n.subs - {h.sub.value}) else n
  }

  function Teardown(n: Net, st: Stuck, h: Handle): Net {
    var n1 := if h.loop.Some? then n.(loops := n.loops - {h.loop.value}) else n;
    if h.ephemeral.Some? then Delete(n1, st, h.ephemeral.value) else n1
  }

  function UnsubscribeAll(n: Net, st: Stuck, held: seq<Handle>): Unwound
    decreases |held|
  {
    if held == [] then Unwound(n, []) else
      var k := |held| - 1;
      var r := UnsubscribeAll(n, st, held[..k]);
      Unwound(Unsubscribe(r.n, st, held[k]), r.held + [held[k].(sub := None)])
  }

  function TeardownAll(n: Net, st: Stuck, held: seq<Handle>): Unwound
    decreases |held|
  {
    if held == [] then Unwound(n, []) else
      var k := |held| - 1;
      var r := TeardownAll(n, st, held[..k]);
      Unwound(Teardown(r.n, st, held[k]), r.held + [held[k].(loop := None, ephemeral := None)])
  }

  /** unwind: unsubscribe everything, then, if there is a JetStream context, tear down the stream channels. */
  function Unwind(n: Net, st: Stuck, held: seq<Handle>): Unwound {
    var u := UnsubscribeAll(n, st, held);
    if !n.js then u else TeardownAll(u.n, st, u.held)
  }

  // ---- conservation ----

  ghost function SubsOf(held: seq<Handle>): set<nat> {
    set h | h in held && h.sub.Some? :: h.sub.value
  }

  ghost function LoopsOf(held: seq<Handle>): set<nat> {
    set h | h in held && h.loop.Some? :: h.loop.value
  }

  ghost function EphemeralsOf(held: seq<Handle>): set<Consumer> {
    set h | h in held && h.ephemeral.Some? :: h.ephemeral.value
  }

  ghost function Just<A>(o: Option<A>): set<A> {
    if o.Some? then {o.value} else {}
  }

  lemma HeldSnoc(held: seq<Handle>, h: Handle)
    ensures SubsOf(held + [h]) == SubsOf(held) + Just(h.sub)
    ensures LoopsOf(held + [h]) == LoopsOf(held) + Just(h.loop)
    ensures EphemeralsOf(held + [h]) == EphemeralsOf(held) + Just(h.ephemeral)
  {
    assert forall x :: x in held + [h] <==> x in held || x == h;
  }

  /**
   * Compared with the substrate n0 before Run, what is live now is what was live
   * then, what the held handles name, the durables created, and whatever could
   * not be released.
   */
  ghost predicate Balanced(n0: Net, st: Stuck, n: Net, held: seq<Handle>) {
    && n.subs == n0.subs + SubsOf(held) + (n.subscribed * st.subs)
    && n.loops == n0.loops + LoopsOf(held)
    && n.consumers == n0.consumers + n.durables + EphemeralsOf(held) + (n.ephemerals * st.consumers)
  }

  ghost predicate Below(ids: set<nat>, next: nat) {
    forall x :: x in ids ==> x < next
  }

  /** What the imp created was new, what it holds it created, and without a JetStream context it holds no stream. */
  ghost predicate Owned(n0: Net, n: Net, held: seq<Handle>) {
    && SubsOf(held) <= n.subscribed && EphemeralsOf(held) <= n.ephemerals
    && n.subscribed !! n0.subs && LoopsOf(held) !! n0.loops
    && n.ephemerals !! n0.consumers && EphemeralsOf(held) !! n.durables
    && (!n.js ==> LoopsOf(held) == {} && EphemeralsOf(held) == {})
    && Below(n.subscribed, n.next) && Below(n.loops, n.next) && Below(n0.subs, n.next) && Below(n0.loops, n.next)
  }

  ghost predicate Sound(n0: Net, st: Stuck, n: Net, held: seq<Handle>) {
    Balanced(n0, st, n, held) && Owned(n0, n, held)
  }

  /** The substrate as a not yet run imp finds it. */
  ghost predicate Untouched(n: Net) {
    && n.subscribed == {} && n.ephemerals == {} && n.durables == {}
    && Below(n.subs, n.next) && Below(n.loops, n.next)
  }

  lemma ResolveSound(n0: Net, st: Stuck, n: Net, held: seq<Handle>, stream: string, durable: string, desired: D.Config, luck: Luck)
    requires Sound(n0, st, n, held) && n.js
    ensures var r := Resolve(n, stream, durable, desired, luck);
            if r.err.None? && r.ephemeral then
              var c := (stream, r.name);
              && c !in n.consumers && r.n == n.(consumers := n.consumers + {c}, ephemerals := n.ephemerals + {c})
            else Sound(n0, st, r.n, held) && r.n.js
  {
    var r := Resolve(n, stream, durable, desired, luck);
    if r.err.None? && !r.ephemeral && r.n != n {
      var c := (stream, durable);
      assert r.n.consumers == n0.consumers + r.n.durables + EphemeralsOf(held) + (r.n.ephemerals * st.consumers);
      assert c !in EphemeralsOf(held);
    }
  }

  lemma BindSubjectSound(n0: Net, st: Stuck, n: Net, held: seq<Handle>, luck: Luck)
    requires Sound(n0, st, n, held)
    ensures var b := BindSubject(n, luck);
            Sound(n0, st, b.n, if b.handle.Some? then held + [b.handle.value] else held)
  {
    var b := BindSubject(n, luck);
    if b.handle.Some? {
      HeldSnoc(held, b.handle.value);
    }
  }

  /** A consume loop on a consumer just resolved. */
  lemma LoopSound(n0: Net, st: Stuck, n: Net, held: seq<Handle>)
    requires Sound(n0, st, n, held) && n.js
    ensures Sound(n0, st, n.(loops := n.loops + {n.next}, next := n.next + 1), held + [Handle(None, Some(n.next), None)])
  {
    HeldSnoc(held, Handle(None, Some(n.next), None));
  }

  /** An ephemeral consumer just created, and its consume loop. */
  lemma EphemeralLoopSound(n0: Net, st: Stuck, n: Net, held: seq<Handle>, c: Consumer)
    requires Sound(n0, st, n, held) && n.js && c !in n.consumers
    ensures Sound(n0, st,
                  n.(consumers := n.consumers + {c}, ephemerals := n.ephemerals + {c}, loops := n.loops + {n.next}, next := n.next + 1),
                  held + [Handle(None, Some(n.next), Some(c))])
  {
    HeldSnoc(held, Handle(None, Some(n.next), Some(c)));
  }

  /** An ephemeral consumer created and, as consuming failed, deleted again. */
  lemma EphemeralRolledBack(n0: Net, st: Stuck, n: Net, held: seq<Handle>, c: Consumer)
    requires Sound(n0, st, n, held) && c !in n.consumers
    ensures Sound(n0, st, Delete(n.(consumers := n.consumers + {c}, ephemerals := n.ephemerals + {c}), st, c), held)
  {
    assert n.consumers + {c} - {c} == n.consumers;
  }

  lemma BindStreamSound(n0: Net, st: Stuck, n: Net, held: seq<Handle>, stream: string, durable: string, desired: D.Config, luck: Luck)
    requires Sound(n0, st, n, held)
    ensures var b := BindStream(n, st, stream, durable, desired, luck);
            Sound(n0, st, b.n, if b.handle.Some? then held + [b.handle.value] else held)
  {
    var n1 := n.(js := true);
    assert Sound(n0, st, n1, held);
    if (n.js || luck.jetStream) && luck.stream.Found? {
      var r := Resolve(n1, stream, durable, desired, luck);
      ResolveSound(n0, st, n1, held, stream, durable, desired, luck);
      if r.err.None? {
        if r.ephemeral {
          if luck.consumes {
            EphemeralLoopSound(n0, st, n1, held, (stream, r.name));
          } else {
            EphemeralRolledBack(n0, st, n1, held, (stream, r.name));
          }
        } else if luck.consumes {
          LoopSound(n0, st, r.n, held);
        }
      }
    }
  }

  lemma {:induction false} StartSound(n0: Net, st: Stuck, n: Net, held: seq<Handle>, srcs: seq<Source>, lucks: seq<Luck>)
    requires |srcs| == |lucks| && Sound(n0, st, n, held)
    ensures var r := Start(n, st, held, srcs, lucks); Sound(n0, st, r.n, r.held)
    decreases |srcs|
  {
    if srcs != [] {
      match srcs[0] {
        case Subject => BindSubjectSound(n0, st, n, held, lucks[0]);
        case Stream(stream, durable, filter, declared) =>
          BindStreamSound(n0, st, n, held, stream, durable, D.Built(declared, filter), lucks[0]);
        case Unsupported =>
      }
      var b := Bind(n, st, srcs[0], lucks[0]);
      if b.handle.Some? {
        StartSound(n0, st, b.n, held + [b.handle.value], srcs[1..], lucks[1..]);
      }
    }
  }

  lemma {:induction false} UnsubscribeAllReleases(n: Net, st: Stuck, held: seq<Handle>)
    ensures var u := UnsubscribeAll(n, st, held);
            && u.n == n.(subs := n.subs - (SubsOf(held) - st.subs))
            && SubsOf(u.held) == {} && LoopsOf(u.held) == LoopsOf(held) && EphemeralsOf(u.held) == EphemeralsOf(held)
    decreases |held|
  {
    if held != [] {
      var k := |held| - 1;
      UnsubscribeAllReleases(n, st, held[..k]);
      assert held == held[..k] + [held[k]];
      HeldSnoc(held[..k], held[k]);
      HeldSnoc(UnsubscribeAll(n, st, held[..k]).held, held[k].(sub := None));
    }
  }

  lemma {:induction false} TeardownAllReleases(n: Net, st: Stuck, held: seq<Handle>)
    ensures var u := TeardownAll(n, st, held);
            && u.n == n.(loops := n.loops - LoopsOf(held), consumers := n.consumers - (EphemeralsOf(held) - st.consumers))
            && SubsOf(u.held) == SubsOf(held) && LoopsOf(u.held) == {} && EphemeralsOf(u.held) == {}
    decreases |held|
  {
    if held != [] {
      var k := |held| - 1;
      TeardownAllReleases(n, st, held[..k]);
      assert held == held[..k] + [held[k]];
      HeldSnoc(held[..k], held[k]);
      HeldSnoc(TeardownAll(n, st, held[..k]).held, held[k].(loop := None, ephemeral := None));
    }
  }

  /** Unwinding releases exactly what is held, and leaves nothing held. */
  lemma UnwindReleases(n: Net, st: Stuck, held: seq<Handle>)
    requires !n.js ==> LoopsOf(held) == {} && EphemeralsOf(held) == {}
    ensures var u := Unwind(n, st, held);
            && u.n == n.(subs := n.subs - (SubsOf(held) - st.subs), loops := n.loops - LoopsOf(held),
                         consumers := n.consumers - (EphemeralsOf(held) - st.consumers))
            && SubsOf(u.held) == {} && LoopsOf(u.held) == {} && EphemeralsOf(u.held) == {}
  {
    var u := UnsubscribeAll(n, st, held);
    UnsubscribeAllReleases(n, st, held);
    TeardownAllReleases(u.n, st, u.held);
  }

  /**
   * Resource conservation: for any channels and any failures, after start and
   * unwind, whether start failed (rollback) or succeeded (shutdown), what is
   * live is what was live before plus the created durables, plus exactly those
   * of the imp's own resources whose release call failed.
   */
  lemma NothingIsLeaked(n0: Net, st: Stuck, srcs: seq<Source>, lucks: seq<Luck>)
    requires Untouched(n0) && |srcs| == |lucks|
    ensures var r := Start(n0, st, [], srcs, lucks);
            var n := Unwind(r.n, st, r.held).n;
            && n.subs == n0.subs + (n.subscribed * st.subs)
            && n.loops == n0.loops
            && n.consumers == n0.consumers + n.durables + (n.ephemerals * st.consumers)
            && n.subscribed !! n0.subs && n.ephemerals !! n0.consumers
  {
    assert SubsOf([]) == {} && LoopsOf([]) == {} && EphemeralsOf([]) == {};
    StartSound(n0, st, n0, [], srcs, lucks);
    var r := Start(n0, st, [], srcs, lucks);
    UnwindReleases(r.n, st, r.held);
  }

  lemma {:induction false} NothingToUnsubscribe(n: Net, st: Stuck, held: seq<Handle>)
    requires SubsOf(held) == {}
    ensures UnsubscribeAll(n, st, held) == Unwound(n, held)
    decreases |held|
  {
    if held != [] {
      var k := |held| - 1;
      assert held == held[..k] + [held[k]];
      HeldSnoc(held[..k], held[k]);
      NothingToUnsubscribe(n, st, held[..k]);
      assert Just(held[k].sub) <= SubsOf(held);
    }
  }

  lemma {:induction false} NothingToTearDown(n: Net, st: Stuck, held: seq<Handle>)
    requires LoopsOf(held) == {} && EphemeralsOf(held) == {}
    ensures TeardownAll(n, st, held) == Unwound(n, held)
    decreases |held|
  {
    if held != [] {
      var k := |held| - 1;
      assert held == held[..k] + [held[k]];
      HeldSnoc(held[..k], held[k]);
      NothingToTearDown(n, st, held[..k]);
      assert Just(held[k].loop) <= LoopsOf(held) && Just(held[k].ephemeral) <= EphemeralsOf(held);
    }
  }

  /** Running unwind twice equals running it once, on the substrate and on the imp's own records. */
  lemma UnwindTwice(n0: Net, st: Stuck, n: Net, held: seq<Handle>)
    requires Sound(n0, st, n, held)
    ensures var u := Unwind(n, st, held);
            Unwind(u.n, st, u.held) == u
  {
    UnwindReleases(n, st, held);
    var u := Unwind(n, st, held);
    NothingToUnsubscribe(u.n, st, u.held);
    NothingToTearDown(u.n, st, u.held);
  }

  // ---- what a successful start has bound ----

  /** The handle of a channel bound as declared, live on the substrate. */
  ghost predicate Bears(n: Net, src: Source, h: Handle) {
    match src
    case Subject => h.sub.Some? && h.sub.value in n.subs && h.loop.None? && h.ephemeral.None?
    case Stream(stream, durable, _, _) =>
      && h.sub.None? && h.loop.Some? && h.loop.value in n.loops
      && (if durable == "" then h.ephemeral.Some? && h.ephemeral.value.0 == stream && h.ephemeral.value in n.consumers
          else h.ephemeral.None? && (stream, durable) in n.consumers)
    case Unsupported => false
  }

  lemma BindBears(n: Net, st: Stuck, src: Source, luck: Luck)
    ensures var b := Bind(n, st, src, luck);
            && n.subs <= b.n.subs && n.loops <= b.n.loops && n.consumers <= b.n.consumers
            && (b.handle.Some? <==> b.err.None?)
            && (b.handle.Some? ==> Bears(b.n, src, b.handle.value))
  {
    var b := Bind(n, st, src, luck);
    if src.Stream? && (n.js || luck.jetStream) && luck.stream.Found? {
      var r := Resolve(n.(js := true), src.stream, src.durable, D.Built(src.declared, src.filter), luck);
      assert r.err.None? && r.ephemeral ==> (src.stream, r.name) !in n.consumers;
    }
  }

  lemma {:induction false} StartBears(n: Net, st: Stuck, held: seq<Handle>, srcs: seq<Source>, lucks: seq<Luck>)
    requires |srcs| == |lucks|
    ensures var r := Start(n, st, held, srcs, lucks);
            && n.subs <= r.n.subs && n.loops <= r.n.loops && n.consumers <= r.n.consumers
            && held <= r.held && |r.held| <= |held| + |srcs|
            && (r.err.None? <==> |r.held| == |held| + |srcs|)
            && (forall i :: 0 <= i < |r.held| - |held| ==> Bears(r.n, srcs[i], r.held[|held| + i]))
    decreases |srcs|
  {
    if srcs != [] {
      BindBears(n, st, srcs[0], lucks[0]);
      var b := Bind(n, st, srcs[0], lucks[0]);
      if b.handle.Some? {
        var more := held + [b.handle.value];
        StartBears(b.n, st, more, srcs[1..], lucks[1..]);
        var r := Start(b.n, st, more, srcs[1..], lucks[1..]);
        forall i | 0 <= i < |r.held| - |held|
          ensures Bears(r.n, srcs[i], r.held[|held| + i])
        {
          if i == 0 {
            assert r.held[|held|] == more[|held|];
          } else {
            assert Bears(r.n, srcs[1..][i - 1], r.held[|more| + (i - 1)]);
          }
        }
      }
    }
  }

  /**
   * Start binds the channels in declaration order, each with the live resource
   * its kind calls for, and reports an error exactly when it did not get through.
   */
  lemma StartBindsInOrder(n: Net, st: Stuck, srcs: seq<Source>, lucks: seq<Luck>)
    requires |srcs| == |lucks|
    ensures var r := Start(n, st, [], srcs, lucks);
            && |r.held| <= |srcs|
            && (r.err.None? <==> |r.held| == |srcs|)
            && (forall i :: 0 <= i < |r.held| ==> Bears(r.n, srcs[i], r.held[i]))
  {
    StartBears(n, st, [], srcs, lucks);
    var r := Start(n, st, [], srcs, lucks);
    forall i | 0 <= i < |r.held|
      ensures Bears(r.n, srcs[i], r.held[i])
    {
      var none: seq<Handle> := [];
      assert Bears(r.n, srcs[i], r.held[|none| + i]);
    }
  }
}
