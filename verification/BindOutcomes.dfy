// When binding a channel succeeds and with which error it fails, said of the
// substrate's answers and the declaration alone; and so when start succeeds.
module BindOutcomes {
  import opened Wrappers
  import opened Resources
  import D = Durable

  /** An existing durable is acceptable for a declaration, field by field. */
  predicate Acceptable(got: D.Config, cc: D.Declared, filter: string) {
    && got.filter == filter && got.ackPolicy == D.Explicit
    && (cc.deliverPolicy == 0 || got.deliverPolicy == cc.deliverPolicy)
    && (cc.replayPolicy == 0 || got.replayPolicy == cc.replayPolicy)
    && (cc.ackWait <= 0 || cc.ackWait <= got.ackWait)
    && (cc.maxDeliver == 0 || got.maxDeliver == cc.maxDeliver)
  }

  /** Whether the consumer of a stream source can be had, and why not; known are the consumers there are. */
  function ConsumerFault(known: set<Consumer>, src: Source, luck: Luck): Option<Error>
    requires src.Stream?
  {
    if src.durable == "" then
      if luck.creates && luck.generated != "" && (src.stream, luck.generated) !in known then None else Some(SubscriptionFailed)
    else if !luck.lookupWorks then Some(Passed)
    else if (src.stream, src.durable) !in known then
      if luck.creates then None else Some(SubscriptionFailed)
    else if luck.existing.Some? && Acceptable(luck.existing.value, src.declared, src.filter) then None
    else Some(ConsumerIncompatible)
  }

  /** The first thing that keeps a channel from being bound, if anything does; js says whether there is a JetStream context already. */
  function Fault(js: bool, known: set<Consumer>, src: Source, luck: Luck): Option<Error> {
    match src
    case Subject => if luck.subscribes then None else Some(SubscriptionFailed)
    case Unsupported => Some(SpecInvalid)
    case Stream(_, _, _, _) =>
      if !js && !luck.jetStream then Some(Passed)
      else if luck.stream.Missing? then Some(StreamNotFound)
      else if luck.stream.Broken? then Some(Passed)
      else if ConsumerFault(known, src, luck).Some? then ConsumerFault(known, src, luck)
      else if luck.consumes then None
      else Some(SubscriptionFailed)
  }

  /** The consumer a bound stream channel consumes from. */
  function ConsumerOf(src: Source, luck: Luck): Consumer
    requires src.Stream?
  {
    (src.stream, if src.durable == "" then luck.generated else src.durable)
  }

  /** The consumers known after a channel is bound. */
  function KnownAfter(known: set<Consumer>, src: Source, luck: Luck): set<Consumer> {
    if src.Stream? then known + {ConsumerOf(src, luck)} else known
  }

  /**
   * Binding one channel fails exactly with its first fault. Otherwise it leaves
   * exactly this behind: a subscription, or a consume loop and its consumer,
   * created unless it was there, recorded as ephemeral if the source names no
   * durable.
   */
  lemma BindOutcome(n: Net, st: Stuck, src: Source, luck: Luck)
    ensures var (b, fault) := (Bind(n, st, src, luck), Fault(n.js, n.consumers, src, luck));
            && b.err == fault && (b.handle.Some? <==> fault.None?)
            && (fault.None? ==>
                  && b.n.js == (n.js || src.Stream?) && b.n.consumers == KnownAfter(n.consumers, src, luck)
                  && (src.Subject? ==>
                        && b.n == n.(subs := n.subs + {n.next}, subscribed := n.subscribed + {n.next}, next := n.next + 1)
                        && b.handle.value == Handle(Some(n.next), None, None))
                  && (src.Stream? ==>
                        && b.n.subs == n.subs && b.n.loops == n.loops + {n.next}
                        && b.n.ephemerals == n.ephemerals + (if src.durable == "" then {ConsumerOf(src, luck)} else {})
                        && b.n.durables == n.durables + (if src.durable == "" || ConsumerOf(src, luck) in n.consumers
                                                         then {} else {ConsumerOf(src, luck)})
                        && b.handle.value ==
                             Handle(None, Some(n.next), if src.durable == "" then Some(ConsumerOf(src, luck)) else None)))
  {
    if src.Stream? && src.durable != "" && ConsumerOf(src, luck) in n.consumers {
      assert n.consumers + {ConsumerOf(src, luck)} == n.consumers;
    }
  }

  /** The first fault among the channels, each met with the consumers and the JetStream context the ones before it leave. */
  function FirstFault(js: bool, known: set<Consumer>, srcs: seq<Source>, lucks: seq<Luck>): Option<Error>
    requires |srcs| == |lucks|
    decreases |srcs|
  {
    if srcs == [] then None
    else if Fault(js, known, srcs[0], lucks[0]).Some? then Fault(js, known, srcs[0], lucks[0])
    else FirstFault(js || srcs[0].Stream?, KnownAfter(known, srcs[0], lucks[0]), srcs[1..], lucks[1..])
  }

  /** Start fails exactly with the first fault of its channels, and succeeds exactly when there is none. */
  lemma {:induction false} StartOutcome(n: Net, st: Stuck, held: seq<Handle>, srcs: seq<Source>, lucks: seq<Luck>)
    requires |srcs| == |lucks|
    ensures Start(n, st, held, srcs, lucks).err == FirstFault(n.js, n.consumers, srcs, lucks)
    decreases |srcs|
  {
    if srcs != [] {
      BindOutcome(n, st, srcs[0], lucks[0]);
      var b := Bind(n, st, srcs[0], lucks[0]);
      if b.handle.Some? {
        StartOutcome(b.n, st, held + [b.handle.value], srcs[1..], lucks[1..]);
      }
    }
  }

  /** Whether there is a JetStream context before channel j, when all before it were bound. */
  ghost predicate JetStreamBefore(js: bool, srcs: seq<Source>, j: nat)
    requires j <= |srcs|
  {
    js || exists i :: 0 <= i < j && srcs[i].Stream?
  }

  /** The consumers before channel j, when all before it were bound. */
  ghost function KnownBefore(known: set<Consumer>, srcs: seq<Source>, lucks: seq<Luck>, j: nat): set<Consumer>
    requires |srcs| == |lucks| && j <= |srcs|
  {
    known + set i | 0 <= i < j && srcs[i].Stream? :: ConsumerOf(srcs[i], lucks[i])
  }

  /** Channel j has no fault, given what the channels before it leave. */
  ghost predicate Clear(js: bool, known: set<Consumer>, srcs: seq<Source>, lucks: seq<Luck>, j: nat)
    requires |srcs| == |lucks| && j < |srcs|
  {
    Fault(JetStreamBefore(js, srcs, j), KnownBefore(known, srcs, lucks, j), srcs[j], lucks[j]).None?
  }

  lemma JetStreamLater(js: bool, srcs: seq<Source>, j: nat)
    requires 0 < j <= |srcs|
    ensures JetStreamBefore(js || srcs[0].Stream?, srcs[1..], j - 1) == JetStreamBefore(js, srcs, j)
  {
    if i :| 0 <= i < j - 1 && srcs[1..][i].Stream? {
      assert srcs[i + 1].Stream?;
    }
    if i :| 0 <= i < j && srcs[i].Stream? {
      assert i > 0 ==> srcs[1..][i - 1].Stream?;
    }
  }

  lemma KnownLater(known: set<Consumer>, srcs: seq<Source>, lucks: seq<Luck>, j: nat)
    requires |srcs| == |lucks| && 0 < j <= |srcs|
    ensures KnownBefore(KnownAfter(known, srcs[0], lucks[0]), srcs[1..], lucks[1..], j - 1) == KnownBefore(known, srcs, lucks, j)
  {
    var later := KnownBefore(KnownAfter(known, srcs[0], lucks[0]), srcs[1..], lucks[1..], j - 1);
    forall c | c in KnownBefore(known, srcs, lucks, j)
      ensures c in later
    {
      if c !in known {
        var i :| 0 <= i < j && srcs[i].Stream? && ConsumerOf(srcs[i], lucks[i]) == c;
        assert i > 0 ==> srcs[1..][i - 1].Stream? && ConsumerOf(srcs[1..][i - 1], lucks[1..][i - 1]) == c;
      }
    }
    forall c | c in later
      ensures c in KnownBefore(known, srcs, lucks, j)
    {
      if c !in KnownAfter(known, srcs[0], lucks[0]) {
        var i :| 0 <= i < j - 1 && srcs[1..][i].Stream? && ConsumerOf(srcs[1..][i], lucks[1..][i]) == c;
        assert srcs[i + 1].Stream? && ConsumerOf(srcs[i + 1], lucks[i + 1]) == c;
      } else if c !in known {
        assert srcs[0].Stream? && ConsumerOf(srcs[0], lucks[0]) == c;
      }
    }
  }

  lemma ClearLater(js: bool, known: set<Consumer>, srcs: seq<Source>, lucks: seq<Luck>, j: nat)
    requires |srcs| == |lucks| && 0 < j < |srcs|
    ensures Clear(js, known, srcs, lucks, j) ==
              Clear(js || srcs[0].Stream?, KnownAfter(known, srcs[0], lucks[0]), srcs[1..], lucks[1..], j - 1)
  {
    JetStreamLater(js, srcs, j);
    KnownLater(known, srcs, lucks, j);
  }

  /** There is no first fault exactly when every channel is clear. */
  lemma {:induction false} NoFaultIff(js: bool, known: set<Consumer>, srcs: seq<Source>, lucks: seq<Luck>)
    requires |srcs| == |lucks|
    ensures FirstFault(js, known, srcs, lucks).None? <==> forall j :: 0 <= j < |srcs| ==> Clear(js, known, srcs, lucks, j)
    decreases |srcs|
  {
    if srcs != [] {
      assert KnownBefore(known, srcs, lucks, 0) == known;
      assert Clear(js, known, srcs, lucks, 0) <==> Fault(js, known, srcs[0], lucks[0]).None?;
      var js1, known1 := js || srcs[0].Stream?, KnownAfter(known, srcs[0], lucks[0]);
      NoFaultIff(js1, known1, srcs[1..], lucks[1..]);
      forall j | 0 < j < |srcs|
        ensures Clear(js, known, srcs, lucks, j) == Clear(js1, known1, srcs[1..], lucks[1..], j - 1)
      {
        ClearLater(js, known, srcs, lucks, j);
      }
      if forall j :: 0 <= j < |srcs| ==> Clear(js, known, srcs, lucks, j) {
        forall j | 0 <= j < |srcs| - 1
          ensures Clear(js1, known1, srcs[1..], lucks[1..], j)
        {
          assert Clear(js, known, srcs, lucks, j + 1);
        }
      }
    }
  }

  /** Start succeeds exactly when every channel, met with what the ones before it leave, has no fault. */
  lemma StartSucceedsIff(n: Net, st: Stuck, held: seq<Handle>, srcs: seq<Source>, lucks: seq<Luck>)
    requires |srcs| == |lucks|
    ensures Start(n, st, held, srcs, lucks).err.None? <==> forall j :: 0 <= j < |srcs| ==> Clear(n.js, n.consumers, srcs, lucks, j)
  {
    StartOutcome(n, st, held, srcs, lucks);
    NoFaultIff(n.js, n.consumers, srcs, lucks);
  }

  /**
   * A restart: the durable is there, with a configuration the server kept from
   * an earlier start with the same declaration; all else being well, it is bound
   * exactly when the declared ack policy is explicit.
   */
  lemma RestartBindsIff(n: Net, st: Stuck, src: Source, luck: Luck, got: D.Config)
    requires src.Stream? && src.durable != "" && src.filter != "" && (src.stream, src.durable) in n.consumers
    requires luck.existing == Some(got) && D.ServedFrom(D.Built(src.declared, src.filter), got)
    requires (n.js || luck.jetStream) && luck.stream.Found? && luck.lookupWorks && luck.consumes
    ensures Bind(n, st, src, luck).err == if src.declared.ackPolicy == D.Explicit then None else Some(ConsumerIncompatible)
  {
    BindOutcome(n, st, src, luck);
  }
}
