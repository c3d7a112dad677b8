// Durable consumers in stream.go: the configuration built from a declaration,
// and the compatibility check an existing consumer must pass.
module Durable {
  import opened Wrappers
  import opened Decimal

  /** AckPolicy as the client library numbers it: zero is explicit. */
  datatype AckPolicy = Explicit | All | NoAck

  /** Fields hold their Go zero value when left unset. */
  datatype Config = Config(
    filter: string, ackPolicy: AckPolicy, ackWait: int, maxDeliver: Int64, deliverPolicy: int, replayPolicy: int,
    optStartSeq: int, optStartTime: Option<int>, maxAckPending: int, description: string)

  /** A declared stream source's consumer settings. */
  datatype Declared = Declared(
    ackPolicy: AckPolicy, ackWait: int, maxDeliver: Int64, deliverPolicy: int, replayPolicy: int,
    optStartSeq: int, optStartTime: Option<int>, maxAckPending: int, description: string)

  /** The library's names for policies and durations, used in messages only. */
  datatype Names = Names(ack: AckPolicy -> string, deliver: int -> string, replay: int -> string, duration: int -> string)

  const Zero := Config("", Explicit, 0, 0, 0, 0, 0, None, 0, "")

  /** buildConsumerConfig. */
  method BuildConsumerConfig(cc: Declared, filter: string) returns (cfg: Config)
    ensures cfg == Built(cc, filter)
    ensures cfg.filter == filter && cfg.ackPolicy == cc.ackPolicy && cfg.maxDeliver == cc.maxDeliver
    ensures cfg.ackWait == cc.ackWait || (cc.ackWait < 0 && cfg.ackWait == 0)
    ensures cfg.deliverPolicy == cc.deliverPolicy && cfg.replayPolicy == cc.replayPolicy
    ensures cfg.optStartSeq == cc.optStartSeq && cfg.optStartTime == cc.optStartTime
    ensures cfg.maxAckPending == cc.maxAckPending && cfg.description == cc.description
  {
    cfg := Zero.(filter := filter, ackPolicy := Explicit);
    if cc.ackPolicy != Explicit { cfg := cfg.(ackPolicy := cc.ackPolicy); }
    if cc.ackWait > 0 { cfg := cfg.(ackWait := cc.ackWait); }
    if cc.maxDeliver != 0 { cfg := cfg.(maxDeliver := cc.maxDeliver); }
    if cc.deliverPolicy != 0 { cfg := cfg.(deliverPolicy := cc.deliverPolicy); }
    if cc.replayPolicy != 0 { cfg := cfg.(replayPolicy := cc.replayPolicy); }
    if cc.optStartSeq != 0 { cfg := cfg.(optStartSeq := cc.optStartSeq); }
    if cc.optStartTime.Some? { cfg := cfg.(optStartTime := cc.optStartTime); }
    if cc.maxAckPending != 0 { cfg := cfg.(maxAckPending := cc.maxAckPending); }
    if cc.description != "" { cfg := cfg.(description := cc.description); }
  }

  /** A declaration, field by field: only a negative ack wait is dropped. */
  function Built(cc: Declared, filter: string): Config {
    Config(filter, cc.ackPolicy, if cc.ackWait > 0 then cc.ackWait else 0, cc.maxDeliver, cc.deliverPolicy, cc.replayPolicy,
           cc.optStartSeq, cc.optStartTime, cc.maxAckPending, cc.description)
  }

  /** The fields the check compares, as a yes or no. */
  predicate Compatible(got: Config, desired: Config) {
    && got.filter == desired.filter
    && got.ackPolicy == Explicit
    && (desired.deliverPolicy != 0 ==> got.deliverPolicy == desired.deliverPolicy)
    && (desired.replayPolicy != 0 ==> got.replayPolicy == desired.replayPolicy)
    && (desired.ackWait > 0 ==> got.ackWait >= desired.ackWait)
    && (desired.maxDeliver != 0 ==> got.maxDeliver == desired.maxDeliver)
  }

  function FormatDiff(field: string, existing: string, declared: string): (s: string)
    ensures s != ""
  {
    field + ": existing=\"" + existing + "\", declared=\"" + declared + "\""
  }

  function FormatDiffInt(field: string, existing: Int64, declared: Int64): (s: string)
    ensures s != ""
  {
    field + ": existing=" + Printed(existing) + ", declared=" + Printed(declared)
  }

  /** strings.Join. */
  function Join(parts: seq<string>, sep: string): string {
    if parts == [] then "" else if |parts| == 1 then parts[0] else parts[0] + sep + Join(parts[1..], sep)
  }

  lemma {:induction false} JoinEmpty(parts: seq<string>, sep: string)
    requires forall p :: p in parts ==> p != ""
    ensures Join(parts, sep) == "" <==> parts == []
  {
    if parts != [] {
      assert parts[0] in parts;
    }
  }

  /** One comparison: a line if the fields differ. */
  method Compare(differs: bool, line: string, diffs: seq<string>) returns (r: seq<string>)
    requires line != "" && forall p :: p in diffs ==> p != ""
    ensures r == [] <==> diffs == [] && !differs
    ensures forall p :: p in r ==> p != ""
  {
    r := diffs;
    if differs { r := r + [line]; }
  }

  /** compatDiff: empty exactly when the existing consumer is compatible. */
  method CompatDiff(existing: Option<Config>, desired: Config, names: Names) returns (diff: string)
    ensures diff == "" <==> existing.Some? && Compatible(existing.value, desired)
  {
    if existing.None? { return "existing consumer info unavailable"; }
    var got := existing.value;
    var diffs := Compare(got.filter != desired.filter, FormatDiff("filter_subject", got.filter, desired.filter), []);
    diffs := Compare(got.ackPolicy != Explicit, FormatDiff("ack_policy", names.ack(got.ackPolicy), "explicit"), diffs);
    diffs := Compare(desired.deliverPolicy != 0 && got.deliverPolicy != desired.deliverPolicy,
                     FormatDiff("deliver_policy", names.deliver(got.deliverPolicy), names.deliver(desired.deliverPolicy)), diffs);
    diffs := Compare(desired.replayPolicy != 0 && got.replayPolicy != desired.replayPolicy,
                     FormatDiff("replay_policy", names.replay(got.replayPolicy), names.replay(desired.replayPolicy)), diffs);
    diffs := Compare(desired.ackWait > 0 && got.ackWait < desired.ackWait,
                     FormatDiff("ack_wait", names.duration(got.ackWait), names.duration(desired.ackWait)), diffs);
    diffs := Compare(desired.maxDeliver != 0 && got.maxDeliver != desired.maxDeliver,
                     FormatDiffInt("max_deliver", got.maxDeliver, desired.maxDeliver), diffs);
    JoinEmpty(diffs, "; ");
    return Join(diffs, "; ");
  }

  /**
   * What a consumer that passes may be changed to and still pass: nothing else in
   * the fields the declaration sets, but a longer ack wait; anything in the
   * fields it leaves unset, and in those the check does not look at.
   */
  lemma DriftIsRefused(got: Config, cc: Declared, filter: string)
    requires Compatible(got, Built(cc, filter))
    ensures forall x :: Compatible(got.(filter := x), Built(cc, filter)) <==> x == filter
    ensures forall x :: Compatible(got.(ackPolicy := x), Built(cc, filter)) <==> x == Explicit
    ensures forall x :: Compatible(got.(ackWait := x), Built(cc, filter)) <==> cc.ackWait <= 0 || x >= cc.ackWait
    ensures forall x :: Compatible(got.(maxDeliver := x), Built(cc, filter)) <==> cc.maxDeliver == 0 || x == cc.maxDeliver
    ensures forall x :: Compatible(got.(deliverPolicy := x), Built(cc, filter)) <==> cc.deliverPolicy == 0 || x == cc.deliverPolicy
    ensures forall x :: Compatible(got.(replayPolicy := x), Built(cc, filter)) <==> cc.replayPolicy == 0 || x == cc.replayPolicy
    ensures forall a, b, c, d ::
              Compatible(got.(optStartSeq := a, optStartTime := b, maxAckPending := c, description := d), Built(cc, filter))
  {
  }

  /** A server that keeps what it was given and fills in only fields left zero; the ack policy it was given is always meant. */
  ghost predicate ServedFrom(asked: Config, got: Config) {
    && got.ackPolicy == asked.ackPolicy
    && (asked.filter != "" ==> got.filter == asked.filter)
    && (asked.ackWait != 0 ==> got.ackWait == asked.ackWait)
    && (asked.maxDeliver != 0 ==> got.maxDeliver == asked.maxDeliver)
    && (asked.deliverPolicy != 0 ==> got.deliverPolicy == asked.deliverPolicy)
    && (asked.replayPolicy != 0 ==> got.replayPolicy == asked.replayPolicy)
  }

  /**
   * Durable restart: a durable the harness created from a declaration passes the
   * check on a later start with the same declaration exactly when the
   * declaration leaves the ack policy explicit; any other policy is accepted
   * when creating and refused ever after.
   */
  method RestartDiff(cc: Declared, filter: string, got: Config, names: Names) returns (diff: string)
    requires filter != "" && ServedFrom(Built(cc, filter), got)
    ensures diff == "" <==> cc.ackPolicy == Explicit
  {
    var desired := BuildConsumerConfig(cc, filter);
    diff := CompatDiff(Some(got), desired, names);
  }
}
