// start.go and stream.go as they run: channel records updated in place, bound in
// a loop, unwound in two loops. Each method is proved to do what its function in
// Resources says.
module Startup {
  import opened Wrappers
  import opened Resources
  import D = Durable

  /** The record of one bound channel. */
  class Channel {
    const stream: string
    const ephemeral: bool
    var subscription: Option<nat>
    var consume: Option<nat>
    var consumerName: string

    constructor (stream: string, ephemeral: bool, subscription: Option<nat>, consume: Option<nat>, consumerName: string)
      ensures this.stream == stream && this.ephemeral == ephemeral
      ensures this.subscription == subscription && this.consume == consume && this.consumerName == consumerName
    {
      this.stream := stream;
      this.ephemeral := ephemeral;
      this.subscription := subscription;
      this.consume := consume;
      this.consumerName := consumerName;
    }

    /** What this channel still holds. */
    ghost function View(): Handle
      reads this
    {
      Handle(subscription, consume,
             if ephemeral && consumerName != "" && stream != "" then Some((stream, consumerName)) else None)
    }
  }

  class Imp {
    const st: Stuck
    const names: D.Names
    var net: Net
    var channels: seq<Channel>
    ghost var held: seq<Handle>

    ghost predicate Valid()
      reads this, channels
    {
      && |held| == |channels|
      && (forall i :: 0 <= i < |channels| ==> channels[i].View() == held[i])
      && (forall i, j :: 0 <= i < j < |channels| ==> channels[i] != channels[j])
    }

    constructor (net: Net, st: Stuck, names: D.Names)
      ensures Valid() && this.net == net && this.st == st && held == [] && channels == []
    {
      this.net := net;
      this.st := st;
      this.names := names;
      channels := [];
      held := [];
    }

    /** Appending the record of a channel just bound. */
    method Append(ch: Channel)
      requires Valid() && ch !in channels
      modifies this`channels, this`held
      ensures Valid() && channels == old(channels) + [ch] && held == old(held) + [ch.View()]
    {
      channels := channels + [ch];
      held := held + [ch.View()];
    }

    /** What binding one channel has done, given the substrate and the handles before. */
    ghost predicate Did(b: Bound, before: seq<Handle>, err: Option<Error>)
      reads this
    {
      && net == b.n && err == b.err && (err.None? <==> b.handle.Some?)
      && held == if b.handle.Some? then before + [b.handle.value] else before
    }

    method BindSubjectChannel(luck: Luck) returns (err: Option<Error>)
      requires Valid()
      modifies this`net, this`channels, this`held
      ensures Valid() && Did(BindSubject(old(net), luck), old(held), err)
      ensures channels == old(channels) || (|channels| == |old(channels)| + 1 && channels == old(channels) + [channels[|old(channels)|]] && fresh(channels[|old(channels)|]))
    {
      if !luck.subscribes { return Some(SubscriptionFailed); }
      var sub := net.next;
      net := net.(subs := net.subs + {sub}, subscribed := net.subscribed + {sub}, next := sub + 1);
      var ch := new Channel("", false, Some(sub), None, "");
      Append(ch);
      return None;
    }

    method ResolveConsumer(stream: string, durable: string, desired: D.Config, luck: Luck) returns (name: string, ephemeral: bool, err: Option<Error>)
      requires Valid()
      modifies this`net
      ensures Valid() && Resolved(net, name, ephemeral, err) == Resolve(old(net), stream, durable, desired, luck)
    {
      name, ephemeral, err := "", false, None;
      if durable == "" {
        var c := (stream, luck.generated);
        if !luck.creates || luck.generated == "" || c in net.consumers { return "", false, Some(SubscriptionFailed); }
        net := net.(consumers := net.consumers + {c}, ephemerals := net.ephemerals + {c});
        return luck.generated, true, None;
      }
      var c := (stream, durable);
      if !luck.lookupWorks { return "", false, Some(Passed); }
      if c !in net.consumers {
        if !luck.creates { return "", false, Some(SubscriptionFailed); }
        net := net.(consumers := net.consumers + {c}, durables := net.durables + {c});
        return durable, false, None;
      }
      var diff := D.CompatDiff(luck.existing, desired, names);
      if diff != "" { return "", false, Some(ConsumerIncompatible); }
      return durable, false, None;
    }

    method BindStreamChannel(stream: string, durable: string, filter: string, declared: D.Declared, luck: Luck) returns (err: Option<Error>)
      requires Valid() && stream != ""
      modifies this`net, this`channels, this`held
      ensures Valid() && Did(BindStream(old(net), st, stream, durable, D.Built(declared, filter), luck), old(held), err)
      ensures channels == old(channels) || (|channels| == |old(channels)| + 1 && channels == old(channels) + [channels[|old(channels)|]] && fresh(channels[|old(channels)|]))
    {
      if !net.js {
        if !luck.jetStream { return Some(Passed); }
        net := net.(js := true);
      }
      assert net == old(net).(js := true);
      match luck.stream {
        case Missing => return Some(StreamNotFound);
        case Broken => return Some(Passed);
        case Found =>
      }
      var desired := D.BuildConsumerConfig(declared, filter);
      var name, ephemeral, rerr := ResolveConsumer(stream, durable, desired, luck);
      if rerr.Some? { return rerr; }
      if !luck.consumes {
        if ephemeral { DeleteConsumer((stream, name)); }
        return Some(SubscriptionFailed);
      }
      var consume := net.next;
      net := net.(loops := net.loops + {consume}, next := consume + 1);
      var ch := new Channel(stream, ephemeral, None, Some(consume), name);
      Append(ch);
      return None;
    }

    method DeleteConsumer(c: Consumer)
      modifies this`net
      ensures net == Delete(old(net), st, c)
    {
      if c !in st.consumers { net := net.(consumers := net.consumers - {c}); }
    }

    /** start. */
    method Start(srcs: seq<Source>, lucks: seq<Luck>) returns (err: Option<Error>)
      requires Valid() && channels == [] && |srcs| == |lucks|
      requires forall src :: src in srcs && src.Stream? ==> src.stream != ""
      modifies this`net, this`channels, this`held
      ensures Valid() && Started(net, held, err) == Resources.Start(old(net), st, [], srcs, lucks)
      ensures fresh(channels)
    {
      err := None;
      for idx := 0 to |srcs|
        invariant Valid() && err.None? && fresh(channels)
        invariant Resources.Start(old(net), st, [], srcs, lucks) == Resources.Start(net, st, held, srcs[idx..], lucks[idx..])
      {
        assert srcs[idx..][1..] == srcs[idx + 1..] && lucks[idx..][1..] == lucks[idx + 1..];
        assert srcs[idx] in srcs;
        match srcs[idx] {
          case Subject => err := BindSubjectChannel(lucks[idx]);
          case Stream(stream, durable, filter, declared) =>
            err := BindStreamChannel(stream, durable, filter, declared, lucks[idx]);
          case Unsupported => err := Some(SpecInvalid);
        }
        if err.Some? { return; }
      }
      assert srcs[|srcs|..] == [] && lucks[|lucks|..] == [];
    }

    /** The body of unwind's first loop. */
    method UnsubscribeChannel(i: nat)
      requires Valid() && i < |channels|
      modifies this`net, this`held, channels[i]
      ensures Valid() && net == Unsubscribe(old(net), st, old(held)[i])
      ensures held == old(held)[i := old(held)[i].(sub := None)]
    {
      var ch := channels[i];
      if ch.subscription.Some? {
        if ch.subscription.value !in st.subs { net := net.(subs := net.subs - {ch.subscription.value}); }
        ch.subscription := None;
      }
      held := held[i := held[i].(sub := None)];
    }

    /** The body of the teardown loop. */
    method TeardownChannel(i: nat)
      requires Valid() && i < |channels|
      modifies this`net, this`held, channels[i]
      ensures Valid() && net == Teardown(old(net), st, old(held)[i])
      ensures held == old(held)[i := old(held)[i].(loop := None, ephemeral := None)]
    {
      var ch := channels[i];
      if ch.consume.Some? {
        net := net.(loops := net.loops - {ch.consume.value});
        ch.consume := None;
      }
      if ch.ephemeral && ch.consumerName != "" && ch.stream != "" {
        DeleteConsumer((ch.stream, ch.consumerName));
        ch.consumerName := "";
      }
      held := held[i := held[i].(loop := None, ephemeral := None)];
    }

    /** A loop that has rewritten the first i handles rewrites the next. */
    lemma Rewritten(was: seq<Handle>, before: seq<Handle>, i: nat, h: Handle)
      requires i < |was| == |before| && before[i..] == was[i..]
      ensures before[i] == was[i]
      ensures was[..i + 1][..i] == was[..i] && was[..i + 1][i] == was[i]
      ensures before[i := h][..i + 1] == before[..i] + [h]
      ensures before[i := h][i + 1..] == was[i + 1..]
    {
      assert before[i] == before[i..][0] == was[i..][0] == was[i];
      assert before[i := h][i + 1..] == before[i..][1..] == was[i..][1..];
    }

    /** The first loop of unwind. */
    method UnsubscribeChannels()
      requires Valid()
      modifies this`net, this`held, channels
      ensures Valid() && channels == old(channels)
      ensures Unwound(net, held) == UnsubscribeAll(old(net), st, old(held))
    {
      for i := 0 to |channels|
        invariant Valid() && channels == old(channels)
        invariant Unwound(net, held[..i]) == UnsubscribeAll(old(net), st, old(held)[..i])
        invariant held[i..] == old(held)[i..]
      {
        Rewritten(old(held), held, i, held[i].(sub := None));
        UnsubscribeChannel(i);
      }
      assert held[..|channels|] == held && old(held)[..|channels|] == old(held);
    }

    /** teardownStreamConsumers. */
    method TeardownStreamConsumers()
      requires Valid()
      modifies this`net, this`held, channels
      ensures Valid() && channels == old(channels)
      ensures Unwound(net, held) == if old(net).js then TeardownAll(old(net), st, old(held)) else Unwound(old(net), old(held))
    {
      if !net.js { return; }
      for i := 0 to |channels|
        invariant Valid() && channels == old(channels)
        invariant Unwound(net, held[..i]) == TeardownAll(old(net), st, old(held)[..i])
        invariant held[i..] == old(held)[i..]
      {
        Rewritten(old(held), held, i, held[i].(loop := None, ephemeral := None));
        TeardownChannel(i);
      }
      assert held[..|channels|] == held && old(held)[..|channels|] == old(held);
    }

    /** unwind. */
    method Unwind()
      requires Valid()
      modifies this`net, this`held, channels
      ensures Valid() && channels == old(channels)
      ensures Unwound(net, held) == Resources.Unwind(old(net), st, old(held))
    {
      UnsubscribeAllReleases(net, st, held);
      UnsubscribeChannels();
      TeardownStreamConsumers();
    }

    /** Start run to its end, then unwind, because start failed or because the imp shuts down afterwards; Overlap.dfy has unwinding that does not wait. */
    method StartAndUnwind(srcs: seq<Source>, lucks: seq<Luck>) returns (err: Option<Error>)
      requires Valid() && channels == [] && |srcs| == |lucks| && Untouched(net)
      requires forall src :: src in srcs && src.Stream? ==> src.stream != ""
      modifies this`net, this`channels, this`held
      ensures net.subs == old(net).subs + (net.subscribed * st.subs)
      ensures net.loops == old(net).loops
      ensures net.consumers == old(net).consumers + net.durables + (net.ephemerals * st.consumers)
    {
      NothingIsLeaked(net, st, srcs, lucks);
      err := Start(srcs, lucks);
      Unwind();
    }
  }
}
