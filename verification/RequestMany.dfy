// The fan-out collect loop of request.go: options, the reply loop, and the
// temporary inbox, over any finite order in which events are chosen.
module RequestMany {
  import opened Wrappers

  type Bytes = seq<bv8>

  datatype Event = Reply(status: bool, data: Bytes) | Closed | Deadline | Cancelled

  datatype Publish = Published | NoResponders | PublishFailed

  datatype Error = SubscribeError | NoRespondersError | PublishError | ContextError

  datatype RequestOption = Window(d: int) | Max(n: int)

  // ---- options ----

  /** The option sets a cap, or a window, to something positive. */
  predicate SetsMax(o: RequestOption) {
    o.Max? && o.n > 0
  }

  predicate SetsWindow(o: RequestOption) {
    o.Window? && o.d > 0
  }

  ghost predicate NoMax(opts: seq<RequestOption>, from: nat, to: nat)
    requires to <= |opts|
  {
    forall k :: from <= k < to ==> !SetsMax(opts[k])
  }

  ghost predicate NoWindow(opts: seq<RequestOption>, from: nat, to: nat)
    requires to <= |opts|
  {
    forall k :: from <= k < to ==> !SetsWindow(opts[k])
  }

  /** max is the last positive cap among the options, or zero if there is none. */
  ghost predicate IsLastMax(opts: seq<RequestOption>, max: int) {
    || (max == 0 && NoMax(opts, 0, |opts|))
    || (max > 0 && exists i: nat :: i < |opts| && opts[i] == Max(max) && NoMax(opts, i + 1, |opts|))
  }

  /** window is the last positive window among the options, or the default if there is none. */
  ghost predicate IsLastWindow(opts: seq<RequestOption>, defaultWindow: int, window: int) {
    || (window == defaultWindow && NoWindow(opts, 0, |opts|))
    || (window > 0 && exists i: nat :: i < |opts| && opts[i] == Window(window) && NoWindow(opts, i + 1, |opts|))
  }

  /** There is only one such cap. */
  lemma LastMaxUnique(opts: seq<RequestOption>, max: int, max': int)
    requires IsLastMax(opts, max) && IsLastMax(opts, max')
    ensures max == max'
  {
    if max > 0 {
      var i: nat :| i < |opts| && opts[i] == Max(max) && NoMax(opts, i + 1, |opts|);
      assert SetsMax(opts[i]);
      var j: nat :| j < |opts| && opts[j] == Max(max') && NoMax(opts, j + 1, |opts|);
      assert SetsMax(opts[j]);
    }
  }

  /** Applying the options in order to a zero configuration, then the default window. */
  method ResolveOptions(opts: seq<RequestOption>, defaultWindow: int) returns (window: int, max: int)
    ensures max >= 0 && IsLastMax(opts, max)
    ensures IsLastWindow(opts, defaultWindow, window)
  {
    window, max := 0, 0;
    ghost var w, m := 0, 0;  // one past the options that set them, or zero
    for i := 0 to |opts|
      invariant m <= i && NoMax(opts, m, i) && if m == 0 then max == 0 else max > 0 && opts[m - 1] == Max(max)
      invariant w <= i && NoWindow(opts, w, i) && if w == 0 then window == 0 else window > 0 && opts[w - 1] == Window(window)
    {
      match opts[i] {
        case Window(d) => if d > 0 { window, w := d, i + 1; }
        case Max(n) => if n > 0 { max, m := n, i + 1; }
      }
    }
    if window <= 0 { window := defaultWindow; }
  }

  // ---- specification ----

  /** The application payloads among some events, in order: status replies carry none. */
  function Payloads(events: seq<Event>): seq<Bytes> {
    if events == [] then []
    else
      var e := events[|events| - 1];
      Payloads(events[..|events| - 1]) + if e.Reply? && !e.status then [e.data] else []
  }

  predicate Ends(e: Event) {
    !e.Reply?
  }

  /** Collecting stops with this prefix: its last event ends the wait, or is the payload that reaches the cap. */
  predicate Stops(max: int, prefix: seq<Event>) {
    prefix != [] &&
    var e := prefix[|prefix| - 1];
    Ends(e) || (!e.status && max > 0 && |Payloads(prefix)| >= max)
  }

  /** n is where collecting stops: the shortest prefix that stops it. */
  ghost predicate FirstStop(max: int, events: seq<Event>, n: nat) {
    n <= |events| && Stops(max, events[..n]) && forall k :: 0 <= k < n ==> !Stops(max, events[..k])
  }

  /** A prefix that has not stopped holds fewer payloads than the cap. */
  lemma {:induction false} NotStoppedBelowCap(max: int, events: seq<Event>, n: nat)
    requires max > 0 && n <= |events| && forall k :: 0 <= k <= n ==> !Stops(max, events[..k])
    ensures |Payloads(events[..n])| < max
  {
    if n > 0 {
      NotStoppedBelowCap(max, events, n - 1);
      assert events[..n][..n - 1] == events[..n - 1];
      assert !Stops(max, events[..n]);
    }
  }

  /** The reply cap is never exceeded. */
  lemma NeverMoreThanMax(max: int, events: seq<Event>, n: nat)
    requires FirstStop(max, events, n) && max > 0
    ensures |Payloads(events[..n])| <= max
  {
    NotStoppedBelowCap(max, events, n - 1);
    assert events[..n][..n - 1] == events[..n - 1];
  }

  /** There is only one place to stop. */
  lemma FirstStopUnique(max: int, events: seq<Event>, n: nat, m: nat)
    requires FirstStop(max, events, n) && FirstStop(max, events, m)
    ensures n == m
  {
  }

  /** A wait that some event ends does stop. */
  lemma {:induction false} StopsSomewhere(max: int, events: seq<Event>) returns (n: nat)
    requires exists i :: 0 <= i < |events| && Ends(events[i])
    ensures FirstStop(max, events, n)
  {
    var last :| 0 <= last < |events| && Ends(events[last]);
    assert Stops(max, events[..last + 1]);
    n := 0;
    while !Stops(max, events[..n])
      invariant n <= last + 1 && forall k :: 0 <= k < n ==> !Stops(max, events[..k])
      decreases last + 1 - n
    {
      n := n + 1;
    }
  }

  // ---- the same, event by event ----

  /** How many of the first n events are application replies. */
  function Heard(events: seq<Event>, n: nat): nat
    requires n <= |events|
  {
    if n == 0 then 0 else Heard(events, n - 1) + if events[n - 1].Reply? && !events[n - 1].status then 1 else 0
  }

  /**
   * The first n events have been waited for, with this outcome: each application
   * reply stands at the place of its arrival, and nothing else does; only the
   * last event ends the wait, or reaches the cap, which nothing before it did.
   */
  ghost predicate Collected(max: int, events: seq<Event>, n: nat, collected: seq<Bytes>) {
    && 0 < n <= |events|
    && |collected| == Heard(events, n)
    && (forall i :: 0 <= i < n && events[i].Reply? && !events[i].status ==>
          Heard(events, i) < |collected| && collected[Heard(events, i)] == events[i].data)
    && (forall i :: 0 <= i < n - 1 ==> events[i].Reply?)
    && (max > 0 ==> Heard(events, n - 1) < max)
    && (events[n - 1].Reply? ==> !events[n - 1].status && max > 0 && |collected| == max)
  }

  lemma {:induction false} PayloadCount(events: seq<Event>, n: nat)
    requires n <= |events|
    ensures |Payloads(events[..n])| == Heard(events, n)
  {
    if n > 0 {
      PayloadCount(events, n - 1);
      assert events[..n][..n - 1] == events[..n - 1];
    }
  }

  /** A reply's payload stands after those of the replies before it. */
  lemma {:induction false} PayloadAt(events: seq<Event>, n: nat, i: nat)
    requires i < n <= |events| && events[i].Reply? && !events[i].status
    ensures Heard(events, i) < |Payloads(events[..n])| && Payloads(events[..n])[Heard(events, i)] == events[i].data
  {
    assert events[..n][..n - 1] == events[..n - 1];
    if i < n - 1 {
      PayloadAt(events, n - 1, i);
    } else {
      PayloadCount(events, i);
    }
  }

  lemma OnlyRepliesBefore(max: int, events: seq<Event>, n: nat, i: nat)
    requires FirstStop(max, events, n) && i < n - 1
    ensures events[i].Reply?
  {
    assert !Stops(max, events[..i + 1]);
  }

  lemma FirstStopCollects(max: int, events: seq<Event>, n: nat)
    requires FirstStop(max, events, n)
    ensures Collected(max, events, n, Payloads(events[..n]))
  {
    PayloadCount(events, n);
    PayloadCount(events, n - 1);
    assert events[..n][n - 1] == events[n - 1];
    if max > 0 {
      NotStoppedBelowCap(max, events, n - 1);
    }
    forall i | 0 <= i < n && events[i].Reply? && !events[i].status
      ensures Heard(events, i) < |Payloads(events[..n])| && Payloads(events[..n])[Heard(events, i)] == events[i].data
    {
      PayloadAt(events, n, i);
    }
    forall i | 0 <= i < n - 1
      ensures events[i].Reply?
    {
      OnlyRepliesBefore(max, events, n, i);
    }
  }

  // ---- the implementation ----

  /** The connection: the inboxes it is subscribed to. */
  class Conn {
    var inboxes: set<nat>

    constructor ()
      ensures inboxes == {}
    {
      inboxes := {};
    }

    /**
     * requestMany: events is the order in which the select picks replies and
     * endings; unsubscribes says whether the deferred Unsubscribe succeeds.
     */
    method RequestMany(inbox: nat, subscribes: bool, publish: Publish, unsubscribes: bool,
                       opts: seq<RequestOption>, defaultWindow: int, events: seq<Event>)
      returns (collected: seq<Bytes>, err: Option<Error>)
      requires inbox !in inboxes
      requires exists i :: 0 <= i < |events| && Ends(events[i])
      modifies this
      ensures inboxes == if subscribes && !unsubscribes then old(inboxes) + {inbox} else old(inboxes)
      ensures !subscribes ==> collected == [] && err == Some(SubscribeError)
      ensures subscribes && publish.NoResponders? ==> collected == [] && err == Some(NoRespondersError)
      ensures subscribes && publish.PublishFailed? ==> collected == [] && err == Some(PublishError)
      ensures subscribes && publish.Published? ==>
                exists n: nat, max: int :: IsLastMax(opts, max) && Collected(max, events, n, collected)
                            && (err == if events[n - 1].Cancelled? then Some(ContextError) else None)
      ensures forall max :: IsLastMax(opts, max) && max > 0 ==> |collected| <= max
    {
      collected := [];
      var window, max := ResolveOptions(opts, defaultWindow);
      if !subscribes { return [], Some(SubscribeError); }
      inboxes := inboxes + {inbox};
      match publish {
        case NoResponders => err := Some(NoRespondersError);
        case PublishFailed => err := Some(PublishError);
        case Published => collected, err := Collect(max, events);
      }
      if unsubscribes { inboxes := inboxes - {inbox}; }
    }

    /** The select loop. */
    method Collect(max: int, events: seq<Event>) returns (collected: seq<Bytes>, err: Option<Error>)
      requires exists i :: 0 <= i < |events| && Ends(events[i])
      ensures exists n: nat :: FirstStop(max, events, n) && Collected(max, events, n, collected)
                          && (err == if events[n - 1].Cancelled? then Some(ContextError) else None)
    {
      ghost var n := StopsSomewhere(max, events);
      collected, err := [], None;
      var i := 0;
      while true
        invariant i < n && collected == Payloads(events[..i]) && err == None
        decreases n - i
      {
        assert events[..i + 1][..i] == events[..i];
        assert i + 1 < n ==> !Stops(max, events[..i + 1]);
        i := i + 1;
        match events[i - 1] {
          case Closed => break;
          case Deadline => break;
          case Cancelled => err := Some(ContextError); break;
          case Reply(status, data) =>
            if !status {
              collected := collected + [data];
              if max > 0 && |collected| >= max { break; }
            }
        }
      }
      assert i == n && collected == Payloads(events[..n]);
      FirstStopCollects(max, events, n);
    }
  }
}
