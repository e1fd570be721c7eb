/** The providers and the rotation protocol see the same signals: a subscription in one is `sends` in the other. */
module Broadcast {
  import opened Base
  import opened RootCa
  import R = Rotation

  /** The provider's content is the protocol's bundle, and the sends waiting for the manager are its `sends`. */
  predicate Match(h: Hub, s: R.State, i: nat, ch: Channel) {
    && s.bundle == h.content && s.sends == Waiting(h, i, ch)
    && (s.loop.NotStarted? <==> i >= |h.subscribers|)
  }

  // ---------- What the manager and its provider observe of each other ----------

  /** The events of a history that concern the subscriber with this channel. */
  predicate Concerns(e: Event, ch: Channel) {
    e.Reload? || e.Receive? || e == Subscribe(ch) || e == Deliver(ch)
  }

  function ObservedOne(e: Event, ch: Channel): seq<Event> {
    if Concerns(e, ch) then [e] else []
  }

  function Observed(events: seq<Event>, ch: Channel): seq<Event> {
    if events == [] then [] else ObservedOne(events[0], ch) + Observed(events[1..], ch)
  }

  /** The same of the protocol's steps. */
  function AsEvent(a: R.Action, ch: Channel): Option<Event> {
    match a
    case Reload(read) => Some(Reload(read))
    case Publish(data) => Some(Receive(data))
    case Subscribe => Some(Subscribe(ch))
    case TakeEvent => Some(Deliver(ch))
    case _ => None
  }

  function TraceOne(a: R.Action, ch: Channel): seq<Event> {
    match AsEvent(a, ch) case None => [] case Some(e) => [e]
  }

  function Trace(actions: seq<R.Action>, ch: Channel): seq<Event> {
    if actions == [] then [] else TraceOne(actions[0], ch) + Trace(actions[1..], ch)
  }

  lemma {:induction false} TraceConcat(first: seq<R.Action>, second: seq<R.Action>, ch: Channel)
    ensures Trace(first + second, ch) == Trace(first, ch) + Trace(second, ch)
  {
    hide TraceOne;
    if first == [] {
      assert first + second == second;
    } else {
      assert (first + second)[1..] == first[1..] + second;
      TraceConcat(first[1..], second, ch);
      ConcatAssociative(TraceOne(first[0], ch), Trace(first[1..], ch), Trace(second, ch));
    }
  }

  lemma {:induction false} ObservedConcat(first: seq<Event>, second: seq<Event>, ch: Channel)
    ensures Observed(first + second, ch) == Observed(first, ch) + Observed(second, ch)
  {
    hide ObservedOne;
    if first == [] {
      assert first + second == second;
    } else {
      assert (first + second)[1..] == first[1..] + second;
      ObservedConcat(first[1..], second, ch);
      ConcatAssociative(ObservedOne(first[0], ch), Observed(first[1..], ch), Observed(second, ch));
    }
  }

  // ---------- Every history is observed in some run of the protocol ----------

  /** The manager can receive: not subscribed yet, or waiting with an empty slot. */
  predicate Ready(s: R.State) {
    !s.crashed && s.token == 0 && (s.loop.NotStarted? || s.loop.Idle?)
  }

  /** The protocol's steps for one event; after a delivery the manager runs a pass that fails at once. */
  function StepsFor(h: Hub, e: Event, i: nat, ch: Channel): seq<R.Action> {
    match e
    case Reload(read) => [R.Reload(read)]
    case Receive(b) => [R.Publish(b)]
    case Subscribe(_) => if |h.subscribers| == i then [R.Subscribe] else []
    case Resolve(_) => []
    case Deliver(c) => if c == ch then [R.TakeEvent, R.SendToken, R.TakeToken, R.List([], false)] else []
  }

  lemma DeliverySteps(cfg: R.Config, s: R.State)
    requires !s.crashed && s.loop.Idle? && s.token == 0 && s.sends > 0
    ensures var steps := [R.TakeEvent, R.SendToken, R.TakeToken, R.List([], false)];
      && R.Runs(cfg, s, steps)
      && R.After(cfg, s, steps) == s.(sends := s.sends - 1, sleeping := s.sleeping + 1)
  {
    hide R.ApplyVisit;
    var s1 := s.(sends := s.sends - 1, loop := R.Holding);
    var s2 := s.(sends := s.sends - 1, token := 1);
    var s3 := s.(sends := s.sends - 1, loop := R.Listing);
    var s4 := s.(sends := s.sends - 1, sleeping := s.sleeping + 1);
    var d := [R.List([], false)];
    var c := [R.TakeToken] + d;
    var b := [R.SendToken] + c;
    var a := [R.TakeEvent] + b;
    assert d[1..] == [] && c[1..] == d && b[1..] == c && a[1..] == b;
    assert R.Runs(cfg, s3, d) && R.After(cfg, s3, d) == s4;
    assert R.Runs(cfg, s2, c) && R.After(cfg, s2, c) == s4;
    assert R.Runs(cfg, s1, b) && R.After(cfg, s1, b) == s4;
    assert R.Runs(cfg, s, a) && R.After(cfg, s, a) == s4;
  }

  lemma EventMatched(cfg: R.Config, h: Hub, e: Event, s: R.State, i: nat, ch: Channel)
    requires WellFormed(h) && Enabled(h, e) && Position(h, i, ch) && Position(Apply(h, e), i, ch)
    requires Match(h, s, i, ch) && Ready(s)
    ensures var steps := StepsFor(h, e, i, ch);
      && R.Runs(cfg, s, steps)
      && Match(Apply(h, e), R.After(cfg, s, steps), i, ch) && Ready(R.After(cfg, s, steps))
  {
    hide R.ApplyVisit, Waiting;
    StepAccounts(h, e, i, ch);
    var steps := StepsFor(h, e, i, ch);
    if |steps| == 1 {
      R.RunsOne(cfg, s, steps[0]);
    } else if |steps| == 4 {
      WaitingSubscribed(h, i, ch);
      DeliverySteps(cfg, s);
    }
  }

  lemma EventTraced(h: Hub, e: Event, i: nat, ch: Channel)
    requires WellFormed(h) && Enabled(h, e) && Position(h, i, ch) && Position(Apply(h, e), i, ch)
    ensures Trace(StepsFor(h, e, i, ch), ch) == Observed([e], ch)
  {
    var steps := StepsFor(h, e, i, ch);
    assert [e][1..] == [] && Observed([e], ch) == ObservedOne(e, ch);
    if |steps| == 1 {
      assert steps[1..] == [] && Trace(steps, ch) == TraceOne(steps[0], ch);
    } else if |steps| == 4 {
      TraceOfDelivery(ch);
    }
  }

  lemma WaitingSubscribed(h: Hub, i: nat, ch: Channel)
    requires WellFormed(h) && Position(h, i, ch) && Sending(ch) in h.goroutines
    ensures i < |h.subscribers| && Waiting(h, i, ch) > 0
  {
  }

  lemma TraceOfDelivery(ch: Channel)
    ensures Trace([R.TakeEvent, R.SendToken, R.TakeToken, R.List([], false)], ch) == [Deliver(ch)]
  {
    var d := [R.List([], false)];
    var c := [R.TakeToken] + d;
    var b := [R.SendToken] + c;
    var a := [R.TakeEvent] + b;
    assert d[1..] == [] && c[1..] == d && b[1..] == c && a[1..] == b;
    assert Trace(d, ch) == [] && Trace(c, ch) == [] && Trace(b, ch) == [];
    assert Trace(a, ch) == [Deliver(ch)] && a == [R.TakeEvent, R.SendToken, R.TakeToken, R.List([], false)];
  }

  /** Some run of the protocol shows the manager these events, and ends in a matching state. */
  ghost predicate SeenInProtocol(cfg: R.Config, s: R.State, seen: seq<Event>, end: Hub, i: nat, ch: Channel) {
    exists actions ::
      R.Runs(cfg, s, actions) && Trace(actions, ch) == seen && Match(end, R.After(cfg, s, actions), i, ch)
  }

  lemma {:induction false} HistoryInProtocol(cfg: R.Config, h: Hub, events: seq<Event>, s: R.State, i: nat)
    requires WellFormed(h) && Runs(h, events) && i < |After(h, events).subscribers|
    requires Match(h, s, i, After(h, events).subscribers[i]) && Ready(s)
    ensures var ch := After(h, events).subscribers[i];
      SeenInProtocol(cfg, s, Observed(events, ch), After(h, events), i, ch)
    decreases |events|
  {
    hide Apply, Enabled, Match, R.Apply, R.Enabled, Ready, StepsFor, ObservedOne, TraceOne;
    var ch := After(h, events).subscribers[i];
    if events == [] {
      assert R.Runs(cfg, s, []) && Trace([], ch) == [] && R.After(cfg, s, []) == s;
    } else {
      var g := Apply(h, events[0]);
      StepWellFormed(h, events[0]);
      PositionsAreStable(h, events, i);
      PositionsAreStable(g, events[1..], i);
      EventMatched(cfg, h, events[0], s, i, ch);
      EventTraced(h, events[0], i, ch);
      var steps := StepsFor(h, events[0], i, ch);
      var t := R.After(cfg, s, steps);
      HistoryInProtocol(cfg, g, events[1..], t, i);
      var rest :| R.Runs(cfg, t, rest) && Trace(rest, ch) == Observed(events[1..], ch)
                  && Match(After(g, events[1..]), R.After(cfg, t, rest), i, ch);
      R.RunsConcat(cfg, s, steps, rest);
      TraceConcat(steps, rest, ch);
      assert [events[0]] + events[1..] == events;
      ObservedConcat([events[0]], events[1..], ch);
    }
  }

  /**
   Whatever a provider does, with any number of subscribers: what the manager, subscriber i, gets to see of
   it is seen in some run of the protocol, which ends with the provider's content as its bundle and the
   sends waiting for the manager as its `sends`.
   */
  lemma HubRefinesProtocol(cfg: R.Config, s0: R.State, events: seq<Event>, i: nat)
    requires R.Init(s0) && Runs(Hub(s0.bundle, [], multiset{}), events)
    requires i < |After(Hub(s0.bundle, [], multiset{}), events).subscribers|
    ensures var end := After(Hub(s0.bundle, [], multiset{}), events); var ch := end.subscribers[i];
      SeenInProtocol(cfg, s0, Observed(events, ch), end, i, ch)
  {
    HistoryInProtocol(cfg, Hub(s0.bundle, [], multiset{}), events, s0, i);
  }

  // ---------- Every run of the protocol is observed in some history ----------

  /** The manager is the one subscriber, if any. */
  ghost predicate Alone(h: Hub, ch: Channel) {
    WellFormed(h) && (h.subscribers == [] || h.subscribers == [ch])
  }

  /** The provider's events for one step; a delivery may first have to look up its channel. */
  function EventsFor(h: Hub, a: R.Action, ch: Channel): seq<Event> {
    match AsEvent(a, ch)
    case None => []
    case Some(e) => if e.Deliver? && Sending(ch) !in h.goroutines then [Resolve(0), e] else [e]
  }

  lemma RunsOne(h: Hub, e: Event)
    requires WellFormed(h) && Enabled(h, e)
    ensures Runs(h, [e]) && After(h, [e]) == Apply(h, e)
  {
    hide Apply, Enabled;
    StepWellFormed(h, e);
    assert [e][1..] == [];
  }

  lemma {:induction false} RunsConcat(h: Hub, first: seq<Event>, second: seq<Event>)
    requires WellFormed(h) && Runs(h, first) && WellFormed(After(h, first)) && Runs(After(h, first), second)
    ensures Runs(h, first + second) && After(h, first + second) == After(After(h, first), second)
    decreases |first|
  {
    hide Apply, Enabled;
    if first == [] {
      assert first + second == second;
    } else {
      assert (first + second)[1..] == first[1..] + second;
      StepWellFormed(h, first[0]);
      RunsConcat(Apply(h, first[0]), first[1..], second);
    }
  }

  /** What a step observed as an event does to bundle, sends and subscription. */
  lemma ProtocolSide(cfg: R.Config, s: R.State, a: R.Action, ch: Channel)
    requires R.Enabled(s, a) && AsEvent(a, ch).Some?
    ensures var t := R.Apply(cfg, s, a);
      && t.sends + Bit(a.TakeEvent?) == s.sends + Bit(!s.loop.NotStarted? && R.Broadcasts(s, a))
      && (t.loop.NotStarted? <==> s.loop.NotStarted? && !a.Subscribe?)
      && t.bundle == if R.Broadcasts(s, a) then (if a.Reload? then a.read.value else a.data) else s.bundle
  {
    hide R.ApplyVisit;
  }

  /** What the event does to the provider, apart from its goroutines. */
  lemma HubSide(h: Hub, e: Event)
    requires WellFormed(h) && Enabled(h, e)
    ensures var g := Apply(h, e);
      && g.subscribers == (if e.Subscribe? then h.subscribers + [e.channel] else h.subscribers)
      && g.content == if Broadcasts(h, e) then (if e.Reload? then e.read.value else e.bundle) else h.content
  {
  }

  lemma OneEventMatched(cfg: R.Config, s: R.State, a: R.Action, h: Hub, e: Event, ch: Channel)
    requires Alone(h, ch) && Match(h, s, 0, ch) && R.Enabled(s, a) && AsEvent(a, ch) == Some(e) && Enabled(h, e)
    ensures Alone(Apply(h, e), ch) && Match(Apply(h, e), R.Apply(cfg, s, a), 0, ch)
  {
    hide R.Apply, R.Enabled, Apply, Waiting, WellFormed;
    assert e.Subscribe? ==> h.subscribers == [] && h.subscribers + [ch] == [ch];
    ProtocolSide(cfg, s, a, ch);
    HubSide(h, e);
    StepWellFormed(h, e);
    StepAccounts(h, e, 0, ch);
  }

  lemma StepMatched(cfg: R.Config, s: R.State, a: R.Action, h: Hub, ch: Channel)
    requires R.WellFormed(s) && R.Enabled(s, a) && Alone(h, ch) && Match(h, s, 0, ch)
    ensures var events := EventsFor(h, a, ch);
      && Runs(h, events)
      && Alone(After(h, events), ch) && Match(After(h, events), R.Apply(cfg, s, a), 0, ch)
      && Observed(events, ch) == Trace([a], ch)
  {
    hide R.ApplyVisit, Apply, Waiting;
    assert [a][1..] == [];
    match AsEvent(a, ch)
    case None =>
    case Some(e) =>
      var g := h;
      if e.Deliver? && Sending(ch) !in h.goroutines {
        ResolveFirst(h, s, ch);
        g := Apply(h, Resolve(0));
        RunsOne(h, Resolve(0));
      } else {
        EventEnabled(h, s, a, e, ch);
      }
      OneEventMatched(cfg, s, a, g, e, ch);
      RunsOne(g, e);
      assert [e][1..] == [];
      if g != h {
        assert [Resolve(0)] + [e] == [Resolve(0), e];
        RunsConcat(h, [Resolve(0)], [e]);
        ObservedConcat([Resolve(0)], [e], ch);
      }
  }

  lemma EventEnabled(h: Hub, s: R.State, a: R.Action, e: Event, ch: Channel)
    requires R.Enabled(s, a) && Alone(h, ch) && Match(h, s, 0, ch) && AsEvent(a, ch) == Some(e)
    requires e.Deliver? ==> Sending(ch) in h.goroutines
    ensures Enabled(h, e)
  {
  }

  /** A send that waits without a channel is looked up, which nobody notices. */
  lemma ResolveFirst(h: Hub, s: R.State, ch: Channel)
    requires R.WellFormed(s) && Alone(h, ch) && Match(h, s, 0, ch) && s.sends > 0 && Sending(ch) !in h.goroutines
    ensures Enabled(h, Resolve(0))
    ensures var g := Apply(h, Resolve(0));
      g != h && Alone(g, ch) && Match(g, s, 0, ch) && Sending(ch) in g.goroutines
  {
    assert Spawned(0) in h.goroutines;
    StepWellFormed(h, Resolve(0));
    StepAccounts(h, Resolve(0), 0, ch);
  }

  /** Some history of the provider shows the manager these events, and ends matching the state. */
  ghost predicate SeenInHub(h: Hub, seen: seq<Event>, end: R.State, ch: Channel)
    requires WellFormed(h)
  {
    exists events :: Runs(h, events) && Observed(events, ch) == seen && Match(After(h, events), end, 0, ch)
  }

  lemma {:induction false} RunInHub(cfg: R.Config, s: R.State, actions: seq<R.Action>, h: Hub, ch: Channel)
    requires R.WellFormed(s) && R.Runs(cfg, s, actions) && Alone(h, ch) && Match(h, s, 0, ch)
    ensures SeenInHub(h, Trace(actions, ch), R.After(cfg, s, actions), ch)
    decreases |actions|
  {
    hide Apply, Enabled, Match, R.Apply, R.Enabled, R.WellFormed, EventsFor, ObservedOne, TraceOne;
    if actions == [] {
      assert Runs(h, []) && Observed([], ch) == [] && After(h, []) == h;
    } else {
      var t := R.Apply(cfg, s, actions[0]);
      StepMatched(cfg, s, actions[0], h, ch);
      R.StepWellFormed(cfg, s, actions[0]);
      var first := EventsFor(h, actions[0], ch);
      var g := After(h, first);
      RunInHub(cfg, t, actions[1..], g, ch);
      var rest :| Runs(g, rest) && Observed(rest, ch) == Trace(actions[1..], ch)
                  && Match(After(g, rest), R.After(cfg, t, actions[1..]), 0, ch);
      RunsConcat(h, first, rest);
      ObservedConcat(first, rest, ch);
      assert [actions[0]] + actions[1..] == actions;
      TraceConcat([actions[0]], actions[1..], ch);
    }
  }

  /** Conversely, what a run of the protocol shows of its provider is what some provider shows. */
  lemma ProtocolRefinesHub(cfg: R.Config, s0: R.State, actions: seq<R.Action>, ch: Channel)
    requires R.Init(s0) && R.Runs(cfg, s0, actions)
    ensures SeenInHub(Hub(s0.bundle, [], multiset{}), Trace(actions, ch), R.After(cfg, s0, actions), ch)
  {
    RunInHub(cfg, s0, actions, Hub(s0.bundle, [], multiset{}), ch);
  }
}
