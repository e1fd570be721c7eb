/** The bundle held by a root CA provider and its broadcast of changes to subscribers. */
module RootCa {
  import opened Base

  type Channel = nat

  /** A broadcast goroutine: started with an index into the subscriber list, then blocked on a channel. */
  datatype Goroutine = Spawned(index: nat) | Sending(channel: Channel)

  datatype Hub = Hub(content: Bytes, subscribers: seq<Channel>, goroutines: multiset<Goroutine>)

  /** `Reload` is the file provider's re-read, `Receive` the memory provider's input. */
  datatype Event = Reload(read: Option<Bytes>) | Receive(bundle: Bytes) | Subscribe(channel: Channel)
                 | Resolve(index: nat) | Deliver(channel: Channel)

  ghost predicate WellFormed(h: Hub) {
    && (forall i, j :: 0 <= i < j < |h.subscribers| ==> h.subscribers[i] != h.subscribers[j])
    && (forall i: nat :: Spawned(i) in h.goroutines ==> i < |h.subscribers|)
    && (forall ch: Channel :: Sending(ch) in h.goroutines ==> ch in h.subscribers)
  }

  predicate Enabled(h: Hub, e: Event) {
    match e
    case Reload(_) => true
    case Receive(_) => true
    case Subscribe(ch) => ch !in h.subscribers
    case Resolve(i) => Spawned(i) in h.goroutines
    case Deliver(ch) => Sending(ch) in h.goroutines
  }

  /** The file provider signals content changes only; the memory provider signals every input. */
  predicate Broadcasts(h: Hub, e: Event) {
    (e.Reload? && e.read.Some? && e.read.value != h.content) || e.Receive?
  }

  /** One goroutine per subscriber. */
  function Burst(n: nat): multiset<Goroutine> {
    multiset(set i | 0 <= i < n :: Spawned(i))
  }

  function Apply(h: Hub, e: Event): Hub
    requires Enabled(h, e) && WellFormed(h)
  {
    match e
    case Reload(read) =>
      if Broadcasts(h, e) then Hub(read.value, h.subscribers, h.goroutines + Burst(|h.subscribers|)) else h
    case Receive(b) => Hub(b, h.subscribers, h.goroutines + Burst(|h.subscribers|))
    case Subscribe(ch) => h.(subscribers := h.subscribers + [ch])
    case Resolve(i) => h.(goroutines := h.goroutines - multiset{Spawned(i)} + multiset{Sending(h.subscribers[i])})
    case Deliver(ch) => h.(goroutines := h.goroutines - multiset{Sending(ch)})
  }

  /** The file provider, whose fields are updated under its lock. */
  class File {
    var certificatesPem: Bytes
    var subscribers: seq<Channel>
    var goroutines: multiset<Goroutine>
    var nextChannel: Channel

    ghost predicate Valid()
      reads this
    {
      WellFormed(View()) && forall ch :: ch in subscribers ==> ch < nextChannel
    }

    ghost function View(): Hub
      reads this
    {
      Hub(certificatesPem, subscribers, goroutines)
    }

    constructor (certificatesPem: Bytes)
      ensures Valid() && View() == Hub(certificatesPem, [], multiset{})
    {
      this.certificatesPem := certificatesPem;
      subscribers := [];
      goroutines := multiset{};
      nextChannel := 0;
    }

    /** reloadCertificatesPEM, given what reading the file returned. */
    method ReloadCertificatesPem(read: Option<Bytes>)
      requires Valid()
      modifies this
      ensures Valid() && View() == Apply(old(View()), Reload(read))
      ensures certificatesPem == (if read.Some? then read.value else old(certificatesPem))
      ensures subscribers == old(subscribers)
      ensures goroutines == old(goroutines) +
                if certificatesPem != old(certificatesPem)
                then multiset(set i | 0 <= i < |subscribers| :: Spawned(i)) else multiset{}
    {
      if read.None? {
        return;
      }
      if read.value == certificatesPem {
        return;
      }
      certificatesPem := read.value;
      ghost var before := goroutines;
      for i := 0 to |subscribers|
        invariant subscribers == old(subscribers) && nextChannel == old(nextChannel)
        invariant certificatesPem == read.value && goroutines == before + Burst(i)
      {
        BurstGrows(i);
        goroutines := goroutines + multiset{Spawned(i)};
      }
      StepWellFormed(old(View()), Reload(read));
    }

    /** Subscribe: a fresh channel at the end of the list. */
    method SubscribeTo() returns (channel: Channel)
      requires Valid()
      modifies this
      ensures Valid() && channel !in old(subscribers) && View() == Apply(old(View()), Subscribe(channel))
      ensures subscribers == old(subscribers) + [channel]
      ensures certificatesPem == old(certificatesPem) && goroutines == old(goroutines)
    {
      channel := nextChannel;
      nextChannel := nextChannel + 1;
      StepWellFormed(View(), Subscribe(channel));
      subscribers := subscribers + [channel];
    }
  }

  lemma BurstGrows(n: nat)
    ensures Burst(n + 1) == Burst(n) + multiset{Spawned(n)}
  {
    assert (set i | 0 <= i < n + 1 :: Spawned(i)) == (set i | 0 <= i < n :: Spawned(i)) + {Spawned(n)};
  }

  lemma BurstCounts(n: nat, g: Goroutine)
    ensures Burst(n)[g] == if g.Spawned? && g.index < n then 1 else 0
  {
  }

  lemma StepWellFormed(h: Hub, e: Event)
    requires WellFormed(h) && Enabled(h, e)
    ensures WellFormed(Apply(h, e)) && h.subscribers <= Apply(h, e).subscribers
  {
    var t := Apply(h, e);
    forall i: nat | Spawned(i) in t.goroutines ensures i < |t.subscribers| {
      BurstCounts(|h.subscribers|, Spawned(i));
    }
    forall ch: Channel | Sending(ch) in t.goroutines ensures ch in t.subscribers {
      BurstCounts(|h.subscribers|, Sending(ch));
    }
  }

  // ---------- Histories ----------

  ghost predicate Runs(h: Hub, events: seq<Event>)
    requires WellFormed(h)
    decreases |events|
  {
    if events == [] then true
    else Enabled(h, events[0]) && (StepWellFormed(h, events[0]); Runs(Apply(h, events[0]), events[1..]))
  }

  function After(h: Hub, events: seq<Event>): Hub
    requires WellFormed(h) && Runs(h, events)
    decreases |events|
  {
    if events == [] then h
    else
      StepWellFormed(h, events[0]);
      After(Apply(h, events[0]), events[1..])
  }

  /** Broadcasts made while the list already had a subscriber at position i. */
  function Owed(h: Hub, events: seq<Event>, i: nat): nat
    requires WellFormed(h) && Runs(h, events)
    decreases |events|
  {
    if events == [] then 0
    else
      StepWellFormed(h, events[0]);
      Bit(i < |h.subscribers| && Broadcasts(h, events[0])) + Owed(Apply(h, events[0]), events[1..], i)
  }

  function Delivered(events: seq<Event>, ch: Channel): nat {
    if events == [] then 0 else Bit(events[0] == Deliver(ch)) + Delivered(events[1..], ch)
  }

  /** Sends not yet received by subscriber i, whose channel is ch. */
  function Waiting(h: Hub, i: nat, ch: Channel): nat {
    h.goroutines[Spawned(i)] + h.goroutines[Sending(ch)]
  }

  /** Position i holds channel ch, or is still free and the channel unknown. */
  predicate Position(h: Hub, i: nat, ch: Channel) {
    if i < |h.subscribers| then h.subscribers[i] == ch else ch !in h.subscribers
  }

  lemma StepAccounts(h: Hub, e: Event, i: nat, ch: Channel)
    requires WellFormed(h) && Enabled(h, e) && Position(h, i, ch) && Position(Apply(h, e), i, ch)
    ensures Waiting(Apply(h, e), i, ch) + Bit(e == Deliver(ch))
         == Waiting(h, i, ch) + Bit(i < |h.subscribers| && Broadcasts(h, e))
  {
    BurstCounts(|h.subscribers|, Spawned(i));
    BurstCounts(|h.subscribers|, Sending(ch));
    if e.Resolve? && e.index != i {
      assert h.subscribers[e.index] != ch;
    }
  }

  /** A channel keeps its position, so a goroutine that resolves its index late reaches the same subscriber. */
  lemma {:induction false} PositionsAreStable(h: Hub, events: seq<Event>, i: nat)
    requires WellFormed(h) && Runs(h, events) && i < |After(h, events).subscribers|
    ensures WellFormed(After(h, events)) && h.subscribers <= After(h, events).subscribers
    ensures Position(h, i, After(h, events).subscribers[i])
    decreases |events|
  {
    hide Apply;
    if events != [] {
      StepWellFormed(h, events[0]);
      PositionsAreStable(Apply(h, events[0]), events[1..], i);
    }
  }

  lemma {:induction false} RunAccounts(h: Hub, events: seq<Event>, i: nat)
    requires WellFormed(h) && Runs(h, events) && i < |After(h, events).subscribers|
    ensures var end := After(h, events); var ch := end.subscribers[i];
      Waiting(end, i, ch) + Delivered(events, ch) == Waiting(h, i, ch) + Owed(h, events, i)
    decreases |events|
  {
    hide Apply, Waiting;
    if events != [] {
      var ch := After(h, events).subscribers[i];
      StepWellFormed(h, events[0]);
      PositionsAreStable(h, events, i);
      PositionsAreStable(Apply(h, events[0]), events[1..], i);
      StepAccounts(h, events[0], i, ch);
      RunAccounts(Apply(h, events[0]), events[1..], i);
    }
  }

  /**
   For every history of reloads, subscriptions and deliveries, subscriber i has been owed exactly one
   send per broadcast since it subscribed: each is either delivered on its channel or still waiting.
   */
  lemma BroadcastExact(content: Bytes, events: seq<Event>, i: nat)
    requires Runs(Hub(content, [], multiset{}), events)
    requires i < |After(Hub(content, [], multiset{}), events).subscribers|
    ensures var h := Hub(content, [], multiset{}); var end := After(h, events);
      Waiting(end, i, end.subscribers[i]) + Delivered(events, end.subscribers[i]) == Owed(h, events, i)
  {
    RunAccounts(Hub(content, [], multiset{}), events, i);
  }
}
